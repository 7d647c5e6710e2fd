# Gallium front end and test harness, modelled in Dafny

Gallium is a small systems language. Its compiler is written in C++ and
comes with a Python test runner. This project models the parts of both
that are sequential logic over strings, tables and trees, and proves what
they promise:

- **Test runner** (`TestRunner`). Reading a test's directive header,
  the should-run and should-panic verdicts, pulling the panic reason out
  of the error stream, artifact names, and reporting in discovery order.
  The subprocess result (exit code, stdout, stderr) is an input.
- **Symbol mangling** (`Mangling`, `ManglingImpl`, `ManglerTests`). The
  symbol grammar and its substitution table are pure functions, with
  round trips proved over them. The `Mangler` and `Demangler` classes
  build the text in place and are proved against those functions. The
  unit test on repeated substitutions is stated as a lemma.
- **Identifiers, types and AST values** (`Ids`, `LegacyIds`, `Types`,
  `Ast`). Rendering, per-kind structural equality and clone. The error
  type and the error expression equal everything, so equality is shown
  not to be transitive.
- **Type printer and type rules** (`Pretty`, `Typing`). Type strings and
  operator tables; the type predicates, convertibility, the literal-fit
  test, overload selection and binary-operator typing.
- **Symbol tables and name resolution** (`Environments`,
  `VariableResolvers`, `NameResolution`). Stacks of scopes as classes
  over maps, lookups, and the rewrites of the name resolver.
- **Diagnostics** (`Diagnostics`, `LegacyDiagnostics`). Headers with
  zero-padded `E#NNNN` codes, underlines, line splitting, the order of
  the underline list, and the console reporter's counter.
- **Constant pool** (`ConstantPools`). The string and type caches and
  field ordering, with LLVM types as abstract values that have a size.
- **Tables and builders** (`Parsing`, `Predefined`, `Flags`, `Emission`,
  `Optimization`). Builtin-type parsing, the injected predefined
  declarations, the flag tables and cached configuration, output file
  names and the outcome of emitting, and optimisation pipelines.
- **Support** (`Basics`, `Misc`, `SourceLocs`). Option, strings and
  integer text (`to_digits`/`from_digits`).

Where a source class updates its fields, the model is a Dafny class whose
methods are proved against the pure functions.

Text is `seq<char>`, and one Dafny `char` stands for one byte of a C++
`std::string` or one character of a Python `str`. Lengths such as a string
constant's `size() + 1` therefore count characters. The table below ties each
member to the source lines it models.

## Model

| member | source | states |
|---|---|---|
| Misc.IPow | compiler/src/utility/misc.h:131-150 | ipow on std::uint64_t returns base to the power exp reduced modulo 2^64, the wrap-around of every multiplication in the loop |
| Misc.TryNarrow | compiler/src/utility/misc.h:113-123 | the narrowed value is present exactly when it lies within the target type's range, and is then the value unchanged |
| Misc.UnwrappingEqual | compiler/src/utility/misc.h:66-73 | two present values compare by the comparator; otherwise the result is true exactly when both are absent |
| Misc.CloneIf | compiler/src/utility/misc.h:97-104 | an absent value stays absent; a present value becomes its clone |
| Misc.CloneSpan | compiler/src/utility/misc.h:80-91 | the new vector has the same length and holds, at each position, the clone of the element there |
| Misc.IntoList | compiler/src/utility/misc.h:223-230 | the list holds the arguments in argument order |
| Misc.ReverseAt | compiler/src/utility/misc.h:254-289 | the reverse adapter visits as many elements as there are, step i visiting element n-1-i |
| Misc.NatDigitsValue | compiler/src/utility/misc.cc:40-51 | the digits to_chars writes for a non-negative value read back, in the same base, as that value |
| Misc.FromDigitsRoundTrip | compiler/src/utility/misc.cc:76-82 | from_digits on the text of any std::uint64_t in bases 2 to 36 succeeds with that value |
| Misc.RenderFits | compiler/src/utility/misc.cc:40-51 | the text of every int64 and uint64 fits in 64 characters except INT64_MIN in base 2, and every one fits in 65 |
| Misc.ToChars | compiler/src/utility/misc.cc:46 | std::to_chars writes the text into the buffer and succeeds exactly when it fits; otherwise it fails and reports the buffer end |
| Misc.ToDigits | compiler/src/utility/misc.cc:40-51 | to_digits with its 64-character buffer returns the value's text exactly when that text fits; otherwise the assertion on the error code fails |
| Misc.ToDigitsInBuffer | compiler/src/utility/misc.cc:40-51 | with a buffer of any size, the text is returned exactly when it fits, and is then the full text |
| Misc.ToDigitsWide | compiler/src/utility/misc.cc:40-51 | with 65 characters every int64 and uint64 is written in full, in every base |
| Misc.ToDigitsMinBase2Overflows | compiler/src/utility/misc.cc:44-47 | INT64_MIN in base 2 needs one character more than the 64 the buffer holds |
| Ids.ParseModule | compiler/src/ast/modular_id.h:53-61 | reading a rendered path back marks it rooted exactly when the text starts with `::` |
| Ids.ModuleStringRoundTrip | compiler/src/ast/modular_id.h:53-61 | a rooted or non-empty path of proper parts is recovered from its to_string |
| Ids.ModulesEqualIsValueEquality | compiler/src/ast/modular_id.h:68-74 | ModuleID equality (same rooting, elementwise-equal parts of equal length) holds exactly when the two paths are the same value |
| Ids.UnqualifiedStringCollides | compiler/src/ast/modular_id.h:110-116 | as written, the prefix is rendered straight against the name, so `foo` + `bar` and the bare name `foobar` print alike |
| Ids.UnqualifiedStringFixedInjective | compiler/src/ast/modular_id.h:110-116 | with a `::` between prefix and name, two identifiers made of proper parts that print alike are equal |
| Ids.FixedIsModuleString | compiler/src/ast/modular_id.h:110-116 | the corrected rendering of an identifier is the rendering of its whole path, name last |
| Ids.IntoUnqualifiedUndoes | compiler/src/ast/modular_id.h:219-230 | module_into_unqualified undoes appending the name to the prefix path |
| Ids.UnqualifiedEqualAsWrittenMissesCopies | compiler/src/ast/modular_id.h:123-127 | comparing the prefixes as pointers makes two distinct objects holding the same prefixed identifier unequal, while an object equals itself |
| Ids.UnqualifiedEqualIsValueEquality | compiler/src/ast/modular_id.h:123-127 | the corrected comparison (equal names, equal optional module values) is value equality, hence an equivalence |
| Ids.ModuleIntoUnqualified | compiler/src/ast/modular_id.h:219-230 | the name is the last part; there is no prefix exactly when the path has one part and is not rooted; otherwise the prefix keeps the rooting and the remaining parts |
| Ids.ModuleIntoUnqualifiedRoundTrip | compiler/src/ast/modular_id.h:219-230 | appending the name back to the prefix gives the original path |
| Ids.QualifiedEqualIsSplitEquality | compiler/src/ast/modular_id.h:196-200 | FullyQualifiedID equality holds exactly when the module strings and the names are equal, and equal identifiers have equal as_string |
| Ids.QualifiedStringNotEnough | compiler/src/ast/modular_id.h:187-200 | `::a` + `b` and `::` + `ab` share one as_string yet compare unequal |
| Ids.FullyQualifiedID.Value | compiler/src/ast/modular_id.h:141-144 | the module view followed by the name view is exactly the owned string |
| Ids.FullyQualifiedID.constructor | compiler/src/ast/modular_id.h:141-144 | the views are the given module string and name |
| Ids.FullyQualifiedID.Copy | compiler/src/ast/modular_id.h:146-152 | the copy stands for the same module string and name as the original |
| Ids.FullyQualifiedID.Assign | compiler/src/ast/modular_id.h:154-168 | after assignment the object stands for the other's old value, self-assignment included |
| Ids.FullyQualifiedID.Equals | compiler/src/ast/modular_id.h:196-200 | comparing the views is comparing the values the objects stand for |
| LegacyIds.QualifiedStringSplits | compiler/src/ast/nodes/modular_id.h:72-74 | splitting the older identifier's rendering on `::` gives the module parts followed by the name |
| LegacyIds.EmptyModuleRendersRooted | compiler/src/ast/nodes/modular_id.h:72-74 | an empty module still contributes the separator, so the rendering is `::` followed by the name |
| SourceLocs.LocEqualIsValueEquality | compiler/src/ast/source_loc.h:67-70 | location equality (raw text, line, column, file) is value equality |
| Types.ElementwiseEqualMeans | compiler/src/ast/nodes/ast_node.h:82-92 | GenericArgsCmp holds exactly for two lists of equal length whose elements are pairwise equal |
| Types.GenericParams | compiler/src/ast/nodes/type.h:531-537 | generic_params() is absent exactly when the list is empty, and otherwise is the list |
| Types.GenericsCompareUnwrapped | compiler/src/ast/nodes/type.cc:166-171 | comparing generic lists is unwrapping_equal over generic_params() with GenericArgsCmp |
| Types.IsOneOf | compiler/src/ast/nodes/type.h:159-161 | is_one_of holds exactly when the node's kind is among the given kinds |
| Types.WidthOf | compiler/src/ast/nodes/type.h:407-413 | width_of is absent exactly for the native width and is the bit count otherwise |
| Types.EqualReflexive | compiler/src/ast/nodes/type.h:112-118 | every type equals itself |
| Types.EqualSymmetric | compiler/src/ast/nodes/type.h:112-118 | type equality does not depend on the order of its operands |
| Types.EqualNotTransitive | compiler/src/ast/nodes/type.h:113-115 | because the error type equals everything, i32 equals error and error equals bool while i32 does not equal bool |
| Types.NotEqualIrreflexive | compiler/src/ast/nodes/type.h:125-127 | `!=` never holds between a type and itself |
| Types.FullyEqualsStricter | compiler/src/ast/nodes/type.h:134-136 | the same type written at two places is equal but not fully equal |
| Types.Erase | compiler/src/ast/nodes/type.cc:22-358 | forgetting locations, slice mutability and unsized-literal values keeps each node's kind |
| Types.EqualIsErasedEquality | compiler/src/ast/nodes/type.cc:22-358 | for types without an error type inside, the per-kind equality holds exactly when the nodes agree once locations, slice mutability and unsized-literal values are forgotten |
| Types.CloneAsWrittenFaithful | compiler/src/ast/nodes/type.cc:28-338 | on nodes without an indirection, a dyn interface or a generic unqualified user type inside, the written clone reproduces the node exactly |
| Types.CloneAsWrittenFullyEquals | compiler/src/ast/nodes/type.cc:28-338 | on those nodes the written clone is fully equal to the original |
| Types.IndirectionCloneIsEmpty | compiler/src/ast/nodes/type.cc:355-357 | the written clone of an indirection type is no type (the empty pointer), and the written clone of a reference around one is no type either |
| Types.DynCloneChangesKind | compiler/src/ast/nodes/type.cc:232-234 | cloning a dyn interface type gives a user-defined type, which does not equal the original |
| Types.UnqualifiedCloneDropsGenerics | compiler/src/ast/nodes/type.cc:173-175 | cloning an unqualified user-defined type with a generic parameter gives a type unequal to the original |
| Types.Clone | compiler/src/ast/nodes/type.cc:28-358 | the corrected clone rebuilds every kind from clones of its children and reproduces the node |
| Types.CloneFullyEquals | compiler/src/ast/nodes/type.h:134-143 | the corrected clone is fully equal to its original |
| Types.CloneGenerics | compiler/src/ast/nodes/ast_node.h:95-103 | clone_generics yields, in order, the written clone of each element, an empty one where the written clone is empty; on clone-safe elements each clone is the element itself |
| Ast.ContinueDebugCast | compiler/src/ast/nodes/expression.cc:617-621 | comparing a continue expression reads the other node as a return expression, which fails for every continue |
| Ast.EqualReflexive | compiler/src/ast/nodes/expression.h:116-122 | with values compared throughout, every expression, statement and nested list equals itself |
| Ast.EqualNotTransitive | compiler/src/ast/nodes/expression.h:116-119 | the error expression equals every expression, so 1 equals error and error equals 2 while 1 does not equal 2 |
| Ast.StaticCallIgnoresCallee | compiler/src/ast/nodes/expression.cc:217-222 | as written a static call's callee is compared with itself, so calls to different overloads compare equal |
| Ast.ReturnValueComparedByPointer | compiler/src/ast/nodes/expression.cc:575-579 | comparing the optional value pointers makes a return with a value unequal to a separately built copy of itself |
| Ast.ElseBlockComparedByPointer | compiler/src/ast/nodes/expression.cc:486-495 | comparing the optional else-block pointers makes an if-else with an else block unequal to a separately built copy of itself |
| Ast.ContinueEqualityFailsDebugCast | compiler/src/ast/nodes/expression.cc:617-621 | comparing two continue expressions fails the debug cast to a return expression |
| Ast.TextUnquoted | compiler/src/ast/nodes/expression.h:317-321 | text_unquoted is the text between the first and the last character, and empty for a one-character text |
| Ast.UnquoteQuoted | compiler/src/ast/nodes/expression.h:317-321 | a quoted literal unquotes to exactly what was quoted |
| Ast.ElseBlock | compiler/src/ast/nodes/expression.h:1764-1770 | else_block is present exactly when the expression is evaluable, and is then the else block |
| Ast.GenericParams | compiler/src/ast/nodes/expression.h:585-591 | generic_params of identifiers and calls is absent exactly when the list is empty, and otherwise is the list |
| Ast.CloneExpr | compiler/src/ast/nodes/expression.h:183-191 | a clone keeps the location; as written it never carries a result type |
| Ast.CloneExprExact | compiler/src/ast/nodes/expression.cc:385-625 | the intended clone reproduces every expression exactly, result type included |
| Ast.CloneFullyEquals | compiler/src/ast/nodes/expression.h:144-146 | the intended clone is fully equal to its original |
| Ast.CloneKeepsOperators | compiler/src/ast/nodes/expression.cc:385-407 | literal, unary and binary nodes clone to the same operator and location with cloned children, also as written |
| Ast.BreakClonesToReturn | compiler/src/ast/nodes/expression.cc:602-607 | as written a break clones to a return expression, which does not equal the break |
| Ast.CloneDropsResult | compiler/src/ast/nodes/expression.h:183-191 | as written the clone loses the stored result type because the guard reads the fresh copy's empty slot; the intended clone keeps it |
| Ast.Expression.constructor | compiler/src/ast/nodes/expression.h:176-178 | a new expression has no result type |
| Ast.Expression.Result | compiler/src/ast/nodes/expression.h:196-200 | result() is only defined when a result is present, and returns it |
| Ast.Expression.ResultUpdate | compiler/src/ast/nodes/expression.h:214-216 | result_update stores the new result and changes nothing else |
| Ast.Expression.Clone | compiler/src/ast/nodes/expression.h:183-191 | the copy made by clone() as written has no result type |
| Ast.Expression.CloneFixed | compiler/src/ast/nodes/expression.h:183-191 | the corrected clone copies the original's result type, so the copy equals the original value |
| Ast.ProtoIgnoresAttributes | compiler/src/ast/nodes/declaration.cc:53-59 | prototype equality compares name, receiver, arguments and return type, so prototypes differing only in attributes are equal |
| Ast.TypeDeclIgnoresExported | compiler/src/ast/nodes/declaration.cc:155-159 | type declarations compare name and aliased type only, so the exported flag does not matter |
| Ast.ExternalComparedByPointer | compiler/src/ast/nodes/declaration.cc:191-195 | comparing vectors of owning pointers makes two separately built external blocks with the same entry unequal |
| Ast.Mangled.constructor | compiler/src/ast/nodes/ast_node.h:76-78 | a fresh node has neither a mangled name nor an id |
| Ast.Mangled.MangledName | compiler/src/ast/nodes/ast_node.h:47-51 | mangled_name() is only defined after set_mangled, and returns the stored name |
| Ast.Mangled.Id | compiler/src/ast/nodes/ast_node.h:56-60 | id() is only defined after set_id, and returns the stored id |
| Ast.Mangled.SetMangled | compiler/src/ast/nodes/ast_node.h:72-74 | the name set is the one mangled_name() returns; the id is untouched |
| Ast.Mangled.SetId | compiler/src/ast/nodes/ast_node.h:65-67 | the id set is the one id() returns; the mangled name is untouched |
| Ast.ExternalFnsEqual | compiler/src/ast/nodes/declaration.cc:191-195 | compared by value, a list of external functions equals itself |
| Ast.ExternalEqualByValue | compiler/src/ast/nodes/declaration.cc:191-195 | with entries compared by value an external block equals itself, where the comparison as written fails for every non-empty block |
| Mangling.NonEmpty | compiler/src/core/mangler.cc:252-262 | build_module_prefix skips the empty parts: every part kept is non-empty and comes from the split |
| Mangling.PartsPrefix | compiler/src/core/mangler.cc:252-262 | the module prefix writes each part length-prefixed, so a non-empty prefix starts with a digit |
| Mangling.Substitute | compiler/src/core/mangler.cc:232-250 | an encoding seen before becomes "Z<code>_" with the table unchanged; a new one is kept and registered under the next code |
| Mangling.EncodeType | compiler/src/core/mangler.cc:110-229 | every accepted type has a non-empty encoding that does not start with the 'E' closing an argument list, and each new code costs at least one character |
| Mangling.EncodeTypes | compiler/src/core/mangler.cc:181-191 | a non-empty list of types encodes to text that does not start with 'E', threading the substitution table through |
| Mangling.ArgTypes | compiler/src/core/mangler.cc:62-64 | the types the argument loop mangles are the prototype's argument types, in order |
| Mangling.FnSymbol | compiler/src/core/mangler.cc:44-68 | a function's symbol starts with "_G" |
| Mangling.FnBody | compiler/src/core/mangler.cc:52-66 | after the module prefix a function's symbol continues with 'F' |
| Mangling.ConstSymbol | compiler/src/core/mangler.cc:102-108 | a constant's symbol starts with "_G" |
| Mangling.ConstBody | compiler/src/core/mangler.cc:102-108 | after the module prefix a constant's symbol continues with 'C' |
| Mangling.Symbol | compiler/src/core/mangler.cc:44-108 | extern functions keep their plain name; other functions get their encoded symbol, or the runtime's entry name for "_GF4mainNEv" |
| Mangling.ParseDigits | compiler/src/core/mangler.cc:477-485 | digits() reads the run of digits in front and leaves the cursor on the first non-digit |
| Mangling.ScanDigits | compiler/src/core/mangler.cc:477-485 | the digit scan stops at the first non-digit |
| Mangling.ParsePart | compiler/src/core/mangler.cc:467-475 | part_with_len() reads a length and then that many characters, failing when the text is shorter |
| Mangling.ParseModulePart | compiler/src/core/mangler.cc:330-335 | module_part() reads length-prefixed parts while a digit follows, each written with "::" |
| Mangling.ParseNamed | compiler/src/core/mangler.cc:448-462 | the default case of type() reads module parts, then 'U' or 'D' and the name |
| Mangling.ParseType | compiler/src/core/mangler.cc:372-465 | type() reads one type, returns the text it appends and records named types it reads in full |
| Mangling.ParseArray | compiler/src/core/mangler.cc:409-414 | the 'A' case reads element type, size and the '_' it steps over |
| Mangling.ParseFnPointer | compiler/src/core/mangler.cc:425-443 | the 'F' case reads the throws flag, arguments up to 'E' and the return type |
| Mangling.ParseSubstitution | compiler/src/core/mangler.cc:444-447 | the 'Z' case reads the recorded entry under the index; a missing entry fails |
| Mangling.ParseArgs | compiler/src/core/mangler.cc:345-352 | the argument loop reads types until an 'E', separated by ", " |
| Mangling.TopPassAsWritten | compiler/src/core/mangler.cc:317-335 | one pass of demangle()'s loop on a character other than 'F', 'C' or a digit does not move the cursor |
| Mangling.TopLoopStalls | compiler/src/core/mangler.cc:317-335 | on such a character the loop as written never ends |
| Mangling.GlobalInitializerStalls | compiler/src/core/mangler.cc:311-335 | "_GLOBAL__sub_I_main" passes the "_G" test and then stalls the loop at the 'L' |
| Mangling.Demangled | compiler/src/core/mangler.cc:302-328 | the entry name maps to main's signature; a text shorter than three characters or without "_G" comes back unchanged |
| Mangling.DecRoundTrip | compiler/src/core/mangler.cc:477-485 | a decimal number reads back as itself when no digit follows it |
| Mangling.PartRoundTrip | compiler/src/core/mangler.cc:467-475 | a length-prefixed name reads back as the name |
| Mangling.ModulePartRoundTrip | compiler/src/core/mangler.cc:330-335 | the module prefix the mangler writes reads back as the module text |
| Mangling.NamedRoundTrip | compiler/src/core/mangler.cc:173-179 | a user-defined or dyn type's encoding reads back as its rooted name |
| Mangling.NamedSubstRoundTrip | compiler/src/core/mangler.cc:232-250 | a named type reads back as its rooted name, whether written out or replaced by a substitution |
| Mangling.SubstitutedRoundTrip | compiler/src/core/mangler.cc:444-447 | a substitution reference reads back as the text recorded under its code |
| Mangling.WrittenOutRoundTrip | compiler/src/core/mangler.cc:448-462 | a named type written out reads back as its rooted name, which the demangler records |
| Mangling.SubsAgreeExtend | compiler/src/core/mangler.cc:232-250 | the mangler registering a new key and the demangler recording it keep the two tables in step |
| Mangling.TypeRoundTrip | compiler/src/core/mangler.cc:372-465 | every accepted type reads back as its rendering, and the mangler's and demangler's tables stay in step |
| Mangling.LeafRoundTrip | compiler/src/core/mangler.cc:374-392 | a builtin scalar type's one-letter code reads back as its name with the tables untouched |
| Mangling.BuiltinCode | compiler/src/core/mangler.cc:128-168 | a builtin scalar type is written as one letter that names it |
| Mangling.ReferenceRoundTrip | compiler/src/core/mangler.cc:401-408 | a reference's encoding reads back as `&` or `&mut ` and the referenced type, leaving the rest and keeping the substitution table in step |
| Mangling.SliceRoundTrip | compiler/src/core/mangler.cc:415-424 | a slice's encoding reads back as `[` or `[mut `, the element type and `]`, leaving the rest and keeping the substitution table in step |
| Mangling.PointerRoundTrip | compiler/src/core/mangler.cc:393-400 | a pointer's encoding reads back as `*const ` or `*mut ` and the pointed-to type, leaving the rest and keeping the substitution table in step |
| Mangling.FnPointerRoundTrip | compiler/src/core/mangler.cc:181-191 | a function pointer's encoding reads back as its text |
| Mangling.ArrayRoundTrip | compiler/src/core/mangler.cc:221-225 | an array's encoding reads back as "[" element "; " size "]" |
| Mangling.ArgsRoundTrip | compiler/src/core/mangler.cc:345-352 | an argument list followed by 'E' reads back as its renderings joined by ", " |
| Mangling.FnBodyRoundTrip | compiler/src/core/mangler.cc:337-358 | a function's name, arguments and return type read back after any module text |
| Mangling.ConstBodyRoundTrip | compiler/src/core/mangler.cc:360-370 | a constant's name and type read back after any module text |
| Mangling.TopRoundTrip | compiler/src/core/mangler.cc:317-323 | the loop of demangle() reads the module prefix and hands over to function() or constant() |
| Mangling.DemangledPrefixed | compiler/src/core/mangler.cc:311-317 | a "_G" symbol is parsed from its third character |
| Mangling.FnRoundTrip | compiler/src/core/mangler.cc:44-75 | demangling a function's symbol gives back its signature |
| Mangling.ConstRoundTrip | compiler/src/core/mangler.cc:102-108 | demangling a constant's symbol gives back its signature |
| Mangling.MainSymbolDemangles | compiler/src/core/mangler.cc:303-309 | main's symbol and the runtime's entry name demangle to the same signature |
| Mangling.MangleDemangleRoundTrip | compiler/src/core/mangler.cc:495-502 | demangling what mangle produces gives back the declaration's signature, for every declaration the mangler accepts |
| ManglerTests.MultipleSubstitutions | compiler/tests/unit/test_mangler.cc:86-96 | f(::s::S, ::s::S, ::q::Q) -> ::q::Q mangles to "_GF1fN1sU1SZ0_1qU1QEZ1_" (one-letter names as parameters) and demangles back to its signature |
| ManglerTests.SubstitutionOrder | compiler/src/core/mangler.cc:232-250 | the repeated argument becomes "Z0_" and the return type "Z1_": codes count first occurrences from 0 |
| ManglingImpl.Mangler.constructor | compiler/src/core/mangler.cc:28-30 | a fresh mangler has written "_G" and registered nothing |
| ManglingImpl.Mangler.BuildModulePrefix | compiler/src/core/mangler.cc:252-262 | appends exactly the module prefix |
| ManglingImpl.Mangler.VisitNamed | compiler/src/core/mangler.cc:173-179 | appends the module prefix, the tag and the length-prefixed name |
| ManglingImpl.Mangler.Mangle | compiler/src/core/mangler.cc:232-250 | appends the type's encoding with substitution and updates the table and counter as EncodeType says |
| ManglingImpl.Mangler.MangleWrapped | compiler/src/core/mangler.cc:110-126 | appends the tag and then the wrapped type's encoding |
| ManglingImpl.Mangler.MangleNamed | compiler/src/core/mangler.cc:173-203 | appends a named type's encoding, substituted |
| ManglingImpl.Mangler.MangleFnPointer | compiler/src/core/mangler.cc:181-191 | appends "FN", the arguments, "E" and the return type |
| ManglingImpl.Mangler.MangleArray | compiler/src/core/mangler.cc:221-225 | appends "A", the element type, the size and "_" |
| ManglingImpl.Mangler.SubstituteFrom | compiler/src/core/mangler.cc:236-249 | replaces the encoding written from the start index by its substitution, or registers it |
| ManglingImpl.Mangler.MangleAll | compiler/src/core/mangler.cc:62-64 | the argument loop appends the list's encodings, threading the table |
| ManglingImpl.Mangler.HasThrows | compiler/src/core/mangler.cc:56-59 | the throws flag is set exactly when a throws attribute is present |
| ManglingImpl.Mangler.MangleFn | compiler/src/core/mangler.cc:44-75 | returns the function's symbol, or the runtime's entry name for main |
| ManglingImpl.Mangler.MangleConstant | compiler/src/core/mangler.cc:102-108 | returns the constant's symbol |
| ManglingImpl.Mangler.MangleDecl | compiler/src/core/mangler.cc:32-108 | returns Symbol for every declaration the mangler accepts |
| ManglingImpl.Demangler.constructor | compiler/src/core/mangler.cc:300 | the cursor starts after the "_G" prefix |
| ManglingImpl.Demangler.Digits | compiler/src/core/mangler.cc:477-485 | moves past the digits and returns their value, as ParseDigits |
| ManglingImpl.Demangler.PartWithLen | compiler/src/core/mangler.cc:467-475 | appends the piece ParsePart reads and moves past it |
| ManglingImpl.Demangler.ModulePart | compiler/src/core/mangler.cc:330-335 | appends the parts ParseModulePart reads, each with "::" |
| ManglingImpl.Demangler.Type | compiler/src/core/mangler.cc:372-465 | appends what ParseType reads and records the same substitutions |
| ManglingImpl.Demangler.Wrapped | compiler/src/core/mangler.cc:393-424 | appends the text before, the wrapped type and the text after |
| ManglingImpl.Demangler.Array | compiler/src/core/mangler.cc:409-414 | appends the array text as ParseArray reads it |
| ManglingImpl.Demangler.FnPointer | compiler/src/core/mangler.cc:425-443 | appends the function pointer text as ParseFnPointer reads it |
| ManglingImpl.Demangler.Substitution | compiler/src/core/mangler.cc:444-447 | appends the recorded text under the index |
| ManglingImpl.Demangler.Named | compiler/src/core/mangler.cc:448-462 | appends the named type's text, "dyn " in front of a dyn type, and records it |
| ManglingImpl.Demangler.Function | compiler/src/core/mangler.cc:337-358 | returns what ParseFunction reads, "fn " in front |
| ManglingImpl.Demangler.Constant | compiler/src/core/mangler.cc:360-370 | returns what ParseConstant reads, "const " in front |
| ManglingImpl.Demangler.Demangle | compiler/src/core/mangler.cc:302-328 | returns Demangled of the input, and fails exactly where that is undefined |
| ManglingImpl.Demangler.ArgList | compiler/src/core/mangler.cc:345-352 | appends the arguments as ParseArgs reads them |
| ManglingImpl.Mangle | compiler/src/core/mangler.cc:495-497 | gal::mangle returns Symbol |
| ManglingImpl.Demangle | compiler/src/core/mangler.cc:499-502 | gal::demangle returns Demangled, failing where the source's behaviour is undefined |
| Diagnostics.ZeroFill | compiler/src/errors/diagnostics.cc:57 | zero padding left-pads a digit string to at least the requested width |
| Diagnostics.ZeroFillDigits | compiler/src/errors/diagnostics.cc:57 | zero padding keeps every character a digit and keeps the value |
| Diagnostics.Dec4Decodes | compiler/src/errors/diagnostics.cc:57 | a non-negative code is written in digits that read back as the code |
| Diagnostics.Dec4Width | compiler/src/errors/diagnostics.cc:57 | codes below 10000 take exactly four characters |
| Diagnostics.HeaderCarriesCode | compiler/src/errors/diagnostics.cc:71-87 | an error or warning header is the kind's word, " [E#", four digits that read back as the code and "] "; a note header is "note " |
| Diagnostics.UnderlineWith | compiler/src/errors/diagnostics.cc:107-116 | each underline style's text, with a squiggly arrow needing a positive length |
| Diagnostics.UnderlineShape | compiler/src/errors/diagnostics.cc:107-116 | squiggles, dashes or carets all along, or an arrow head then squiggles; every underline but the straight arrow is exactly as long as the span |
| Diagnostics.Substr | compiler/src/errors/diagnostics.cc:122-127 | string_view::substr: the characters from pos, at most count of them, failing when pos is past the end |
| Diagnostics.BreakUpReassembles | compiler/src/errors/diagnostics.cc:122-127 | break_up succeeds exactly when the span ends within the line, and the three pieces put together give the line back |
| Diagnostics.LinesAsWritten | compiler/src/errors/diagnostics.cc:28-48 | break_into_lines as written splits at every '\r' and every '\n', so no piece holds a break character |
| Diagnostics.CrlfShiftsLines | compiler/src/errors/diagnostics.cc:36-44 | a Windows line ending counts as two breaks: the second line of "a\r\nb" comes out empty |
| Diagnostics.Lines | compiler/src/errors/diagnostics.cc:28-48 | the corrected split gives one piece per source line whatever the line ending |
| Diagnostics.LinesIgnoreLineEndings | compiler/src/errors/diagnostics.cc:36-44 | the same text with Unix or Windows line endings splits into the same lines; without '\r' the corrected split is the written one |
| Diagnostics.CrlfSpanUnrenderable | compiler/src/errors/diagnostics.cc:199-201 | a span at line 2, column 1 of "a\r\nb" fits the line the corrected split gives, but not the empty piece the written split gives, so it cannot be drawn |
| Diagnostics.LinesHoldNoBreaks | compiler/src/errors/diagnostics.cc:36-44 | no line of the corrected split holds a line-break character |
| Diagnostics.CheckerCodesHaveNoInfo | compiler/src/errors/diagnostics.cc:290-388 | codes the type checker and name resolver report (27, 51) have no entry, so building their diagnostic fails the lookup |
| Diagnostics.PointOutPart | compiler/src/errors/diagnostics.cc:409-415 | a note is pointed out with a straight underline and everything else with a squiggly one |
| Diagnostics.NewDiagnostic | compiler/src/errors/diagnostics.cc:267-273 | a diagnostic's parts are the given ones followed by a note carrying the code's explanation |
| Diagnostics.FirstOf | compiler/src/errors/diagnostics.cc:155-157 | std::find_if: the first span of the kind, no span of that kind before it, or none when the list has no such span |
| Diagnostics.ImportantIndex | compiler/src/errors/diagnostics.cc:154-169 | the important span is the first error, else the first warning, else the first span |
| Diagnostics.ImportantIndexChoice | compiler/src/errors/diagnostics.cc:154-169 | the important span is an error when one exists, else a warning when one exists, else the first span, and no span of its kind comes before it |
| Diagnostics.SortByPositionSorts | compiler/src/errors/diagnostics.cc:173-179 | the spans in position order are sorted by line, then column, and are a permutation of the input |
| Diagnostics.NewUnderlineList | compiler/src/errors/diagnostics.cc:145-180 | the constructor remembers the important location and holds the spans sorted and permuted |
| Diagnostics.LineNumberPadding | compiler/src/errors/diagnostics.cc:191-196 | the padding right-aligns the current line number under the widest one, and the blank is as wide as the widest |
| Diagnostics.EllipsisMarksGaps | compiler/src/errors/diagnostics.cc:206-209 | a "..." line is written exactly when the previous span is not on the line just above |
| Diagnostics.GutterAligned | compiler/src/errors/diagnostics.cc:191-228 | the padding and the line number together are as wide as the blank gutter on the other rows |
| Diagnostics.MaxLine | compiler/src/errors/diagnostics.cc:252-254 | the largest line number among the spans |
| Diagnostics.MaxLineUnique | compiler/src/errors/diagnostics.cc:252-254 | the largest line is the only number every line is at most and some line equals |
| Diagnostics.BuildUnderlines | compiler/src/errors/diagnostics.cc:250-265 | internal_build writes the file line and then each span's rows, as UnderlineText says |
| Diagnostics.PartTexts | compiler/src/errors/diagnostics.cc:282-284 | each part is drawn with one space of padding |
| Diagnostics.NoteText | compiler/src/errors/diagnostics.cc:282-284 | a note part is drawn as ` note ` followed by its message |
| Diagnostics.DiagnosticLayout | compiler/src/errors/diagnostics.cc:267-287 | a built diagnostic is the error header for its code with the one-liner, a newline, the given parts' lines, and last the explanation note |
| Diagnostics.ConsoleReporter.constructor | compiler/src/errors/console_reporter.cc:18-20 | a new reporter has written nothing and counted nothing |
| Diagnostics.ConsoleReporter.Report | compiler/src/errors/console_reporter.cc:22-26 | each report is counted, whatever its kind, and its text followed by a blank line is written |
| Diagnostics.ConsoleReporter.ReportEmplace | compiler/src/errors/reporter.cc:20-23 | report_emplace builds the diagnostic from code and parts, then reports it |
| LegacyDiagnostics.Swap | compiler/src/core/error_reporting.cc:168 | std::swap exchanges two entries and keeps the rest, a permutation |
| LegacyDiagnostics.NewUnderlineList | compiler/src/core/error_reporting.cc:144-169 | the older constructor swaps the important span with the front one instead of sorting |
| LegacyDiagnostics.SwapPutsImportantFirst | compiler/src/core/error_reporting.cc:144-169 | after construction the front span is the important one, and every other span but the one swapped keeps its place |
| LegacyDiagnostics.SwapDoesNotSort | compiler/src/core/error_reporting.cc:168 | the older list is not in position order: a later error moves in front of an earlier note |
| LegacyDiagnostics.BuildUnderlines | compiler/src/core/error_reporting.cc:171-215 | internal_build writes the file line and then each span, as UnderlineText says |
| LegacyDiagnostics.AppendSpans | compiler/src/core/error_reporting.cc:171-215 | the loop appends every span in order after what the builder already holds |
| LegacyDiagnostics.BuiltListNamesImportantSpan | compiler/src/core/error_reporting.cc:171-215 | a built list opens with the file line of the important span |
| LegacyDiagnostics.Info | compiler/src/core/error_reporting.cc:239-251 | only codes 1 to 5 have an entry, each an error, equal to the newer table's |
| LegacyDiagnostics.EnvironmentCodesUnknown | compiler/src/core/error_reporting.cc:239-251 | codes 6, 8 and 9 have no entry in the older table although the newer one has them |
| LegacyDiagnostics.MessagesRenderAlike | compiler/src/core/error_reporting.cc:225-258 | on message-only diagnostics the older renderer prints what the newer one builds, followed by a blank line |
| Environments.Reporter.constructor | compiler/src/errors/console_reporter.cc:18-20 | a fresh reporter has recorded nothing |
| Environments.Reporter.ReportEmplace | compiler/src/errors/reporter.cc:20-23 | a report appends exactly one (code, spans) record |
| Environments.ScopeAdd | compiler/src/core/environment.cc:169-185 | the binding is emplaced, so a name already bound keeps its first binding; the result is true iff the name was new; a rebinding reports code 8 pointing at both bindings, a new name reports nothing |
| Environments.InnermostFinds | compiler/src/core/environment.cc:191-199 | a lookup finds nothing iff no scope binds the name, and otherwise finds the binding of the innermost scope that binds it |
| Environments.InnermostShadows | compiler/src/core/environment.cc:191-199 | a new innermost scope shadows outer bindings for the names it binds and leaves every other lookup unchanged |
| Environments.Environment.constructor | compiler/src/core/environment.cc:233 | a new environment has no scopes and keeps its reporter |
| Environments.Environment.Get | compiler/src/core/environment.cc:191-199 | the binding from the innermost scope that has the name, or none |
| Environments.Environment.Contains | compiler/src/core/environment.cc:201-205 | true iff some scope binds the name, i.e. iff get finds it |
| Environments.Environment.Add | compiler/src/core/environment.cc:207-211 | needs a scope; only the innermost scope changes, by the emplace of Scope::add, with its code-8 report |
| Environments.Environment.Push | compiler/src/core/environment.cc:213-215 | the scope is appended as the new innermost one |
| Environments.Environment.Pop | compiler/src/core/environment.cc:217-219 | the innermost scope is removed and the others are unchanged |
| Environments.Environment.EnterScope | compiler/src/core/environment.cc:221-223 | exactly one empty scope is pushed |
| Environments.Environment.LeaveScope | compiler/src/core/environment.cc:225-227 | the last scope is popped and the others are unchanged |
| Environments.FirstConflict | compiler/src/core/environment.cc:90-102 | the index of the first overload whose argument list equals the new one, none iff no overload's does |
| Environments.AddOverload | compiler/src/core/environment.cc:114-126 | the overload is appended after the existing ones, and a set without equal argument lists stays so |
| Environments.EntityInsertOutcome | compiler/src/core/environment.cc:71-81 | a duplicate entity name keeps the first declaration and reports code 6 once; a new name is bound and reports nothing |
| Environments.OverloadInsertOutcome | compiler/src/core/environment.cc:83-105 | an overload with an argument list equal to an existing one's is not added and reports code 9; otherwise it is appended silently |
| Environments.VisitedKeeps | compiler/src/core/environment.cc:34-66 | visiting one declaration keeps every overload set non-empty and distinct, keeps every first declaration and earlier overload, and binds exactly the names the declaration declares |
| Environments.VisitedAllKeeps | compiler/src/core/environment.cc:19-24 | visiting a list of declarations keeps the table valid and binds exactly the names they declare |
| Environments.VisitedOverloadKeeps | compiler/src/core/environment.cc:34-56 | visiting a function or an external function keeps the table valid, keeps every first declaration and earlier overload, and binds its own name in addition to those bound before |
| Environments.VisitedEntityKeeps | compiler/src/core/environment.cc:38-66 | visiting a struct, type alias or constant keeps the table valid, keeps every first declaration and earlier overload, and binds its own name in addition to those bound before |
| Environments.EntityKeeps | compiler/src/core/environment.cc:71-81 | inserting an entity keeps the table valid and earlier bindings, and adds only its name |
| Environments.OverloadKeeps | compiler/src/core/environment.cc:83-105 | inserting an overload keeps every set non-empty and distinct, only appends, and adds only its name |
| Environments.SymbolTableBuilder.constructor | compiler/src/core/environment.cc:19-24 | the table is what visiting the program's declarations in order yields; it is valid and binds exactly the declared names |
| Environments.SymbolTableBuilder.VisitEach | compiler/src/core/environment.cc:58-62 | each declaration of the block is visited in order |
| Environments.SymbolTableBuilder.Visit | compiler/src/core/environment.cc:26-66 | the visitor's dispatch: fns and external fns become overloads, structs, type aliases and constants become entities, external blocks are entered, the rest is skipped |
| Environments.SymbolTableBuilder.InsertEntity | compiler/src/core/environment.cc:71-81 | the table after inserting one entity |
| Environments.SymbolTableBuilder.InsertOverload | compiler/src/core/environment.cc:83-105 | the overloads are checked in order and the new one appended when none clashes |
| Environments.GlobalEnvironment.constructor | compiler/src/core/environment.cc:128-133 | the environment holds the built table; contains_any holds iff the program declares the name; every overload set is non-empty and distinct |
| VariableResolvers.VariableResolver.constructor | compiler/src/core/backend/variable_resolver.cc:15-17 | a new resolver has no scopes |
| VariableResolvers.VariableResolver.Get | compiler/src/core/backend/variable_resolver.cc:19-29 | requires a binding somewhere (the source asserts otherwise) and returns the innermost one |
| VariableResolvers.VariableResolver.Set | compiler/src/core/backend/variable_resolver.cc:31-40 | requires a scope; only the innermost scope changes, by an emplace that keeps an existing binding |
| VariableResolvers.VariableResolver.EnterScope | compiler/src/core/backend/variable_resolver.cc:42-44 | one empty scope is pushed |
| VariableResolvers.VariableResolver.LeaveScope | compiler/src/core/backend/variable_resolver.cc:46-56 | the innermost scope is popped and the outer ones are unchanged |
| VariableResolvers.SetInFreshScope | compiler/src/core/backend/variable_resolver.cc:31-56 | a value set in a fresh scope is what get finds, and leaving the scope restores the outer scopes exactly |
| VariableResolvers.SetKeepsFirst | compiler/src/core/backend/variable_resolver.cc:38 | a second set of a name in the same scope does not change what get finds |
| Pretty.WidthText | compiler/src/utility/pretty.cc:763-774 | an integral type with an encodable width prints as the demangler names it, `i`/`u` then the width or `size` |
| Pretty.TypeStringMatchesDemangler | compiler/src/utility/pretty.cc:735-800 | every type built from builtins, references, slices, pointers and arrays prints exactly as the demangler renders it |
| Pretty.FnPointerSpacing | compiler/src/utility/pretty.cc:803-809 | a fn pointer prints as `fn () -> void` where the demangler writes `fn() -> void` |
| Pretty.UnaryOpRoundTrip | compiler/src/utility/pretty.cc:841-851 | unary_op_string gives each operator a spelling of its own, which reads back as that operator |
| Pretty.BinaryOpRoundTrip | compiler/src/utility/pretty.cc:853-887 | binary_op_string is total and gives each operator a spelling of its own, which reads back as that operator |
| Pretty.ASTPrinter.constructor | compiler/src/utility/pretty.cc:28-30 | printing starts with empty padding and empty output |
| Pretty.ASTPrinter.WriteToPadding | compiler/src/utility/pretty.cc:551-555 | the message is appended to the padding and its length kept; the output is unchanged |
| Pretty.ASTPrinter.ReleasePadding | compiler/src/utility/pretty.cc:557-561 | the padding is cut back by the kept length; the output is unchanged |
| Pretty.ASTPrinter.PrintListInternal | compiler/src/utility/pretty.cc:686-709 | `[ ]` for an empty list, else a line break and one entry per item indexed from 0, the last with `└─` and the others with `├─`; the padding ends as it began |
| Pretty.ASTPrinter.PrintEntry | compiler/src/utility/pretty.cc:694-708 | one entry: padding, branch and index, then the item under the padding grown by the entry's message, which is released afterwards |
| Typing.PredicateLaws | compiler/src/core/typechecker.cc:1310-1332 | integral implies arithmetic, boolean excludes arithmetic, the error type satisfies neither, and arithmetic holds exactly for builtin integers, byte, unsized literals and floats |
| Typing.MutLaws | compiler/src/core/typechecker.cc:1340-1371 | an error-typed expression is an lvalue and `mut`; without a view type only a `mut` local is `mut`; globals and string literals are lvalues that are never `mut` |
| Typing.AccessedType | compiler/src/core/typechecker.cc:518-536 | the result is a strict part of a pointer, reference or indirection, and the type itself for any other kind |
| Typing.ConvertibleSources | compiler/src/core/typechecker.cc:1226-1253 | only indirections, references, unsized literals and nil convert; a shared array reference never converts into a `mut` slice; a literal always converts to a builtin integer or byte |
| Typing.SignTakesOneBit | compiler/src/core/typechecker.cc:1163-1173 | an unsigned integer's value bits are its width (the pointer width when native) and a signed one's are one fewer |
| Typing.WidePowerWraps | compiler/src/utility/misc.h:131-150 | 2^b computed in 64 bits is 0 for b of 64 or more |
| Typing.NarrowPowerExact | compiler/src/utility/misc.h:131-150 | 2^b computed in 64 bits is exact below 64 |
| Typing.FitAcceptsPowerOfTwo | compiler/src/core/typechecker.cc:1261 | as written, a literal equal to 2^bits passes the fit test, though it exceeds the maximum 2^bits-1 that the diagnostic states |
| Typing.FitAcceptsU8Of256 | compiler/src/core/typechecker.cc:1261 | as written, 256 passes into `u8` and 128 into `i8`; both are too big |
| Typing.FitRejectsEveryWideLiteral | compiler/src/core/typechecker.cc:1261 | as written, with 64 or more value bits the power wraps to 0 and every literal from 1 up is rejected |
| Typing.FitRejectsOneForU64 | compiler/src/core/typechecker.cc:1261 | as written, the literal 1 is rejected for `u64` although it fits |
| Typing.FitAgreesOffTheBoundary | compiler/src/core/typechecker.cc:1261 | below 64 value bits and away from 2^bits, the test as written and the intended test give the same answer |
| Typing.FitsIffBinaryLength | compiler/src/core/typechecker.cc:1268-1271 | the intended test: a literal fits exactly when its binary numeral has at most the type's value bits |
| Typing.ImplicitConvert | compiler/src/core/typechecker.cc:1255-1290 | the conversion fails, with code 32 and the expression unchanged, exactly when a literal is too big for an integer target; otherwise the result has the expected type (copied with the corrected clone) and nothing is reported |
| Typing.ImplicitConvertAsWritten | compiler/src/core/typechecker.cc:1255-1290 | with the written fit test, a failed conversion leaves the expression unchanged and reports 32 |
| Typing.ImplicitConvertAgreesOffTheBoundary | compiler/src/core/typechecker.cc:1261 | below 64 value bits and for every literal other than 2^bits, and for every conversion that fits no literal, the written conversion is the intended one |
| Typing.ImplicitConvertAsWrittenAcceptsPowerOfTwo | compiler/src/core/typechecker.cc:1261 | as written, the literal 2^bits converts to a type of fewer than 64 value bits, which the intended test rejects with 32 |
| Typing.ImplicitConvertAsWrittenRejectsWide | compiler/src/core/typechecker.cc:1261 | as written, a type of 64 or more value bits rejects with 32 every literal from 1 up that fits it, which the intended test accepts |
| Typing.DynTargetsKeepTheirKind | compiler/src/core/typechecker.cc:1284-1287 | the conversions type nil converted to `*const dyn Foo` as that type and a load through an indirection to `dyn Foo` as `dyn Foo`; the written clone of those types is `*const Foo` and `Foo`, which are not equal to them |
| Typing.TryMakeCompatible | compiler/src/core/typechecker.cc:1292-1302 | success iff the types are identical or convertible without a fit failure; identical types are left alone, converted ones get the expected type (copied with the corrected clone); on failure the expression is unchanged; only code 32 is ever reported |
| Typing.CompatibleIsIdempotent | compiler/src/core/typechecker.cc:1292-1302 | a second attempt after a successful one changes nothing and reports nothing |
| Typing.ErrorIsCompatible | compiler/src/core/typechecker.cc:1292-1295 | an expression or target of error type is compatible as it stands, since error equals every type |
| Typing.ConvertIntermediate | compiler/src/core/typechecker.cc:1662-1672 | only a literal too big for `i64` fails, reporting 32 and leaving the expression unchanged |
| Typing.IntermediateDefaults | compiler/src/core/typechecker.cc:1662-1672 | an indirection loads its produced type (copied with the corrected clone), nil becomes `*const byte`, a literal becomes `i64` iff it fits, and any other expression is untouched |
| Typing.CheckIdentical | compiler/src/core/typechecker.cc:1412-1437 | a failure reports 40 last and leaves both operands alone; a success reports at most fit errors |
| Typing.IntermediateKeepsAgreement | compiler/src/core/typechecker.cc:1433-1434 | operands of equal types still have equal types after convert_intermediate, unless a literal did not fit |
| Typing.IntermediateIsAFunctionOfTheType | compiler/src/core/typechecker.cc:1662-1672 | what convert_intermediate gives depends only on the operand's type |
| Typing.CheckIdenticalAgrees | compiler/src/core/typechecker.cc:1412-1437 | after check_identical succeeds without fit errors, the two operands have equal types |
| Typing.BinaryResultTypes | compiler/src/core/typechecker.cc:718-822 | arithmetic and bitwise operators need both sides arithmetic (integral) and yield the left operand's converted type; comparisons need arithmetic and yield bool; equality yields bool; logical operators need booleans and yield bool; assignments yield void; every failure yields the error type with a code |
| Typing.AssignmentRules | compiler/src/core/typechecker.cc:793-822 | an assignment yields void; it reports 42 iff the left side is not an lvalue, 49 iff it is not `mut`, and 50 iff the right side cannot be made compatible with the accessed type, which it otherwise matches |
| Typing.Callable | compiler/src/core/typechecker.cc:1562-1581 | the loop makes each argument compatible in place against its parameter and fails if any fails or the counts differ, exactly as the specification function says |
| Typing.PartlyConverted | compiler/src/core/typechecker.cc:1562-1581 | part-way through the loop of callable the arguments before the cursor are converted and those after it are as given |
| Typing.CallableMeansIdentical | compiler/src/core/typechecker.cc:1562-1581 | when callable succeeds every argument has its parameter's type (copied with the corrected clone) and nothing was reported |
| Typing.ReportAmbiguous | compiler/src/core/typechecker.cc:1583-1599 | the loop runs callable over every overload, converting the arguments as it goes, then reports 27 |
| Typing.SelectOverload | compiler/src/core/typechecker.cc:1621-1646 | the loop over the overloads agrees with the specification of select_overload, including the argument rewrites every callable attempt leaves behind |
| Typing.FirstCallableFrom | compiler/src/core/typechecker.cc:1628-1637 | the first overload from a given index on that is callable with the arguments as given, none iff there is none |
| Typing.FirstCallable | compiler/src/core/typechecker.cc:1628-1637 | the first callable overload, none iff none is callable |
| Typing.SelectFixed | compiler/src/core/typechecker.cc:1621-1646 | intended selection: the first callable overload is chosen; 51 is reported last iff none is callable and 27 iff two are; the chosen overload's parameters match the converted arguments |
| Typing.SelectFromSettled | compiler/src/core/typechecker.cc:1628-1643 | on arguments that no callable attempt changes, the loop from any point keeps them and chooses the first callable overload, with 51 and 27 in the intended cases |
| Typing.SelectAgreesWhenSettled | compiler/src/core/typechecker.cc:1621-1646 | on such arguments the selection as written chooses what the intended selection chooses and reports 27 and 51 in the same cases |
| Typing.ConversionHidesOverload | compiler/src/core/typechecker.cc:1562-1581 | as written, with `f(i8, bool)` declared before `f(i64, i64)`, the call `f(5, 5)` finds no overload (51): the failed first candidate narrowed the first literal to `i8`; the intended selection picks the second |
| NameResolution.Annotate | compiler/src/core/name_resolver.cc:117-131 | a struct or class entity gets the user-defined type named by its own qualified id, a type alias a clone of the aliased type; name and declaration are kept, and every other entity is left as it was |
| NameResolution.AnnotateIdempotent | compiler/src/core/name_resolver.cc:117-131 | annotating an entity twice is annotating it once |
| NameResolution.VisitedUnannotated | compiler/src/core/environment.cc:34-66 | visiting one declaration adds only untyped entities, each under its own name |
| NameResolution.VisitedAllUnannotated | compiler/src/core/environment.cc:19-24 | the table a program builds holds each entity under its own name, untyped, and only for entity declarations |
| NameResolution.NameResolver.constructor | compiler/src/core/name_resolver.cc:159-169 | the root table is the one the program's declarations build, with every entity annotated in module `::`; the block scopes start empty |
| NameResolution.NameResolver.QualifiedFor | compiler/src/core/name_resolver.cc:236-272 | an id in module `::` comes back exactly when the root table holds an entity or an overload set of that name |
| NameResolution.NameResolver.TypeOf | compiler/src/core/name_resolver.cc:186-196 | the type annotated on the entity; on a built resolver it is present exactly for entities that are not constants |
| NameResolution.NameResolver.StructType | compiler/src/core/name_resolver.cc:198-205 | the declaration, present exactly when the entity is a struct |
| NameResolution.NameResolver.Constant | compiler/src/core/name_resolver.cc:207-214 | the declaration, present exactly when the entity is a constant |
| NameResolution.NameResolver.ResolveType | compiler/src/core/name_resolver.cc:28-60 | a name with a type is replaced by that type with nothing reported; a name bound to something without a type reports 10; an unknown name reports 14; a reported type is left in place |
| NameResolution.NameResolver.ResolveIdentifierAsWritten | compiler/src/core/name_resolver.cc:66-101 | as written: the same rewrite as the corrected visit, but a name of the wrong kind of entity reports 10 and then 11 as well |
| NameResolution.NameResolver.ResolveIdentifier | compiler/src/core/name_resolver.cc:66-101 | an unprefixed identifier becomes a local identifier of the same name; a prefixed one naming a constant or an overload set becomes a qualified identifier in `::`; another entity reports 10 only; an unknown name reports 11; a reported identifier is left in place |
| NameResolution.NameResolver.EnterScope | compiler/src/core/name_resolver.cc:216-218 | one empty block scope is pushed |
| NameResolution.NameResolver.LeaveScope | compiler/src/core/name_resolver.cc:220-222 | the innermost block scope is popped and the others are unchanged |
| NameResolution.NameResolver.ContainsLocal | compiler/src/core/name_resolver.cc:224-226 | true iff some block scope binds the name |
| NameResolution.NameResolver.AddLocal | compiler/src/core/name_resolver.cc:228-230 | only the innermost scope changes, by Scope::add's emplace and its code-8 report |
| NameResolution.NameResolver.Local | compiler/src/core/name_resolver.cc:232-234 | the binding from the innermost scope that binds the name, or none |
| NameResolution.LookupsByKind | compiler/src/core/name_resolver.cc:186-214 | on a built resolver a struct's type is the user-defined type of its own id and struct_type finds it, an alias's type is the aliased type, and exactly the constants have no type |
| NameResolution.ResolvedTypes | compiler/src/core/name_resolver.cc:28-36 | an unqualified type resolves on a built resolver exactly when it names a struct or an alias, and a struct's name resolves to the struct's own user-defined type |
| NameResolution.IdentifierOfTypeReportedTwice | compiler/src/core/name_resolver.cc:85-96 | a prefixed identifier naming a struct or alias and no overload set is reported as 10 then 11 as written, and as 10 alone when the visit returns after 10 |
| ConstantPools.IntegerOfWidth | compiler/src/core/backend/constant_pool.cc:389-399 | defined only for widths 1, 8, 16, 32, 64 and 128, and gives the integer type of exactly that width |
| ConstantPools.LiteralNamesGrow | compiler/src/core/backend/constant_pool.cc:180-189 | the n-th literal's name `.str.<n>` is not among the earlier ones, and the set of names grows by exactly that one |
| ConstantPools.LiteralNameInjective | compiler/src/core/backend/constant_pool.cc:180-189 | different counter values give different `.str.<n>` names |
| ConstantPools.ReplaceColons | compiler/src/core/backend/constant_pool.cc:318-333 | replacing `::` by `.` never lengthens the id |
| ConstantPools.ReplaceColonsLeavesNoPair | compiler/src/core/backend/constant_pool.cc:318-333 | no `::` is left after the replacement, and the result starts with a colon exactly when the id starts with a single one |
| ConstantPools.RootStructName | compiler/src/core/backend/constant_pool.cc:318-333 | a struct declared at the root, `::name`, gets the LLVM name `struct.name` |
| ConstantPools.StableSortBySizeSpec | compiler/src/core/backend/constant_pool.cc:222-238 | the field order is sorted ascending by allocation size, is a permutation of the declared fields, and keeps declaration order among fields of equal size |
| ConstantPools.FindIndex | compiler/src/core/backend/constant_pool.cc:212-220 | the position of the first occurrence of the name, or the list length when it is absent |
| ConstantPools.EqualTypesLowerAlike | compiler/src/core/backend/constant_pool.cc:273-375 | types that compare equal map to the same LLVM type |
| ConstantPools.Lowered | compiler/src/core/backend/constant_pool.cc:222-232 | each field becomes its mapped type paired with its name, in declaration order |
| ConstantPools.ConstantPool.constructor | compiler/src/core/backend/constant_pool.cc:173 | a new pool has empty caches and a string counter at 0 |
| ConstantPools.ConstantPool.StringLiteral | compiler/src/core/backend/constant_pool.cc:175-190 | data seen before gives the cached constant and changes nothing; new data gets a fresh global `.str.<n>` that is an i8 array of size len+1, the counter goes up by one and the data is cached; the literal names stay distinct |
| ConstantPools.CacheNewLiteral | compiler/src/core/backend/constant_pool.cc:175-190 | the name `.str.<n>` under the current counter is not yet a global, and caching new data under it keeps every cached literal pointing at its own global |
| ConstantPools.ConstantPool.StructFrom | compiler/src/core/backend/constant_pool.cc:252-265 | the named struct; an existing struct of that name is reused, otherwise it is created with the slots' types |
| ConstantPools.ConstantPool.SourceInfoType | compiler/src/core/backend/constant_pool.cc:401-410 | `__GalliumSourceInfo` is reused if it exists, otherwise created as {i8*, i64, i8*} |
| ConstantPools.ConstantPool.CreateUserTypeMapping | compiler/src/core/backend/constant_pool.cc:240-250 | the slot names are appended to the struct's stored field-name list in the sorted order; nothing else changes |
| ConstantPools.ConstantPool.MapType | compiler/src/core/backend/constant_pool.cc:192-194 | the result is the type's LLVM mapping for any declared type, self-referential structs included; the caches only grow, stay consistent, the structs being lowered stay the same, and a user type is cached afterwards (corrected visit, see Findings) |
| ConstantPools.ConstantPool.MapTypes | compiler/src/core/backend/constant_pool.cc:335-343 | each argument type is mapped in order to its LLVM mapping; the caches only grow and stay consistent (corrected visit, see Findings) |
| ConstantPools.ConstantPool.MapUserType | compiler/src/core/backend/constant_pool.cc:318-333 | a user-defined type maps to the named struct `struct` plus its id with `::` replaced by `.`, is cached under its qualified string, and a struct lowered for the first time gets its sorted field order recorded; a struct that mentions itself finds itself in the cache (corrected visit, see Findings) |
| ConstantPools.ConstantPool.CacheUserType | compiler/src/core/backend/constant_pool.cc:328 | the corrected visit caches the type as its named struct first; only that entry is added, and the type becomes pending |
| ConstantPools.ConstantPool.RecordStruct | compiler/src/core/backend/constant_pool.cc:326-330 | the struct is made or reused and the field order recorded; the type is no longer pending and the caches stay consistent |
| ConstantPools.ConstantPool.FromStructure | compiler/src/core/backend/constant_pool.cc:222-238 | the result is the mapped fields stably sorted ascending by allocation size; the caches only grow and stay consistent (corrected visit, see Findings) |
| ConstantPools.ConstantPool.FieldIndex | compiler/src/core/backend/constant_pool.cc:212-220 | for any declared struct type, the position of the name in its sorted field order, or the number of fields if absent; the caches stay consistent (corrected visit, see Findings) |
| ConstantPools.SelfReferenceRecursesAsWritten | compiler/src/core/backend/constant_pool.cc:318-333 | as written, visiting an uncached `struct Node { next: *Node }` next visits `Node` again before anything is cached |
| ConstantPools.LowerSelfReferential | compiler/src/core/backend/constant_pool.cc:318-333 | caching first, `Node` lowers to the named struct `struct.Node` with field order `["next"]` |
| ConstantPools.LiteralsDistinct | compiler/src/core/backend/constant_pool.cc:175-190 | different string data never share a constant |
| ConstantPools.FieldIndexFindsDeclaredFields | compiler/src/core/backend/constant_pool.cc:212-250 | the stored order has one entry per declared field, and field_index is in range exactly for declared field names |
| TestRunner.StripStart | compiler/tools/test_runner.py:35 | leading whitespace is removed, and only whitespace |
| TestRunner.StripEnd | compiler/tools/test_runner.py:35 | trailing whitespace is removed, and only whitespace |
| TestRunner.StripUnchanged | compiler/tools/test_runner.py:35 | a line with no whitespace at either end strips to itself |
| TestRunner.UpTo | compiler/tools/test_runner.py:36 | the text before the first occurrence of the separator, or all of it when there is none |
| TestRunner.SecondField | compiler/tools/test_runner.py:36 | `split(sep)[1]`: present exactly when the separator occurs, and then the text between its first and second occurrence |
| TestRunner.StripLines | compiler/tools/test_runner.py:35 | every line is stripped, and the line count is kept |
| TestRunner.ArgsFor | compiler/tools/test_runner.py:39-51 | `should-run` yields two arguments, `should-panic` and `should-assert` one, and any other type, `should-fail-compile` included, fails its assertion |
| TestRunner.ReadTest | compiler/tools/test_runner.py:33-53 | a test that reads has a known type, two arguments for `should-run` and one otherwise |
| TestRunner.ReadTestPrints | compiler/tools/test_runner.py:49-51 | at most one line is printed, only when read_test then fails its assertion, and never for a test that reads |
| TestRunner.ParseIntGrouped | compiler/tools/test_runner.py:60 | `int` of unsigned digits grouped by single underscores is the value of the digits without them |
| TestRunner.ParseIntAcceptsGrouping | compiler/tools/test_runner.py:60 | an underscore between two runs of digits leaves the value unchanged |
| TestRunner.ParseIntRejectsBadGrouping | compiler/tools/test_runner.py:60 | a doubled, trailing or leading underscore makes `int` raise ValueError |
| TestRunner.IntTextEnds | compiler/tools/test_runner.py:61 | a return code's decimal text has no surrounding whitespace and no slash |
| TestRunner.ParseIntText | compiler/tools/test_runner.py:60 | `int` reads back the decimal text of any return code |
| TestRunner.ShouldRunVerdict | compiler/tools/test_runner.py:56-65 | an unparsable code raises ValueError; a code mismatch gives the message naming both codes whatever the output; with a matching code the test passes iff the expected output is `none` or equals stdout, and fails otherwise with the message naming both outputs |
| TestRunner.ExtractNoQuote | compiler/tools/test_runner.py:72-75 | the extracted reason never contains a quote |
| TestRunner.ExtractFinds | compiler/tools/test_runner.py:66-75 | for any marker ending in a quote, a text that opens with the panic marker, holds no quote before the marker and then carries `<marker><msg>'` yields exactly msg |
| TestRunner.FindReasonRoundTrip | compiler/tools/test_runner.py:68-77 | as written, a panic report carrying `  message: '<msg>'` yields exactly msg |
| TestRunner.FindReasonMissesRuntimePanic | compiler/tools/test_runner.py:71 | as written, the report the runtime's panic handler prints, with `  reason: '<msg>'`, yields no reason at all |
| TestRunner.FindReasonFixedRoundTrip | compiler/tools/test_runner.py:68-77 | searching for `  reason: '` instead recovers the message of every runtime panic |
| TestRunner.PanicHeadNoQuote | runtime/src/panic.cc:16-17 | the first two lines of a panic report start with the panic marker and hold no quote when the file name holds none |
| TestRunner.ShouldPanicVerdict | compiler/tools/test_runner.py:80-90 | passes iff the reason found equals the expected one; no reason gives "expected a panic, but did not get one!", a different reason the message naming both |
| TestRunner.ShouldPanicFailsOnRuntimePanic | compiler/tools/test_runner.py:80-90 | as written, every should-panic test whose program does panic through the runtime fails with "expected a panic, but did not get one!" |
| TestRunner.Sanitize | compiler/tools/test_runner.py:95 | the artifact name has the path's length, no `/` or `\`, and every other character of the path in place |
| TestRunner.SanitizeNotInjective | compiler/tools/test_runner.py:95 | two different test paths can share one artifact name |
| TestRunner.ExecuteTest | compiler/tools/test_runner.py:93-110 | a type other than should-run or should-panic fails its assertion; compiler output that is not blank fails the test with "error from compiler!"; otherwise the verdict of the type's runner |
| TestRunner.FirstFieldAfter | compiler/tools/test_runner.py:36 | a marker followed by slash-free text splits to that text |
| TestRunner.ReadShouldRunHeader | compiler/tools/test_runner.py:33-53 | a well-formed should-run header reads as its type, code and expected output |
| TestRunner.ShouldRunHeaderPasses | compiler/tools/test_runner.py:93-103 | a should-run test whose program exits with the code and prints the expected output passes |
| TestRunner.EmptyExpectedOutputUnreadable | compiler/tools/test_runner.py:42 | a should-run header whose outputs line is empty after stripping raises IndexError, since the stripped line no longer contains the marker's trailing space |
| TestRunner.Discover | compiler/tools/test_runner.py:126-129 | a discovery that succeeds yields one well-formed test per file |
| TestRunner.DiscoverPrints | compiler/tools/test_runner.py:126-129 | at most one line; none for a discovery that succeeds, and a line only when discovery ends in the failed assertion |
| TestRunner.Collect | compiler/tools/test_runner.py:113-115 | the map keeps one result per test |
| TestRunner.RunAll | compiler/tools/test_runner.py:113-115 | the parallel map yields one result per test |
| TestRunner.ResultLines | compiler/tools/test_runner.py:133-140 | one pass/fail line per result |
| TestRunner.Failures | compiler/tools/test_runner.py:133-140 | every recorded failure indexes a result |
| TestRunner.FailureLines | compiler/tools/test_runner.py:142-147 | three lines per failure |
| TestRunner.ResultLinesInOrder | compiler/tools/test_runner.py:133-140 | line i reports test i, in discovery order |
| TestRunner.FailuresInOrder | compiler/tools/test_runner.py:133-140 | the failure list holds exactly the failed results, each with its reason, in ascending index order |
| TestRunner.Harness.constructor | compiler/tools/test_runner.py:118-123 | no temporary directory yet and nothing printed |
| TestRunner.Harness.Run | compiler/tools/test_runner.py:118-152 | an existing temporary directory raises FileExistsError before anything runs; otherwise the directory is removed on the normal path and on the exception path, and what is printed is the session's: the unknown-type line of a discovery that ended on one, or the result lines then the failure lines |
| TestRunner.Harness.Report | compiler/tools/test_runner.py:133-147 | the console gains the result lines in test order followed by the failure lines of exactly the failed tests, and the temporary directory is untouched |
| TestRunner.Harness.PrintResults | compiler/tools/test_runner.py:133-140 | prints the result lines in order and returns the failures |
| TestRunner.Harness.PrintFailures | compiler/tools/test_runner.py:142-147 | prints three lines per failure, in order |
| TestRunner.Harness.DiscoverTests | compiler/tools/test_runner.py:126-129 | the loop builds exactly the discovered test list, or stops at the first unreadable test, having printed what read_test printed for it |
| TestRunner.Harness.AppendTest | compiler/tools/test_runner.py:128-129 | one step of discovery extends the list by the next file's test, printing what read_test prints for it |
| TestRunner.Harness.ReadTestFile | compiler/tools/test_runner.py:33-53 | read_test's result, with its unknown-type line appended to the console |
| TestRunner.DiscoverPrintsStick | compiler/tools/test_runner.py:126-129 | after the first unreadable test, no later file prints anything |
| TestRunner.DiscoverAt | compiler/tools/test_runner.py:126-129 | test i is file i's path under the test root with the type and arguments read from it |
| TestRunner.CollectAt | compiler/tools/test_runner.py:113-115 | result i is test i's verdict |
| TestRunner.CollectFirstError | compiler/tools/test_runner.py:113-115 | a failed map carries the error of some test |
| TestRunner.RunAllAt | compiler/tools/test_runner.py:113-115 | result i is execute_test on test i |
| TestRunner.DiscoverErrorSticks | compiler/tools/test_runner.py:126-129 | an error reading an early test ends the whole discovery with that error |
| Parsing.SplitAtFirst | compiler/src/syntax/parser.cc:405-406 | splitting a name at its own first character gives an empty first piece and then the pieces of the rest |
| Parsing.WidthText | compiler/src/syntax/parser.cc:405-408 | the width text is the second piece of splitting the name at its first character |
| Parsing.BuiltinType | compiler/src/syntax/parser.cc:390-433 | `bool`, `byte`, `char` and `void` always give a type, and every type produced carries the given location |
| Parsing.BuiltinTypeWidths | compiler/src/syntax/parser.cc:403-432 | a name starting with `i`, `u` or `f` gives a type iff its width parses and is listed (8 to 128 for integers, 32/64/128 for floats); an integer is signed iff the prefix is `i`, with that width; a float has that width |
| Parsing.WidthOfSpelled | compiler/src/syntax/parser.cc:406-408 | a prefix followed by the decimal digits of a 64-bit width parses back to that width |
| Parsing.IntegralRoundTrip | compiler/src/syntax/parser.cc:426-430 | the printed name of every integer type with a listed width parses back to that type |
| Parsing.IntegralSpelledParses | compiler/src/syntax/parser.cc:403-432 | `i` or `u` followed by the decimal spelling of a listed width is a builtin name, and it parses to the integral type of that signedness and width |
| Parsing.FloatRoundTrip | compiler/src/syntax/parser.cc:414-424 | the printed name of every float type parses back to that type |
| Parsing.BuiltinTypeRoundTrip | compiler/src/syntax/parser.cc:390-433 | every builtin type with a spelling prints to a builtin name that parses back to the same type |
| Parsing.NonDigitWidth | compiler/src/syntax/parser.cc:408-412 | a width that does not start with a digit does not parse |
| Parsing.UnlistedWidthRejected | compiler/src/syntax/parser.cc:414-432 | a prefix followed by an unlisted width, such as `i7`, is a builtin spelling that gives no type |
| Parsing.NativeWidthsRejected | compiler/src/syntax/parser.cc:406-412 | `isize` and `usize` do not parse as builtin types |
| Parsing.UnqualIdAsWritten | compiler/src/syntax/parser.cc:368-379 | the first identifier is the name and the rest, in order, are the module parts of an always-present prefix, from the root iff `isRoot` |
| Parsing.UnqualId | compiler/src/syntax/parser.cc:368-379 | the same split, with no prefix exactly when a lone name is not from the root |
| Parsing.LoneNameKeepsEmptyPrefix | compiler/src/syntax/parser.cc:368-379 | as written, a lone name outside the root gets an empty prefix, which name resolution does not accept; the corrected id has none, and the two agree everywhere else |
| Parsing.FnAttribute | compiler/src/syntax/parser.cc:162-185 | read on the attribute's own text (the corrected reading, see Findings): any text holding `__arch` is the arch attribute carrying the string literal; any other text gives an attribute iff the table has it, with no arguments; the stdlib attribute is never produced |
| Parsing.FnAttributeAsWrittenAlwaysFails | compiler/src/syntax/parser.cc:165-184 | as written the visitor inspects the context's `toString()`, bracketed invoking-state numbers, which never holds an underscore: no attribute is ever recognised and the lookup throws for every input |
| Parsing.TableAvoidsArch | compiler/src/syntax/parser.cc:171-181 | no name in the table holds `__arch`, so the arch check never hides a table entry |
| Parsing.AttributeSpellingRoundTrip | compiler/src/syntax/parser.cc:162-185 | each kind a programmer can write comes from its own spelling, and the table maps each spelling to the kind it spells |
| Parsing.ReturnSlots.constructor | compiler/src/syntax/parser.cc:500-504 | every slot starts empty and there are no diagnostics |
| Parsing.ReturnSlots.ReturnType | compiler/src/syntax/parser.cc:453-457 | the type is stored in the type slot; nothing else changes |
| Parsing.ReturnSlots.ErrorExpression | compiler/src/syntax/parser.cc:488-492 | the diagnostic is recorded and the error expression stored in the expression slot |
| Parsing.ReturnSlots.ErrorType | compiler/src/syntax/parser.cc:482-486 | the diagnostic is recorded and the error type stored in the type slot |
| Parsing.ReturnSlots.TakeType | compiler/src/syntax/parser.cc:459-472 | the caller gets the type slot's content and the slot is left empty |
| Parsing.ReturnSlots.ParseBuiltinAsWritten | compiler/src/syntax/parser.cc:390-433 | as written, a name that gives a type stores it; any other stores the error expression and records code 1, leaving the type slot as it was |
| Parsing.ReturnSlots.ParseBuiltin | compiler/src/syntax/parser.cc:390-433 | corrected: the type slot receives the type, or the error type with code 1 recorded |
| Parsing.VisitBuiltinAsWritten | compiler/src/syntax/parser.cc:320-333 | as written, the caller gets no type at all for a rejected builtin name, and code 1 |
| Parsing.VisitBuiltin | compiler/src/syntax/parser.cc:320-333 | corrected: the caller always gets a type, the error type with code 1 for a rejected name |
| Predefined.Builtin | compiler/src/core/predefined.cc:74-89 | an injected, unexported external function at the nonexistent location with no receiver, named as asked; omitted arguments and attributes default to none and the return type to void |
| Predefined.ArgNamesDistinct | compiler/src/core/predefined.cc:185-187 | the numbered argument names `__1`, `__2`, ... never repeat |
| Predefined.NumberArguments | compiler/src/core/predefined.cc:182-187 | the loop numbers every argument type, one argument per type, in order |
| Predefined.StdlibBuiltin | compiler/src/core/predefined.cc:179-204 | an injected, unexported, non-external function returning void, with the `builtin_stdlib` attribute, the given body, and argument i named `__(i+1)` of the i-th given type |
| Predefined.CreateStdlibBuiltin | compiler/src/core/predefined.cc:179-204 | builds exactly the declaration StdlibBuiltin describes |
| Predefined.CreateRuntimeFn | compiler/src/core/predefined.cc:222-232 | builds the external with numbered arguments and default attributes and return type |
| Predefined.BlockOf | compiler/src/core/predefined.cc:167-177 | one block holding each expression as an expression statement, in order |
| Predefined.CreatePrintln | compiler/src/core/predefined.cc:211-220 | builds the one- or two-argument `println` declaration |
| Predefined.PrintlnForwardsItsArguments | compiler/src/core/predefined.cc:211-220 | the body of `println` is two statements: `print` of exactly its own parameters in order, then `print` of a newline character |
| Predefined.Prints | compiler/src/core/predefined.cc:266-376 | register_io adds thirteen `print` overloads |
| Predefined.Printlns | compiler/src/core/predefined.cc:378-415 | register_io adds thirteen `println` overloads |
| Predefined.PrintCallees | compiler/src/core/predefined.cc:266-376 | every `print` body calls only the runtime's printing functions, the string builtins and `print` itself |
| Predefined.PrintlnCallees | compiler/src/core/predefined.cc:211-220 | every `println` body calls `print` and nothing else |
| Predefined.PrintDeclCallees | compiler/src/core/predefined.cc:266-376 | whatever `print` declaration is picked from the injected ones, it is a function whose body calls only runtime functions, string builtins and `print` |
| Predefined.PrintlnDeclCallees | compiler/src/core/predefined.cc:378-415 | whatever `println` declaration is picked from the injected ones, it is a function whose body calls `print` and nothing else |
| Predefined.RuntimeFnsDeclare | compiler/src/core/predefined.cc:234-264 | an external block of runtime functions made from a signature list declares the name of every signature in it |
| Predefined.FfiDeclared | compiler/src/core/predefined.cc:234-264 | the FFI block declares all six runtime printing functions |
| Predefined.BuiltinsDeclared | compiler/src/core/predefined.cc:91-119 | the builtins block declares `__builtin_string_ptr` and `__builtin_string_len` |
| Predefined.PredefinedDeclares | compiler/src/core/predefined.cc:419-423 | after register_predefined every runtime printing function, both string builtins and `print` are declared |
| Predefined.PredefinedCallsResolve | compiler/src/core/predefined.cc:419-423 | the injected declarations are closed: each function an injected `print` or `println` body calls is itself injected |
| Predefined.CheckBuiltin | compiler/src/core/predefined.cc:425-433 | no name is given a type: names without the `__builtin` prefix are rejected, and the rest are unwritten |
| Predefined.Program.constructor | compiler/src/core/predefined.cc:419 | the program starts with the given declarations |
| Predefined.Program.AddDecl | compiler/src/core/predefined.cc:118 | add_decl appends one declaration and keeps the others |
| Predefined.Program.RegisterBuiltins | compiler/src/core/predefined.cc:91-119 | appends the one external block of builtins |
| Predefined.Program.RegisterIoFfi | compiler/src/core/predefined.cc:234-264 | appends one external block holding the six runtime functions in source order |
| Predefined.Program.AddPrint | compiler/src/core/predefined.cc:266-376 | one block of register_io appends the next `print` overload |
| Predefined.Program.AddPrintln | compiler/src/core/predefined.cc:378-415 | one line of register_io appends the next `println` overload |
| Predefined.Program.RegisterPrints | compiler/src/core/predefined.cc:266-376 | appends all thirteen `print` overloads in source order |
| Predefined.Program.RegisterPrintlns | compiler/src/core/predefined.cc:378-415 | appends all thirteen `println` overloads in source order |
| Predefined.Program.RegisterPredefined | compiler/src/core/predefined.cc:419-423 | appends the builtins, then the FFI block, then the `print` and `println` overloads, keeping what was there |
| Flags.ParseOpt | compiler/src/utility/flags.cc:39-58 | an accepted value is the spelling of the level returned; a rejected one gets the message listing the valid values |
| Flags.ParseEmit | compiler/src/utility/flags.cc:60-82 | an accepted value is the spelling of the format returned; a rejected one gets the message listing the valid values |
| Flags.OptRoundTrip | compiler/src/utility/flags.cc:39-58 | each level's spelling parses back to that level |
| Flags.OptAcceptsOnlySpellings | compiler/src/utility/flags.cc:39-58 | `--opt` accepts a value if and only if it spells some level |
| Flags.EmitRoundTrip | compiler/src/utility/flags.cc:60-82 | each format's spelling parses back to that format |
| Flags.EmitAcceptsOnlySpellings | compiler/src/utility/flags.cc:60-82 | `--emit` accepts a value if and only if it spells some format |
| Flags.DefaultsParse | compiler/src/utility/flags.cc:20-22 | the default flag values parse to no optimisation and an executable |
| Flags.GenerateConfig | compiler/src/utility/flags.cc:84-100 | a configuration comes out exactly when both lookups succeed, and then copies the flags and spells the chosen level and format; otherwise the program aborts after one or two messages |
| Flags.DefaultsConfigure | compiler/src/utility/flags.cc:84-100 | with every flag unset, the configuration is `main`, one job, no optimisation, an executable |
| Flags.ConfigCache.constructor | compiler/src/utility/flags.cc:123-127 | nothing is cached yet and nothing has been written |
| Flags.ConfigCache.Get | compiler/src/utility/flags.cc:123-127 | flags() returns the generated configuration; the first call caches it and writes its messages, a later call changes nothing |
| Flags.GetTwice | compiler/src/utility/flags.cc:123-127 | two successive calls agree, and once cached nothing more is written |
| Flags.DelegateFlagsAsWritten | compiler/src/utility/flags.cc:129-139 | LLVM receives the Intel dialect option exactly when the dialect is `intel` and assertions are compiled in |
| Flags.ReleaseDropsDialect | compiler/src/utility/flags.cc:137 | with NDEBUG defined the option is never handed on |
| Flags.DelegateFlags | compiler/src/utility/flags.cc:129-139 | the option vector `galliumc -x86-asm-syntax=intel` is handed on exactly when the dialect is `intel` |
| Flags.DelegateFlagsAgreeInDebug | compiler/src/utility/flags.cc:129-139 | with assertions compiled in, the corrected and as-written versions agree |
| Emission.FileName | compiler/src/core/emit.cc:26-51 | the file name is the `--out` name followed by the format's extension |
| Emission.ExeIsBareOutsideWindows | compiler/src/core/emit.cc:41-47 | outside Windows an executable's file name is the `--out` name itself |
| Emission.ExtensionsDistinct | compiler/src/core/emit.cc:26-51 | on one platform no two formats share an extension |
| Emission.FileNameDeterminesFormat | compiler/src/core/emit.cc:26-51 | for the same `--out` name, different formats give different file names |
| Emission.Emit | compiler/src/core/emit.cc:61-105 | emit fails exactly when the file cannot be opened or LLVM refuses a machine-code format; on success nothing goes to the error stream, IR and bitcode take one action, the compiler is run last exactly for executables, and every file action names the output file |
| Emission.EmitAsksForKind | compiler/src/core/emit.cc:72-91 | machine-code output asks LLVM for an assembly file for `asm` and an object file otherwise |
| Emission.ExeLinksInPlace | compiler/src/core/emit.cc:53-58 | for an executable, `$CC` is run on the emitted file with the same file as output |
| Optimization.PassName | compiler/src/core/backend/optimizer.cc:21-31 | the pipeline name has the form `default<Ox>` |
| Optimization.PassNameSpellsCode | compiler/src/core/backend/optimizer.cc:21-31 | the character after `O` is `0`, `1`, `s` or `3` for the four levels |
| Optimization.PassNamesDistinct | compiler/src/core/backend/optimizer.cc:21-31 | no two levels share a pipeline |
| Optimization.PassNameOfByte | compiler/src/core/backend/optimizer.cc:21-31 | a level value outside the enumeration falls through to the unoptimised pipeline |
| Optimization.PassSetup.constructor | compiler/src/core/backend/optimizer.cc:36-47 | fresh pass managers hold no alias analysis and no passes |
| Optimization.PassSetup.Optimize | compiler/src/core/backend/optimizer.cc:49-58 | alias analysis is registered when optimising, and the verifier then the level's pipeline are appended |
| Optimization.OptimizeFresh | compiler/src/core/backend/optimizer.cc:49-58 | on fresh managers: alias analysis if and only if optimising, and the passes are exactly the verifier then the level's pipeline |

## Left out

- Input and output: the test runner's subprocess calls, file reads and deletions, and the `Pool.map` worker pool are left out. Exit codes, stdout, stderr and file lines are inputs, and the results list is built sequentially in discovery order.
- TestRunner.ParseInt: Python's `int` also reads decimal digits outside ASCII (Arabic-Indic digits, for instance). Only the ASCII digits 0-9 are modelled.
- Terminal colours: coloured headers and colour codes in diagnostics are not modelled; only the uncoloured text is.
- LLVM: the module, target machine, pass managers and LLVM types are left out or kept abstract. `emit` takes the outcome of opening the file, the emitter's verdict and `$CC` as parameters. `optimize` is modelled by the passes it registers. The constant pool's LLVM values are abstract names with a size.
- Emission.Emit: an unset `CC` variable (undefined behaviour in `compile_with_system`) is not modelled. A graphviz request in a build with assertions stops at the assertion; the model follows the build without assertions.
- Flags: absl's command-line parsing is left out; the raw flag values are an input record.
- The grammar, the ANTLR lexer and parser, and the generated visitor are not part of this model. Parsing covers builtin type names, unqualified identifiers, function attributes and the one-slot return registers. Attribute arguments are taken as their spelling. Parser diagnostics are recorded as a code and a location.
- Misc.ToDigits: the int64 and uint64 instantiations are one method over the union of their ranges. The floating-point `to_digits` overloads (compiler/src/utility/misc.cc:53-73) are left out with the rest of floating point. `std::to_chars` and `std::from_chars` are library calls; the model writes out what they compute.
- Typing.ImplicitConvert: uses the intended fit test of compiler/src/core/typechecker.cc:1261. The written test (Typing.ImplicitConvertAsWritten) differs from it only on the literal 2^bits below 64 value bits and on literals from 1 up at 64 value bits or more (Typing.ImplicitConvertAgreesOffTheBoundary). The converted expression's type is copied with the corrected Types.Clone, where implicit_convert stores `expected.clone()` (compiler/src/core/typechecker.cc:1284-1287) and convert_intermediate loads `produced().clone()` (compiler/src/core/typechecker.cc:1666). The written clone agrees with it on clone-safe types (Types.CloneAsWrittenFaithful); a dyn interface becomes a user-defined type under it, so nil converted to `*const dyn Foo` is typed `*const Foo` as written (Typing.DynTargetsKeepTheirKind).
- Typing.TryMakeCompatible: goes through ImplicitConvert, so it uses the intended fit test. The written test (Typing.ImplicitConvertAsWritten) differs from it only on the literal 2^bits below 64 value bits and on literals from 1 up at 64 value bits or more (Typing.ImplicitConvertAgreesOffTheBoundary). Its conversions type their result with the corrected Types.Clone; see the Typing.ImplicitConvert line (Typing.DynTargetsKeepTheirKind).
- Typing.ConvertIntermediate: goes through ImplicitConvert, so it uses the intended fit test; as written, the literal 2^63 becomes an `i64`. The written test (Typing.ImplicitConvertAsWritten) differs from it only on the literal 2^bits below 64 value bits and on literals from 1 up at 64 value bits or more (Typing.ImplicitConvertAgreesOffTheBoundary). The converted expression's type is copied with the corrected Types.Clone, where implicit_convert stores `expected.clone()` (compiler/src/core/typechecker.cc:1284-1287) and convert_intermediate loads `produced().clone()` (compiler/src/core/typechecker.cc:1666). The written clone agrees with it on clone-safe types (Types.CloneAsWrittenFaithful); a dyn interface becomes a user-defined type under it, so nil converted to `*const dyn Foo` is typed `*const Foo` as written (Typing.DynTargetsKeepTheirKind).
- Typing.IntermediateDefaults: is stated over ConvertIntermediate, so it uses the intended fit test. The written test (Typing.ImplicitConvertAsWritten) differs from it only on the literal 2^bits below 64 value bits and on literals from 1 up at 64 value bits or more (Typing.ImplicitConvertAgreesOffTheBoundary). Its conversions type their result with the corrected Types.Clone; see the Typing.ImplicitConvert line (Typing.DynTargetsKeepTheirKind).
- Typing.CheckIdentical: converts through TryMakeCompatible, so it uses the intended fit test. The written test (Typing.ImplicitConvertAsWritten) differs from it only on the literal 2^bits below 64 value bits and on literals from 1 up at 64 value bits or more (Typing.ImplicitConvertAgreesOffTheBoundary). Its conversions type their result with the corrected Types.Clone; see the Typing.ImplicitConvert line (Typing.DynTargetsKeepTheirKind).
- Typing.BinaryResultTypes: is stated over CheckBinary, which converts operands through CheckIdentical, TryMakeCompatible and the assignment rules, so it uses the intended fit test. The written test (Typing.ImplicitConvertAsWritten) differs from it only on the literal 2^bits below 64 value bits and on literals from 1 up at 64 value bits or more (Typing.ImplicitConvertAgreesOffTheBoundary). Its conversions type their result with the corrected Types.Clone; see the Typing.ImplicitConvert line (Typing.DynTargetsKeepTheirKind).
- Typing.AssignmentRules: converts the assigned value through TryMakeCompatible, so it uses the intended fit test. The written test (Typing.ImplicitConvertAsWritten) differs from it only on the literal 2^bits below 64 value bits and on literals from 1 up at 64 value bits or more (Typing.ImplicitConvertAgreesOffTheBoundary). Its conversions type their result with the corrected Types.Clone; see the Typing.ImplicitConvert line (Typing.DynTargetsKeepTheirKind).
- Typing.Callable: converts the arguments through TryMakeCompatible, so it uses the intended fit test. The written test (Typing.ImplicitConvertAsWritten) differs from it only on the literal 2^bits below 64 value bits and on literals from 1 up at 64 value bits or more (Typing.ImplicitConvertAgreesOffTheBoundary). Its conversions type their result with the corrected Types.Clone; see the Typing.ImplicitConvert line (Typing.DynTargetsKeepTheirKind).
- Typing.CallableMeansIdentical: every argument has its parameter's type only because the conversions copy the parameter type with the corrected Types.Clone. With the written clone, an argument converted to a parameter that holds a dyn interface gets the user-defined type instead (nil passed to `*const dyn Foo` is typed `*const Foo`, Typing.DynTargetsKeepTheirKind); on clone-safe parameter types the two agree (Types.CloneAsWrittenFaithful).
- Typing.SelectOverload: tries candidates through Callable, so it uses the intended fit test. The written test (Typing.ImplicitConvertAsWritten) differs from it only on the literal 2^bits below 64 value bits and on literals from 1 up at 64 value bits or more (Typing.ImplicitConvertAgreesOffTheBoundary). Its conversions type their result with the corrected Types.Clone; see the Typing.ImplicitConvert line (Typing.DynTargetsKeepTheirKind).
- Typing: type-checker diagnostics are modelled as their codes only. Message text and source spans are left out.
- Typing and NameResolution: the AST walks of `visitors.h` are not modelled, including the walk in the NameResolver constructor (compiler/src/core/name_resolver.cc:171). The per-node rewrites it applies are modelled (ResolveType, ResolveIdentifier).
- NameResolution: `annotate_type`'s `set_id` on constants and functions (compiler/src/core/name_resolver.cc:132-152) is not modelled; only the types it annotates are.
- Mangling: `mangle_program` and the `set_mangled` walk (compiler/src/core/mangler.cc:269-296, 504-510) are left out. The symbol of each declaration is modelled.
- ManglerTests.MultipleSubstitutions: of the unit tests in compiler/tests/unit/test_mangler.cc, only the repeated-substitution vector is stated. It is generalised over one-letter module and type names.
- Predefined: `register_io` is modelled as its `print` half and its `println` half (Predefined.Program.RegisterPrints, Predefined.Program.RegisterPrintlns). The order of the two halves is kept.
- Types: the indirection type and the slice type in compiler/src/ast/nodes/type.h (the slice at line 264) have no `mut` flag, but compiler/src/core/typechecker.cc builds the indirection with one. The model carries the flag on both, and equality does not compare it.
- Types.EqualIsErasedEquality: unqualified identifiers are compared by value. The source compares their prefixes as pointers (see Ids.UnqualifiedEqualAsWrittenMissesCopies), so two separately built copies of an unqualified type are unequal in the source and equal in the model.
- Types.IndirectionCloneIsEmpty: the source clones a reference around an indirection into a reference whose child pointer is null. The model has no type with an empty child, so that whole clone is no type.
- Ast.CloneExpr: the types inside an expression (cast and conversion targets, struct types, generic arguments) are copied with the corrected Types.Clone, also in the as-written mode. The written clone agrees with it on clone-safe types (Types.CloneAsWrittenFaithful); on an indirection, a dyn interface or a generic unqualified type it differs.
- Ast.Expression.Clone: as for CloneExpr, the types inside the expression are copied with the corrected Types.Clone.
- NameResolution.Annotate: the aliased type of a type alias is copied with the corrected Types.Clone. The written clone agrees on clone-safe types (Types.CloneAsWrittenFaithful) and is empty or of another kind otherwise.
- Diagnostics.PartTexts: spans are drawn from the lines as break_into_lines splits them. A span that does not fit its line makes `substr` throw inside the noexcept build_list, which ends the compiler. The model makes fitting a precondition and does not model the termination.
- Diagnostics.DiagnosticLayout: a diagnostic with a span that does not fit its line ends the compiler, as for PartTexts. The model requires every span to fit.
- Diagnostics.ConsoleReporter.Report: reporting a diagnostic with a span that does not fit its line ends the compiler. The model requires every span to fit.
- Diagnostics.ConsoleReporter.ReportEmplace: as for Report, a span that does not fit its line ends the compiler. The model requires every span to fit.
- Diagnostics.NewUnderlineList: `std::sort` is not stable and may order equal keys either way. The model keeps equal keys in their original order, which is one of the orders `std::sort` may produce.
- Ast.TextUnquoted: requires at least one character. On an empty literal the source reads out of bounds.
- Pretty: the fixed renderings of named and internal types are given only by the definition of the type printer. No separate lemma states them.
- VariableResolvers: the LLVM lifetime intrinsics are commented out in the source and are not modelled.
- Floating-point values are not modelled. A float literal keeps an opaque number and the length of its text.
- Concurrency: the ticket mutex and the parallel test pool are left out.

## Findings

| source | as written | input that shows it | evidently intended | confidence | as-written member | corrected member |
|---|---|---|---|---|---|---|
| compiler/src/core/typechecker.cc:1261 | a literal fits a type when it is at most 2^bits; with 64 or more value bits the power wraps to 0 | 256 for `u8`; 1 for `u64` | a literal fits when it is at most 2^bits - 1, as the error message says | not executed | Typing.FitAcceptsPowerOfTwo | Typing.FitsIffBinaryLength |
| compiler/src/core/typechecker.cc:1562-1581 | conversions made while trying a candidate overload stay in the arguments when that candidate fails | `f(i8, bool)` declared before `f(i64, i64)`, called as `f(5, 5)` | each candidate is judged on the arguments as given | not executed | Typing.ConversionHidesOverload | Typing.SelectFixed |
| compiler/src/errors/diagnostics.cc:36-44 | `\r` and `\n` each end a line, so `\r\n` ends two | `"a\r\nb"` gives three lines, and a span on its second line cannot be drawn | one line per source line, whatever the line endings | not executed | Diagnostics.CrlfShiftsLines | Diagnostics.LinesIgnoreLineEndings |
| compiler/src/core/mangler.cc:317-335 | on a character that is not `F`, `C` or a digit, the demangler's loop reads nothing and never ends | `_GLOBAL__sub_I_main` | the loop stops and the symbol is rejected | not executed | Mangling.TopLoopStalls | Mangling.Demangled |
| compiler/tools/test_runner.py:71 | the panic reason is searched after `  message: '` | a runtime panic, which prints `  reason: '` (runtime/src/panic.cc:18) | the harness searches for the marker the runtime prints | not executed | TestRunner.FindReasonMissesRuntimePanic | TestRunner.FindReasonFixedRoundTrip |
| compiler/src/ast/nodes/type.cc:355-357 | cloning an indirection type returns an empty pointer | any indirection type | a copy of the indirection | not executed | Types.IndirectionCloneIsEmpty | Types.CloneFullyEquals |
| compiler/src/ast/nodes/type.cc:232-234 | cloning a dyn interface type builds a user-defined type | `dyn ::a::I` | a dyn interface type | not executed | Types.DynCloneChangesKind | Types.CloneFullyEquals |
| compiler/src/ast/nodes/type.cc:173-175 | cloning an unqualified user-defined type drops its generic arguments | `Foo<i32>` | the generic arguments are cloned too | not executed | Types.UnqualifiedCloneDropsGenerics | Types.CloneFullyEquals |
| compiler/src/ast/nodes/expression.cc:222 | a static call's callee is compared with itself | two static calls to different overloads with the same name | the two callees are compared | not executed | Ast.StaticCallIgnoresCallee | Ast.EqualReflexive |
| compiler/src/ast/nodes/expression.cc:575-579 | a return's optional value is compared by pointer | `return 1` and a separately built `return 1` | the values are compared | not executed | Ast.ReturnValueComparedByPointer | Ast.EqualReflexive |
| compiler/src/ast/nodes/expression.cc:486-495 | an if-else's optional else block is compared by pointer | an if-else with an else block, against a copy of itself | the else blocks are compared | not executed | Ast.ElseBlockComparedByPointer | Ast.EqualReflexive |
| compiler/src/ast/nodes/expression.cc:617-621 | continue equality casts the other node to a return expression | `continue == continue` | the other node is a continue expression | not executed | Ast.ContinueEqualityFailsDebugCast | Ast.EqualReflexive |
| compiler/src/ast/nodes/expression.cc:602-607 | cloning a break builds a return | `break` | a break | not executed | Ast.BreakClonesToReturn | Ast.CloneExprExact |
| compiler/src/ast/nodes/expression.h:183-191 | the clone's result type is copied only if the fresh copy already has one, which it never does | any expression the type checker has typed | the original's result type is copied | not executed | Ast.CloneDropsResult | Ast.Expression.CloneFixed |
| compiler/src/ast/nodes/declaration.cc:191-195 | the entries of two external blocks are compared as owning pointers | an external block against a copy of itself | the entries are compared | not executed | Ast.ExternalComparedByPointer | Ast.ExternalEqualByValue |
| compiler/src/ast/modular_id.h:123-127 | the prefixes of two identifiers are compared as pointers | two copies of `::a::b` | the prefix values are compared | not executed | Ids.UnqualifiedEqualAsWrittenMissesCopies | Ids.UnqualifiedEqualIsValueEquality |
| compiler/src/ast/modular_id.h:110-116 | the prefix is written directly before the name, with no `::` | `foo::bar` + `baz` and `foo` + `barbaz` | a `::` separates prefix and name | not executed | Ids.UnqualifiedStringCollides | Ids.UnqualifiedStringFixedInjective |
| compiler/src/utility/misc.cc:44-47 | the buffer holds 64 characters | INT64_MIN in base 2, which needs 65 | a buffer long enough for every value | not executed | Misc.ToDigitsMinBase2Overflows | Misc.ToDigitsWide |
| compiler/src/core/name_resolver.cc:85-96 | after reporting code 10 the visit does not return, so code 11 follows | a prefixed identifier naming a struct | one report, code 10 | not executed | NameResolution.IdentifierOfTypeReportedTwice | NameResolution.NameResolver.ResolveIdentifier |
| compiler/src/syntax/parser.cc:406-412 | a rejected width goes through `error_expr`, which fills the expression slot and leaves the type slot empty | `i7` | the type slot gets the error type | not executed | Parsing.VisitBuiltinAsWritten | Parsing.VisitBuiltin |
| compiler/src/syntax/parser.cc:368-379 | a lone name gets an empty module prefix that is not from the root | `Foo` | a lone name has no prefix, as `module_into_unqualified` gives | not executed | Parsing.LoneNameKeepsEmptyPrefix | Parsing.UnqualId |
| compiler/src/utility/flags.cc:137 | LLVM's option parser is called inside `assert` | any build with NDEBUG defined | the Intel dialect option reaches LLVM in every build | not executed | Flags.ReleaseDropsDialect | Flags.DelegateFlags |
| compiler/src/core/backend/constant_pool.cc:318-333 | a struct is cached only after its fields are lowered, so a struct that mentions itself is visited again with the same cache and the visit never returns | `struct Node { next: *Node }` | the struct is cached before its fields are lowered, so the self-reference finds it | not executed | ConstantPools.SelfReferenceRecursesAsWritten | ConstantPools.LowerSelfReferential |
| compiler/src/syntax/parser.cc:165 | the attribute text is taken from the rule context's `toString()`, which renders its invoking states such as `[12 7]`, not the source text | any attribute, e.g. `__pure` | the attribute's source text (`getText()`) is looked up | not executed | Parsing.FnAttributeAsWrittenAlwaysFails | Parsing.AttributeSpellingRoundTrip |
