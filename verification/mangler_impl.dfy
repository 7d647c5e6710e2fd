// The Mangler and Demangler classes of compiler/src/core/mangler.cc.
//
// Each method changes the object's builder, cursor, substitution table or
// counter step by step as the source's visitors do, and its contract ties
// the new state to the functions of module Mangling: the Mangler appends
// what `EncodeType` and `Symbol` describe, the Demangler appends what
// `ParseType` and `Demangled` read. The round trip between those functions
// is proved in module Mangling.
module ManglingImpl {
  import opened Basics
  import opened Ids
  import opened Mangling
  import Types
  import Ast

  // ---------------------------------------------------------------------
  // Mangler

  class Mangler {
    /** The symbol written so far. */
    var builder: string
    /** The next substitution code. */
    var code: nat
    /** Every user-defined or dyn encoding written so far, with its code. */
    var substitutions: map<string, nat>

    /** A fresh mangler has written the "_G" prefix and registered nothing. */
    constructor ()
      ensures builder == "_G" && code == 0 && substitutions == map[]
    {
      builder := "_G";
      code := 0;
      substitutions := map[];
    }

    /** build_module_prefix: every non-empty part of the module string, length-prefixed. */
    method BuildModulePrefix(moduleString: string)
      modifies this`builder
      ensures builder == old(builder) + PartsPrefix(ModuleParts(moduleString))
    {
      var parts := Split(moduleString, "::");
      assert parts[0..] == parts;
      for i := 0 to |parts|
        invariant builder + PartsPrefix(NonEmpty(parts[i..])) == old(builder) + PartsPrefix(ModuleParts(moduleString))
      {
        PrefixStep(parts, i, builder);
        if parts[i] != "" {
          builder := builder + (Dec(|parts[i]|) + parts[i]);
        }
      }
      assert parts[|parts|..] == [];
    }

    /**
     * The visit of a user-defined (U) or dyn (D) type: module prefix, tag
     * and length-prefixed name.
     */
    method VisitNamed(dyn: bool, id: QualifiedName)
      modifies this`builder
      ensures builder == old(builder) + NamedEncoding(dyn, id)
    {
      ghost var start := builder;
      BuildModulePrefix(id.moduleString);
      ghost var prefix := PartsPrefix(ModuleParts(id.moduleString));
      var tail := (if dyn then "D" else "U") + (Dec(|id.name|) + id.name);
      builder := builder + tail;
      assert NamedEncoding(dyn, id) == prefix + tail;
      AppendAssoc(start, prefix, tail);
    }

    /**
     * mangle(): appends the type's encoding, then, for a user-defined or
     * dyn type, replaces an encoding registered before by "Z<code>_" or
     * registers a new one under the next code.
     */
    method Mangle(t: Type)
      requires Mangleable(t)
      modifies this
      ensures var e := EncodeType(t, old(substitutions), old(code));
              builder == old(builder) + e.text && substitutions == e.subs && code == e.code
      decreases t, 2
    {
      match t
      case ReferenceType(_, mut, inner) => MangleWrapped(if mut then "S" else "R", inner);
      case SliceType(_, mut, inner) => MangleWrapped(if mut then "C" else "B", inner);
      case PointerType(_, mut, inner) => MangleWrapped(if mut then "Q" else "P", inner);
      case IntegralType(_, signed, w) => builder := builder + IntegralCode(signed, w);
      case FloatType(_, w) => builder := builder + FloatCode(w);
      case ByteType(_) => builder := builder + "a";
      case BoolType(_) => builder := builder + "b";
      case CharType(_) => builder := builder + "c";
      case VoidType(_) => builder := builder + "v";
      case UserType(_, id, _) => MangleNamed(false, id);
      case DynType(_, id, _) => MangleNamed(true, id);
      case FnPointerType(_, _, _) => MangleFnPointer(t);
      case ArrayType(_, _, _) => MangleArray(t);
    }

    /** A reference, slice or pointer: its one-letter tag, then the type it wraps. */
    method MangleWrapped(tag: string, inner: Type)
      requires Mangleable(inner)
      modifies this
      ensures var e := EncodeType(inner, old(substitutions), old(code));
              builder == old(builder) + (tag + e.text) && substitutions == e.subs && code == e.code
      decreases inner, 3
    {
      builder := builder + tag;
      Mangle(inner);
    }

    /** A user-defined or dyn type: its encoding, then the substitution step. */
    method MangleNamed(dyn: bool, id: QualifiedName)
      requires ValidId(id)
      modifies this
      ensures var e := Substitute(NamedEncoding(dyn, id), old(substitutions), old(code));
              builder == old(builder) + e.text && substitutions == e.subs && code == e.code
    {
      var start := |builder|;
      VisitNamed(dyn, id);
      NamedEncodingNonEmpty(dyn, id);
      SubstituteFrom(start);
    }

    /** "FN", the argument types, "E", the return type. */
    method MangleFnPointer(t: Type)
      requires t.FnPointerType? && Mangleable(t)
      modifies this
      ensures var e := EncodeType(t, old(substitutions), old(code));
              builder == old(builder) + e.text && substitutions == e.subs && code == e.code
      decreases t, 1
    {
      ghost var b0 := builder;
      builder := builder + "FN";
      MangleAll(t.args);
      ghost var b1 := builder;
      builder := builder + "E";
      Mangle(t.ret);
      ghost var a := EncodeTypes(t.args, old(substitutions), old(code));
      ghost var r := EncodeType(t.ret, a.subs, a.code);
      Assemble4(b0, "FN", a.text, "E", r.text);
    }

    /** "A", the element type, the size in decimal, "_". */
    method MangleArray(t: Type)
      requires t.ArrayType? && Mangleable(t)
      modifies this
      ensures var e := EncodeType(t, old(substitutions), old(code));
              builder == old(builder) + e.text && substitutions == e.subs && code == e.code
      decreases t, 1
    {
      ghost var b0 := builder;
      builder := builder + "A";
      Mangle(t.element);
      builder := builder + (Dec(t.size) + "_");
      ghost var e := EncodeType(t.element, old(substitutions), old(code));
      Assemble4(b0, "A", e.text, Dec(t.size), "_");
    }

    /** The substitution step of mangle() for the encoding written from `start` on. */
    method SubstituteFrom(start: nat)
      requires start < |builder|
      modifies this
      ensures var e := Substitute(old(builder)[start..], old(substitutions), old(code));
              builder == old(builder)[..start] + e.text && substitutions == e.subs && code == e.code
    {
      var written := builder[start..];
      if written in substitutions {
        builder := builder[..start] + ("Z" + Dec(substitutions[written]) + "_");
      } else {
        substitutions := substitutions[written := code];
        code := code + 1;
      }
    }

    /** The loop over a list of types (a function pointer's or a prototype's arguments). */
    method MangleAll(ts: seq<Type>)
      requires AllMangleable(ts)
      modifies this
      ensures var e := EncodeTypes(ts, old(substitutions), old(code));
              builder == old(builder) + e.text && substitutions == e.subs && code == e.code
      decreases ts, 1
    {
      assert ts[0..] == ts;
      for i := 0 to |ts|
        invariant var e := EncodeTypes(ts, old(substitutions), old(code));
                  var r := EncodeTypes(ts[i..], substitutions, code);
                  builder + r.text == old(builder) + e.text && e.subs == r.subs && e.code == r.code
      {
        EncodeStep(ts, i, substitutions, code, builder);
        Mangle(ts[i]);
      }
      assert ts[|ts|..] == [];
    }

    /** any_of over the attributes: is the throws attribute present? */
    static method HasThrows(proto: Ast.FnPrototype) returns (canThrow: bool)
      ensures canThrow == CanThrow(proto)
    {
      canThrow := false;
      for i := 0 to |proto.attributes|
        invariant canThrow <==> exists j :: 0 <= j < i && proto.attributes[j].kind == Ast.BuiltinThrows
      {
        if proto.attributes[i].kind == Ast.BuiltinThrows {
          canThrow := true;
        }
      }
    }

    /** visit(FnDeclaration) for a non-extern function. */
    method MangleFn(moduleString: string, proto: Ast.FnPrototype) returns (symbol: string)
      requires MangleableFn(moduleString, proto)
      requires builder == "_G" && code == 0 && substitutions == map[]
      modifies this
      ensures var s := FnSymbol(moduleString, proto); symbol == if s == MainSymbol then UserMain else s
    {
      BuildModulePrefix(moduleString);
      builder := builder + ("F" + (Dec(|proto.name|) + proto.name));
      var canThrow := HasThrows(proto);
      builder := builder + (if canThrow then "T" else "N");
      MangleAll(ArgTypes(proto.args));
      builder := builder + "E";
      Mangle(proto.returnType);
      FnAssembled(PartsPrefix(ModuleParts(moduleString)), proto);
      if builder == MainSymbol {
        symbol := UserMain;
      } else {
        symbol := builder;
      }
    }

    /** visit(ConstantDeclaration). */
    method MangleConstant(moduleString: string, name: string, hint: Type) returns (symbol: string)
      requires Mangleable(hint)
      requires builder == "_G" && code == 0 && substitutions == map[]
      modifies this
      ensures symbol == ConstSymbol(moduleString, name, hint)
    {
      BuildModulePrefix(moduleString);
      builder := builder + ("C" + (Dec(|name|) + name));
      Mangle(hint);
      ConstAssembled(PartsPrefix(ModuleParts(moduleString)), name, hint);
      symbol := builder;
    }

    /** mangle_decl: the visit of the declaration kinds the mangler accepts. */
    method MangleDecl(d: Ast.Decl, id: QualifiedName) returns (symbol: string)
      requires MangleableDecl(d, id)
      requires builder == "_G" && code == 0 && substitutions == map[]
      modifies this
      ensures symbol == Symbol(d, id)
    {
      match d.node
      case Fn(external, proto, _) =>
        if external {
          symbol := proto.name;
        } else {
          symbol := MangleFn(id.moduleString, proto);
        }
      case ExternalFn(proto) => symbol := proto.name;
      case Constant(name, hint, _) => symbol := MangleConstant(id.moduleString, name, hint);
    }
  }

  // ---------------------------------------------------------------------
  // Demangler
  //
  // The cursor `pos` stands for the source's pos_; what remains to be read
  // is `mangled[pos..]`. A method returns false where the source's
  // behaviour is undefined or it aborts (a read past the end, `at` or
  // `std::get` throwing, assert(false)); the object's state is then of no
  // further interest, as the source's would not be.

  class Demangler {
    const mangled: string
    var pos: nat
    var builder: string
    var substitutions: seq<string>

    /** The constructor starts the cursor after the "_G" prefix. */
    constructor (mangled: string)
      ensures this.mangled == mangled && pos == 2 && builder == "" && substitutions == []
    {
      this.mangled := mangled;
      pos := 2;
      builder := "";
      substitutions := [];
    }

    /**
     * A parse of `o` was carried out: success exactly when `o` succeeds,
     * and then the builder has gained its text (after `b0`), the cursor
     * stands at what it leaves and the substitution list is its list.
     */
    ghost predicate Advanced(o: Option<Parsed>, ok: bool, b0: string)
      reads this
    {
      pos <= |mangled| && ok == o.Some?
      && (ok ==> builder == b0 + o.value.text && mangled[pos..] == o.value.rest && substitutions == o.value.subs)
    }

    /** The same for a parse that reads a piece of text and leaves the substitution list alone. */
    ghost predicate AdvancedPiece(o: Option<Piece>, ok: bool, b0: string)
      reads this
    {
      pos <= |mangled| && ok == o.Some?
      && (ok ==> builder == b0 + o.value.text && mangled[pos..] == o.value.rest)
    }

    /** digits(): moves past a run of digits and converts it. */
    method Digits() returns (ok: bool, value: nat)
      requires pos <= |mangled|
      modifies this`pos
      ensures var o := ParseDigits(old(mangled[pos..]));
              pos <= |mangled| && ok == o.Some? && (ok ==> value == o.value.value && mangled[pos..] == o.value.rest)
    {
      var start := pos;
      while pos < |mangled| && IsDigit(mangled[pos])
        invariant start <= pos <= |mangled|
        invariant forall i :: start <= i < pos ==> IsDigit(mangled[i])
      {
        pos := pos + 1;
      }
      ghost var r := mangled[start..];
      ScanDigitsTo(r, 0, pos - start);
      assert r[..pos - start] == mangled[start..pos];
      assert r[pos - start..] == mangled[pos..];
      match Misc.FromDigits(mangled[start..pos], 10)
      case Ok(v) => ok, value := true, v;
      case Err(_) => ok, value := false, 0;
    }

    /** part_with_len(): a length, then that many characters, appended to the builder. */
    method PartWithLen() returns (ok: bool)
      requires pos <= |mangled|
      modifies this`pos, this`builder
      ensures AdvancedPiece(ParsePart(old(mangled[pos..])), ok, old(builder))
    {
      var len;
      ok, len := Digits();
      if !ok {
        return;
      }
      var start := pos;
      if |mangled| - start < len {
        // the loop below would step past the end of the symbol
        ok := false;
        return;
      }
      for i := 0 to len
        invariant pos == start + i && builder == old(builder)
      {
        pos := pos + 1;
      }
      assert mangled[start..][..len] == mangled[start..pos];
      assert mangled[start..][len..] == mangled[pos..];
      builder := builder + mangled[start..pos];
    }

    /** module_part(): length-prefixed parts, each followed by "::", for as long as a digit follows. */
    method ModulePart() returns (ok: bool)
      requires pos <= |mangled|
      modifies this`pos, this`builder
      ensures AdvancedPiece(ParseModulePart(old(mangled[pos..])), ok, old(builder))
    {
      ok := true;
      while pos < |mangled| && IsDigit(mangled[pos])
        invariant pos <= |mangled|
        invariant var o := ParseModulePart(old(mangled[pos..]));
                  var q := ParseModulePart(mangled[pos..]);
                  (o.Some? <==> q.Some?)
                  && (o.Some? ==> builder + q.value.text == old(builder) + o.value.text && o.value.rest == q.value.rest)
        decreases |mangled| - pos
      {
        ghost var r := mangled[pos..];
        ghost var b := builder;
        ok := PartWithLen();
        if !ok {
          return;
        }
        builder := builder + "::";
        ModulePartStep(r, b);
      }
    }

    /** type(): one type, appended to the builder in Gallium's syntax. */
    method Type() returns (ok: bool)
      requires pos <= |mangled|
      modifies this`pos, this`builder, this`substitutions
      ensures Advanced(ParseType(old(mangled[pos..]), old(substitutions)), ok, old(builder))
      decreases |mangled| - pos, 1
    {
      if pos == |mangled| {
        ok := false;
        return;
      }
      ghost var r := mangled[pos..];
      var c := mangled[pos];
      pos := pos + 1;
      assert mangled[pos..] == r[1..];
      var builtin := BuiltinName(c);
      if builtin.Some? {
        builder := builder + builtin.value;
        ok := true;
      } else if c == 'P' {
        ok := Wrapped("*const ", "");
      } else if c == 'Q' {
        ok := Wrapped("*mut ", "");
      } else if c == 'R' {
        ok := Wrapped("&", "");
      } else if c == 'S' {
        ok := Wrapped("&mut ", "");
      } else if c == 'A' {
        ok := Array();
      } else if c == 'B' {
        ok := Wrapped("[", "]");
      } else if c == 'C' {
        ok := Wrapped("[mut ", "]");
      } else if c == 'F' {
        ok := FnPointer();
      } else if c == 'Z' {
        ok := Substitution();
      } else {
        pos := pos - 1;
        ok := Named();
      }
    }

    /** A pointer, reference or slice: text before and after the type it wraps. */
    method Wrapped(before: string, after: string) returns (ok: bool)
      requires pos <= |mangled|
      modifies this`pos, this`builder, this`substitutions
      ensures Advanced(Then(before, ParseType(old(mangled[pos..]), old(substitutions)), after), ok, old(builder))
      decreases |mangled| - pos, 2
    {
      ghost var b := builder;
      builder := builder + before;
      ok := Type();
      if ok {
        builder := builder + after;
        ghost var t := ParseType(old(mangled[pos..]), old(substitutions)).value;
        assert builder == b + (before + t.text + after);
      }
    }

    /** The 'A' case: element type, "; ", size, "]", and the '_' it steps over. */
    method Array() returns (ok: bool)
      requires pos <= |mangled|
      modifies this`pos, this`builder, this`substitutions
      ensures Advanced(ParseArray(old(mangled[pos..]), old(substitutions)), ok, old(builder))
      decreases |mangled| - pos, 2
    {
      ghost var b := builder;
      builder := builder + "[";
      ok := Type();
      if !ok {
        return;
      }
      ghost var e := builder;
      var size;
      ok, size := Digits();
      if !ok {
        return;
      }
      builder := builder + ("; " + Dec(size) + "]");
      if pos == |mangled| {
        ok := false;
        return;
      }
      pos := pos + 1;
      ghost var t := ParseType(old(mangled[pos..]), old(substitutions)).value;
      assert e == b + "[" + t.text;
      assert builder == b + ArrayText(t.text, size);
    }

    /** The 'F' case: throws flag, argument list, return type. */
    method FnPointer() returns (ok: bool)
      requires pos <= |mangled|
      modifies this`pos, this`builder, this`substitutions
      ensures Advanced(ParseFnPointer(old(mangled[pos..]), old(substitutions)), ok, old(builder))
      decreases |mangled| - pos, 3
    {
      if pos == |mangled| {
        ok := false;
        return;
      }
      ghost var b := builder;
      builder := builder + "fn(";
      var throws := mangled[pos] == 'T';
      pos := pos + 1;
      ghost var a0 := builder;
      ok := ArgList();
      if !ok {
        return;
      }
      ghost var a := builder;
      pos := pos + 1;
      builder := builder + (") " + (if throws then "throws " else "") + "-> ");
      ghost var c := builder;
      ok := Type();
      if !ok {
        return;
      }
      ghost var args := ParseArgs(old(mangled[pos..])[1..], old(substitutions)).value;
      ghost var ret := ParseType(args.rest[1..], args.subs).value;
      FnPointerAssembled(b, args.text, throws, ret.text);
    }

    /** The 'Z' case: the recorded type under the index, and the '_' it steps over. */
    method Substitution() returns (ok: bool)
      requires pos <= |mangled|
      modifies this`pos, this`builder, this`substitutions
      ensures Advanced(ParseSubstitution(old(mangled[pos..]), old(substitutions)), ok, old(builder))
    {
      var index;
      ok, index := Digits();
      if !ok {
        return;
      }
      if index >= |substitutions| {
        // substitutions_.at throws
        ok := false;
        return;
      }
      builder := builder + substitutions[index];
      if pos == |mangled| {
        ok := false;
        return;
      }
      pos := pos + 1;
    }

    /**
     * The default case: module parts, then 'U' or 'D' and the name; "dyn "
     * goes in front of a dyn type's text, and the text is recorded.
     */
    method Named() returns (ok: bool)
      requires pos < |mangled| && BuiltinName(mangled[pos]).None?
      requires mangled[pos] !in {'P', 'Q', 'R', 'S', 'A', 'B', 'C', 'F', 'Z'}
      modifies this`pos, this`builder, this`substitutions
      ensures Advanced(ParseType(old(mangled[pos..]), old(substitutions)), ok, old(builder))
    {
      ghost var b := builder;
      ghost var r := mangled[pos..];
      NamedCase(r, substitutions);
      var start := |builder|;
      builder := builder + "::";
      ok := ModulePart();
      if !ok {
        return;
      }
      ghost var m := ParseModulePart(r).value;
      if pos == |mangled| {
        ok := false;
        return;
      }
      var tag := mangled[pos];
      pos := pos + 1;
      assert mangled[pos..] == m.rest[1..];
      if tag == 'D' {
        builder := builder[..start] + "dyn " + builder[start..];
      }
      if tag == 'D' || tag == 'U' {
        ok := PartWithLen();
        if !ok {
          return;
        }
      } else {
        // assert(false)
        ok := false;
        return;
      }
      NamedAssembled(b, m.text, tag == 'D', ParsePart(m.rest[1..]).value.text);
      substitutions := substitutions + [builder[start..]];
    }

    /** function(): name, throws flag, arguments and return type, with "fn " put in front. */
    method Function() returns (ok: bool, result: string)
      requires pos < |mangled| && mangled[pos] == 'F' && substitutions == []
      modifies this`pos, this`builder, this`substitutions
      ensures var o := ParseFunction(old(mangled[pos..]), old(builder)); ok == o.Some? && (ok ==> result == o.value)
    {
      ghost var r := mangled[pos..];
      ghost var acc := builder;
      pos := pos + 1;
      ok := PartWithLen();
      if !ok {
        result := "";
        return;
      }
      ghost var name := ParsePart(r[1..]).value;
      if pos == |mangled| {
        ok, result := false, "";
        return;
      }
      var throws := mangled[pos] == 'T';
      pos := pos + 1;
      builder := builder + "(";
      ok := ArgList();
      if !ok {
        result := "";
        return;
      }
      ghost var args := ParseArgs(name.rest[1..], []).value;
      pos := pos + 1;
      builder := builder + (")" + (if throws then " throws -> " else " -> "));
      ok := Type();
      if !ok {
        result := "";
        return;
      }
      ghost var ret := ParseType(args.rest[1..], args.subs).value;
      builder := "fn " + builder;
      result := builder;
      FunctionAssembled(acc, name.text, args.text, if throws then " throws -> " else " -> ", ret.text);
      ParseFunctionStep(r, acc, name, args, ret);
    }

    /** constant(): name and type, with "const " put in front. */
    method Constant() returns (ok: bool, result: string)
      requires pos < |mangled| && mangled[pos] == 'C' && substitutions == []
      modifies this`pos, this`builder, this`substitutions
      ensures var o := ParseConstant(old(mangled[pos..]), old(builder)); ok == o.Some? && (ok ==> result == o.value)
    {
      ghost var r := mangled[pos..];
      ghost var acc := builder;
      pos := pos + 1;
      ok := PartWithLen();
      if !ok {
        result := "";
        return;
      }
      ghost var name := ParsePart(r[1..]).value;
      builder := builder + ": ";
      ok := Type();
      if !ok {
        result := "";
        return;
      }
      ghost var t := ParseType(name.rest, []).value;
      builder := "const " + builder;
      result := builder;
      ConstantAssembled(acc, name.text, t.text);
    }

    /**
     * demangle(): the exception table, the "_G" test, then module parts
     * until function() or constant() takes over. A character that is none
     * of 'F', 'C' or a digit is rejected here; the source's loop never ends
     * on one (see Mangling.TopLoopStalls).
     */
    method Demangle() returns (ok: bool, result: string)
      requires pos == 2 && builder == "" && substitutions == []
      modifies this`pos, this`builder, this`substitutions
      ensures var d := Demangled(mangled); ok == d.Some? && (ok ==> result == d.value)
    {
      if mangled == UserMain {
        return true, "fn ::main() -> void";
      }
      if |mangled| < 3 || mangled[0] != '_' || mangled[1] != 'G' {
        return true, mangled;
      }
      builder := "::";
      while pos < |mangled|
        invariant 2 <= pos <= |mangled| && substitutions == []
        invariant ParseTop(mangled[2..], "::") == ParseTop(mangled[pos..], builder)
        decreases |mangled| - pos
      {
        if mangled[pos] == 'F' {
          ok, result := Function();
          return;
        }
        if mangled[pos] == 'C' {
          ok, result := Constant();
          return;
        }
        if !IsDigit(mangled[pos]) {
          ok, result := false, "";
          return;
        }
        ok := ModulePart();
        if !ok {
          result := "";
          return;
        }
      }
      // assert(false)
      ok, result := false, "";
    }

    /**
     * The argument loop of function() and of the 'F' case: types until an
     * 'E', separated by ", ".
     */
    method ArgList() returns (ok: bool)
      requires pos <= |mangled|
      modifies this`pos, this`builder, this`substitutions
      ensures Advanced(ParseArgs(old(mangled[pos..]), old(substitutions)), ok, old(builder))
      decreases |mangled| - pos, 2
    {
      while pos < |mangled| && mangled[pos] != 'E'
        invariant pos <= |mangled|
        invariant var o := ParseArgs(old(mangled[pos..]), old(substitutions));
                  var q := ParseArgs(mangled[pos..], substitutions);
                  (o.Some? <==> q.Some?)
                  && (o.Some? ==> builder + q.value.text == old(builder) + o.value.text
                                  && o.value.rest == q.value.rest && o.value.subs == q.value.subs)
        decreases |mangled| - pos
      {
        ghost var r := mangled[pos..];
        ghost var subs := substitutions;
        ghost var b := builder;
        ok := Type();
        if !ok || pos == |mangled| {
          ok := false;
          return;
        }
        if mangled[pos] != 'E' {
          builder := builder + ", ";
        }
        ArgsStep(r, subs, b, ParseType(r, subs).value);
      }
      ok := pos < |mangled|;
    }
  }

  /** One iteration of build_module_prefix: an empty part adds nothing, any other its length-prefixed text. */
  lemma PrefixStep(parts: seq<string>, i: nat, done: string)
    requires i < |parts|
    ensures done + PartsPrefix(NonEmpty(parts[i..]))
            == (if parts[i] == "" then done else done + LenPrefixed(parts[i])) + PartsPrefix(NonEmpty(parts[i + 1..]))
  {
    var rest := NonEmpty(parts[i + 1..]);
    assert parts[i..][1..] == parts[i + 1..];
    assert NonEmpty(parts[i..]) == (if parts[i] == "" then [] else [parts[i]]) + rest;
    if parts[i] == "" {
      assert NonEmpty(parts[i..]) == rest;
    } else {
      assert ([parts[i]] + rest)[1..] == rest;
    }
  }

  /** One iteration of the argument loop: the head's encoding, then the rest's with the table it leaves. */
  lemma EncodeStep(ts: seq<Type>, i: nat, subs: map<string, nat>, code: nat, written: string)
    requires i < |ts| && AllMangleable(ts)
    ensures var h := EncodeType(ts[i], subs, code);
            var r := EncodeTypes(ts[i..], subs, code);
            var t := EncodeTypes(ts[i + 1..], h.subs, h.code);
            written + r.text == (written + h.text) + t.text && r.subs == t.subs && r.code == t.code
  {
    assert ts[i..][1..] == ts[i + 1..];
  }

  lemma Assemble4(b: string, p: string, x: string, q: string, y: string)
    ensures (((b + p) + x) + q) + y == b + (p + x + q + y)
  {
  }

  lemma NamedEncodingNonEmpty(dyn: bool, id: QualifiedName)
    ensures |NamedEncoding(dyn, id)| > 0
  {
  }

  /** The pieces MangleFn appends make up the function's symbol. */
  lemma FnAssembled(prefix: string, proto: Ast.FnPrototype)
    requires AllMangleable(ArgTypes(proto.args)) && Mangleable(proto.returnType)
    ensures var a := EncodeTypes(ArgTypes(proto.args), map[], 0);
            var ret := EncodeType(proto.returnType, a.subs, a.code);
            (((("_G" + prefix) + ("F" + (Dec(|proto.name|) + proto.name))) + (if CanThrow(proto) then "T" else "N"))
             + a.text + "E") + ret.text
            == "_G" + (prefix + FnBody(proto))
  {
    var a := EncodeTypes(ArgTypes(proto.args), map[], 0);
    var ret := EncodeType(proto.returnType, a.subs, a.code);
    var t := if CanThrow(proto) then "T" else "N";
    assert FnBody(proto) == "F" + (LenPrefixed(proto.name) + (t + (a.text + ("E" + ret.text))));
    FnPieces("_G" + prefix, LenPrefixed(proto.name), t, a.text, ret.text);
  }

  lemma FnPieces(head: string, name: string, t: string, args: string, ret: string)
    ensures (((head + ("F" + name)) + t) + args + "E") + ret == head + ("F" + (name + (t + (args + ("E" + ret)))))
  {
  }

  /** The pieces MangleConstant appends make up the constant's symbol. */
  lemma ConstAssembled(prefix: string, name: string, hint: Type)
    requires Mangleable(hint)
    ensures (("_G" + prefix) + ("C" + (Dec(|name|) + name))) + EncodeType(hint, map[], 0).text
            == "_G" + (prefix + ConstBody(name, hint))
  {
  }

  /** One iteration of module_part()'s loop. */
  lemma ModulePartStep(r: string, b: string)
    requires StartsWithDigit(r)
    ensures ParsePart(r).None? ==> ParseModulePart(r).None?
    ensures ParsePart(r).Some? ==>
              var p := ParsePart(r).value;
              var o := ParseModulePart(r);
              var q := ParseModulePart(p.rest);
              (o.Some? <==> q.Some?)
              && (o.Some? ==> b + o.value.text == (b + p.text + "::") + q.value.text && o.value.rest == q.value.rest)
  {
  }

  /** One iteration of the argument loop. */
  lemma ArgsStep(r: string, subs: seq<string>, b: string, t: Parsed)
    requires |r| > 0 && r[0] != 'E' && ParseType(r, subs) == Some(t) && |t.rest| > 0
    ensures var o := ParseArgs(r, subs);
            var q := ParseArgs(t.rest, t.subs);
            (o.Some? <==> q.Some?)
            && (o.Some? ==> b + o.value.text == (b + t.text + (if t.rest[0] == 'E' then "" else ", ")) + q.value.text
                            && o.value.rest == q.value.rest && o.value.subs == q.value.subs)
  {
  }

  /** The pieces the 'F' case appends make up the function pointer's text. */
  lemma FnPointerAssembled(b: string, args: string, throws: bool, ret: string)
    ensures (((b + "fn(") + args) + (") " + (if throws then "throws " else "") + "-> ")) + ret
            == b + FnPointerText(args, throws, ret)
  {
  }

  /** The default case of type() is ParseNamed, with the text recorded. */
  lemma NamedCase(r: string, subs: seq<string>)
    requires |r| > 0 && BuiltinName(r[0]).None? && r[0] !in {'P', 'Q', 'R', 'S', 'A', 'B', 'C', 'F', 'Z'}
    ensures ParseType(r, subs) == match ParseNamed(r)
                                  case None => None
                                  case Some(n) => Some(Parsed(n.text, n.rest, subs + [n.text]))
  {
  }

  /** The pieces the default case appends, with "dyn " inserted at the start, make up the named type's text. */
  lemma NamedAssembled(b: string, m: string, dyn: bool, name: string)
    ensures var x := b + "::" + m;
            var y := if dyn then x[..|b|] + "dyn " + x[|b|..] else x;
            var text := (if dyn then "dyn " else "") + "::" + m + name;
            y + name == b + text && (y + name)[|b|..] == text
  {
    var x := b + "::" + m;
    assert x[..|b|] == b;
    assert x[|b|..] == "::" + m;
  }

  lemma FunctionAssembled(acc: string, name: string, args: string, arrow: string, ret: string)
    ensures "fn " + ((((acc + name) + "(") + args) + (")" + arrow) + ret)
            == "fn " + acc + name + "(" + args + ")" + arrow + ret
  {
  }

  lemma ConstantAssembled(acc: string, name: string, t: string)
    ensures "const " + (((acc + name) + ": ") + t) == "const " + acc + name + ": " + t
  {
  }

  /** gal::mangle: a fresh Mangler per declaration. */
  method Mangle(d: Ast.Decl, id: QualifiedName) returns (symbol: string)
    requires MangleableDecl(d, id)
    ensures symbol == Symbol(d, id)
  {
    var m := new Mangler();
    symbol := m.MangleDecl(d, id);
  }

  /** gal::demangle: a fresh Demangler per symbol; false where the source's behaviour is undefined or it aborts. */
  method Demangle(mangled: string) returns (ok: bool, result: string)
    ensures var d := Demangled(mangled); ok == d.Some? && (ok ==> result == d.value)
  {
    var d := new Demangler(mangled);
    ok, result := d.Demangle();
  }
}
