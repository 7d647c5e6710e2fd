// Symbol mangling and demangling (compiler/src/core/mangler.cc).
//
// The first half states both directions as functions: `EncodeType` and
// `Symbol` say what the Mangler appends, `ParseType` and `Demangled` what
// the Demangler reads back, and `Render`/`Signature` give the text a
// declaration demangles to. The round-trip lemmas connect them. The second
// half holds the two classes of the source, whose methods update a builder
// string, a substitution table and a cursor in place and are proved against
// those functions.
module Mangling {
  import opened Basics
  import opened Ids
  import Misc
  import Types
  import Ast
  import SourceLocs

  type Type = Types.Type

  // ---------------------------------------------------------------------
  // Text pieces shared by both directions.

  predicate IsDigit(c: char)
  {
    '0' <= c <= '9'
  }

  /** absl::StrAppend of an unsigned number: its decimal digits. */
  function Dec(n: nat): string
  {
    Misc.NatDigits(n, 10)
  }

  lemma DecDigits(n: nat)
    ensures |Dec(n)| > 0 && forall i :: 0 <= i < |Dec(n)| ==> IsDigit(Dec(n)[i])
  {
    Misc.NatDigitsAreDigits(n, 10);
  }

  /** A name as the mangler writes it: its length in decimal, then the name itself. */
  function LenPrefixed(s: string): string
  {
    Dec(|s|) + s
  }

  /**
   * Names the mangler can encode so that they read back: identifiers are
   * non-empty and do not start with a digit, and a length must fit the
   * std::uint64_t the demangler parses it into.
   */
  predicate ValidName(s: string)
  {
    0 < |s| < Misc.Uint64Limit && !IsDigit(s[0])
  }

  /** The parts of a split that are not empty, in order. */
  function NonEmpty(parts: seq<string>): (r: seq<string>)
    ensures forall i :: 0 <= i < |r| ==> |r[i]| > 0
    ensures forall i :: 0 <= i < |r| ==> r[i] in parts
  {
    if |parts| == 0 then []
    else (if parts[0] == "" then [] else [parts[0]]) + NonEmpty(parts[1..])
  }

  /** The parts build_module_prefix walks: the module string split at "::", empty parts skipped. */
  function ModuleParts(moduleString: string): seq<string>
  {
    NonEmpty(Split(moduleString, "::"))
  }

  /** The module prefix the mangler writes: every part, length-prefixed. */
  function PartsPrefix(parts: seq<string>): (r: string)
    ensures |parts| > 0 ==> |r| > 0 && IsDigit(r[0])
  {
    if |parts| == 0 then ""
    else
      DecDigits(|parts[0]|);
      LenPrefixed(parts[0]) + PartsPrefix(parts[1..])
  }

  /** The module text the demangler writes: every part followed by "::". */
  function PartsText(parts: seq<string>): string
  {
    if |parts| == 0 then "" else parts[0] + "::" + PartsText(parts[1..])
  }

  predicate ValidParts(parts: seq<string>)
  {
    forall i :: 0 <= i < |parts| ==> ValidName(parts[i])
  }

  predicate ValidId(id: QualifiedName)
  {
    ValidName(id.name) && ValidParts(ModuleParts(id.moduleString))
  }

  /** The rooted module path as the demangler writes it, ending in "::". */
  function ModuleText(moduleString: string): string
  {
    "::" + PartsText(ModuleParts(moduleString))
  }

  // ---------------------------------------------------------------------
  // Mangling, as functions.

  /**
   * The types the mangler's visitors accept. Unqualified, nil-pointer,
   * error, unsized-integer and indirection types assert, and an integer
   * width outside the lookup table makes `at` throw.
   */
  predicate Mangleable(t: Type)
    decreases t
  {
    match t
    case ReferenceType(_, _, inner) => Mangleable(inner)
    case SliceType(_, _, inner) => Mangleable(inner)
    case PointerType(_, _, inner) => Mangleable(inner)
    case IntegralType(_, _, w) => w.NativeWidth? || w.bits in {8, 16, 32, 64, 128}
    case FloatType(_, _) => true
    case BoolType(_) => true
    case ByteType(_) => true
    case CharType(_) => true
    case VoidType(_) => true
    case UserType(_, id, _) => ValidId(id)
    case DynType(_, id, _) => ValidId(id)
    case FnPointerType(_, args, ret) => AllMangleable(args) && Mangleable(ret)
    case ArrayType(_, size, element) => size < Misc.Uint64Limit && Mangleable(element)
    case _ => false
  }

  predicate AllMangleable(ts: seq<Type>)
    decreases ts
  {
    forall i :: 0 <= i < |ts| ==> Mangleable(ts[i])
  }

  /** The mangler's lookup table of integer codes. */
  function IntegralCode(signed: bool, w: Types.IntegerWidth): string
    requires w.NativeWidth? || w.bits in {8, 16, 32, 64, 128}
  {
    if w.NativeWidth? then (if signed then "o" else "i")
    else if w.bits == 8 then (if signed then "j" else "d")
    else if w.bits == 16 then (if signed then "k" else "e")
    else if w.bits == 32 then (if signed then "l" else "f")
    else if w.bits == 64 then (if signed then "m" else "g")
    else (if signed then "n" else "h")
  }

  function FloatCode(w: Types.FloatWidth): string
  {
    match w
    case IeeeSingle => "p"
    case IeeeDouble => "q"
    case IeeeQuadruple => "r"
  }

  /** The encoding of a user-defined (U) or dyn (D) type before substitution. */
  function NamedEncoding(dyn: bool, id: QualifiedName): string
  {
    NameCode(dyn, ModuleParts(id.moduleString), id.name)
  }

  /** build_module_prefix, then the tag and the length-prefixed name. */
  function NameCode(dyn: bool, parts: seq<string>, name: string): string
  {
    PartsPrefix(parts) + (if dyn then "D" else "U") + LenPrefixed(name)
  }

  /** What the mangler has written for one type, and its substitution table and counter afterwards. */
  datatype Encoded = Encoded(text: string, subs: map<string, nat>, code: nat)

  /**
   * The substitution step of `mangle`: an encoding seen before is replaced
   * by "Z<code>_"; a new one is registered under the next code.
   */
  function Substitute(enc: string, subs: map<string, nat>, code: nat): (r: Encoded)
    requires |enc| > 0
    ensures enc in subs ==> r.text == "Z" + Dec(subs[enc]) + "_" && r.subs == subs && r.code == code
    ensures enc !in subs ==> r.text == enc && r.subs == subs[enc := code] && r.code == code + 1
  {
    if enc in subs then Encoded("Z" + Dec(subs[enc]) + "_", subs, code)
    else Encoded(enc, subs[enc := code], code + 1)
  }

  /**
   * What `mangle` appends for a type, given the substitution table and the
   * counter: the encoding is never empty and never starts with the 'E'
   * that closes an argument list, and each new code costs at least one
   * character of output.
   */
  function EncodeType(t: Type, subs: map<string, nat>, code: nat): (r: Encoded)
    requires Mangleable(t)
    ensures |r.text| > 0 && r.text[0] != 'E'
    ensures code <= r.code <= code + |r.text|
    decreases t
  {
    match t
    case ReferenceType(_, mut, inner) =>
      var e := EncodeType(inner, subs, code);
      e.(text := (if mut then "S" else "R") + e.text)
    case SliceType(_, mut, inner) =>
      var e := EncodeType(inner, subs, code);
      e.(text := (if mut then "C" else "B") + e.text)
    case PointerType(_, mut, inner) =>
      var e := EncodeType(inner, subs, code);
      e.(text := (if mut then "Q" else "P") + e.text)
    case IntegralType(_, signed, w) => Encoded(IntegralCode(signed, w), subs, code)
    case FloatType(_, w) => Encoded(FloatCode(w), subs, code)
    case ByteType(_) => Encoded("a", subs, code)
    case BoolType(_) => Encoded("b", subs, code)
    case CharType(_) => Encoded("c", subs, code)
    case VoidType(_) => Encoded("v", subs, code)
    case UserType(_, id, _) => Substitute(NamedEncoding(false, id), subs, code)
    case DynType(_, id, _) => Substitute(NamedEncoding(true, id), subs, code)
    case FnPointerType(_, args, ret) =>
      var a := EncodeTypes(args, subs, code);
      var r := EncodeType(ret, a.subs, a.code);
      Encoded("FN" + a.text + "E" + r.text, r.subs, r.code)
    case ArrayType(_, size, element) =>
      var e := EncodeType(element, subs, code);
      e.(text := "A" + e.text + Dec(size) + "_")
  }

  /** The encodings of a list of types, one after the other, threading the table. */
  function EncodeTypes(ts: seq<Type>, subs: map<string, nat>, code: nat): (r: Encoded)
    requires AllMangleable(ts)
    ensures |ts| > 0 ==> |r.text| > 0 && r.text[0] != 'E'
    ensures code <= r.code <= code + |r.text|
    decreases ts
  {
    if |ts| == 0 then Encoded("", subs, code)
    else
      var h := EncodeType(ts[0], subs, code);
      var rest := EncodeTypes(ts[1..], h.subs, h.code);
      Encoded(h.text + rest.text, rest.subs, rest.code)
  }

  /** The argument types of a prototype, in order. */
  function ArgTypes(args: seq<Ast.Argument>): (r: seq<Type>)
    ensures |r| == |args| && forall i :: 0 <= i < |args| ==> r[i] == args[i].argType
  {
    if |args| == 0 then [] else [args[0].argType] + ArgTypes(args[1..])
  }

  /** The throws attribute is present. */
  predicate CanThrow(proto: Ast.FnPrototype)
  {
    exists i :: 0 <= i < |proto.attributes| && proto.attributes[i].kind == Ast.BuiltinThrows
  }

  /** A prototype the mangler can encode in the module `moduleString`. */
  predicate MangleableFn(moduleString: string, proto: Ast.FnPrototype)
  {
    ValidName(proto.name) && ValidParts(ModuleParts(moduleString))
    && AllMangleable(ArgTypes(proto.args)) && Mangleable(proto.returnType)
  }

  /** The symbol of a non-extern function, before the special case for main. */
  function FnSymbol(moduleString: string, proto: Ast.FnPrototype): (r: string)
    requires MangleableFn(moduleString, proto)
    ensures |r| >= 3 && r[..2] == "_G"
  {
    "_G" + (PartsPrefix(ModuleParts(moduleString)) + FnBody(proto))
  }

  /** What follows the module prefix in a function's symbol: name, throws flag, argument types, return type. */
  function FnBody(proto: Ast.FnPrototype): (r: string)
    requires AllMangleable(ArgTypes(proto.args)) && Mangleable(proto.returnType)
    ensures |r| > 0 && r[0] == 'F'
  {
    var a := EncodeTypes(ArgTypes(proto.args), map[], 0);
    var ret := EncodeType(proto.returnType, a.subs, a.code);
    "F" + (LenPrefixed(proto.name) + ((if CanThrow(proto) then "T" else "N") + (a.text + ("E" + ret.text))))
  }

  /** The symbol of a constant. */
  function ConstSymbol(moduleString: string, name: string, hint: Type): (r: string)
    requires Mangleable(hint)
    ensures |r| >= 3 && r[..2] == "_G"
  {
    "_G" + (PartsPrefix(ModuleParts(moduleString)) + ConstBody(name, hint))
  }

  /** What follows the module prefix in a constant's symbol: name and type. */
  function ConstBody(name: string, hint: Type): (r: string)
    requires Mangleable(hint)
    ensures |r| > 0 && r[0] == 'C'
  {
    "C" + (LenPrefixed(name) + EncodeType(hint, map[], 0).text)
  }

  const UserMain := "__gallium_user_main"
  const MainSymbol := "_GF4mainNEv"

  /** The declarations `mangle` accepts; imports, structs, classes, type aliases, methods and extern blocks assert. */
  predicate MangleableDecl(d: Ast.Decl, id: QualifiedName)
  {
    match d.node
    case Fn(external, proto, _) => external || MangleableFn(id.moduleString, proto)
    case ExternalFn(_) => true
    case Constant(name, hint, _) => ValidName(name) && ValidParts(ModuleParts(id.moduleString)) && Mangleable(hint)
    case _ => false
  }

  /**
   * gal::mangle for a declaration whose id is `id`: extern functions keep
   * their plain name, the root module's `main` gets the runtime's entry
   * name, everything else its encoded symbol.
   */
  function Symbol(d: Ast.Decl, id: QualifiedName): (r: string)
    requires MangleableDecl(d, id)
    ensures d.node.ExternalFn? || (d.node.Fn? && d.node.external) ==> r == d.node.proto.name
    ensures d.node.Fn? && !d.node.external ==> r == UserMain || r == FnSymbol(id.moduleString, d.node.proto)
  {
    match d.node
    case Fn(external, proto, _) =>
      if external then proto.name
      else var s := FnSymbol(id.moduleString, proto); if s == MainSymbol then UserMain else s
    case ExternalFn(proto) => proto.name
    case Constant(name, hint, _) => ConstSymbol(id.moduleString, name, hint)
  }

  // ---------------------------------------------------------------------
  // What a symbol demangles to.

  function IntegralName(signed: bool, w: Types.IntegerWidth): string
    requires w.NativeWidth? || w.bits in {8, 16, 32, 64, 128}
  {
    if w.NativeWidth? then (if signed then "isize" else "usize")
    else if w.bits == 8 then (if signed then "i8" else "u8")
    else if w.bits == 16 then (if signed then "i16" else "u16")
    else if w.bits == 32 then (if signed then "i32" else "u32")
    else if w.bits == 64 then (if signed then "i64" else "u64")
    else (if signed then "i128" else "u128")
  }

  function FloatName(w: Types.FloatWidth): string
  {
    match w
    case IeeeSingle => "f32"
    case IeeeDouble => "f64"
    case IeeeQuadruple => "f128"
  }

  function RenderNamed(dyn: bool, id: QualifiedName): string
  {
    NameText(dyn, ModuleParts(id.moduleString), id.name)
  }

  function NameText(dyn: bool, parts: seq<string>, name: string): string
  {
    (if dyn then "dyn " else "") + "::" + PartsText(parts) + name
  }

  /** A fixed-size array type: element type and size. */
  function ArrayText(element: string, size: nat): string
  {
    "[" + element + "; " + Dec(size) + "]"
  }

  /** A function pointer type: argument list, throws flag and return type. */
  function FnPointerText(args: string, throws: bool, ret: string): string
  {
    "fn(" + args + (if throws then ") throws -> " else ") -> ") + ret
  }

  /** A type in Gallium's own syntax, as the demangler spells it. */
  function Render(t: Type): string
    requires Mangleable(t)
    decreases t
  {
    match t
    case ReferenceType(_, mut, inner) => (if mut then "&mut " else "&") + Render(inner)
    case SliceType(_, mut, inner) => (if mut then "[mut " else "[") + Render(inner) + "]"
    case PointerType(_, mut, inner) => (if mut then "*mut " else "*const ") + Render(inner)
    case IntegralType(_, signed, w) => IntegralName(signed, w)
    case FloatType(_, w) => FloatName(w)
    case ByteType(_) => "byte"
    case BoolType(_) => "bool"
    case CharType(_) => "char"
    case VoidType(_) => "void"
    case UserType(_, id, _) => RenderNamed(false, id)
    case DynType(_, id, _) => RenderNamed(true, id)
    case FnPointerType(_, args, ret) => FnPointerText(Join(RenderAll(args), ", "), false, Render(ret))
    case ArrayType(_, size, element) => ArrayText(Render(element), size)
  }

  function RenderAll(ts: seq<Type>): (r: seq<string>)
    requires AllMangleable(ts)
    ensures |r| == |ts|
    decreases ts
  {
    if |ts| == 0 then [] else [Render(ts[0])] + RenderAll(ts[1..])
  }

  /** The signature of a non-extern function. */
  function FnSignature(moduleString: string, proto: Ast.FnPrototype): string
    requires MangleableFn(moduleString, proto)
  {
    "fn " + ModuleText(moduleString) + proto.name + "(" + Join(RenderAll(ArgTypes(proto.args)), ", ") + ")"
    + (if CanThrow(proto) then " throws -> " else " -> ") + Render(proto.returnType)
  }

  /** The signature of a constant. */
  function ConstSignature(moduleString: string, name: string, hint: Type): string
    requires Mangleable(hint)
  {
    "const " + ModuleText(moduleString) + name + ": " + Render(hint)
  }

  // ---------------------------------------------------------------------
  // Demangling, as functions over the part of the symbol not yet read.
  //
  // Each parser takes what remains after the cursor and gives back what it
  // appends and what remains after it. A read past the end of the symbol,
  // which the source leaves undefined, makes the parse fail; a digit test
  // there sees no digit, as the string's terminating NUL would. A failed
  // parse is also what a missing substitution (`at` throws), a number that
  // does not fit a std::uint64_t (`std::get` throws) and `assert(false)`
  // become.

  datatype Number = Number(value: nat, rest: string)
  datatype Piece = Piece(text: string, rest: string)
  datatype Parsed = Parsed(text: string, rest: string, subs: seq<string>)

  predicate StartsWithDigit(r: string)
  {
    |r| > 0 && IsDigit(r[0])
  }

  /** digits(): the run of digits in front, parsed by from_digits. */
  function ParseDigits(r: string): (o: Option<Number>)
    ensures o.Some? ==> |o.value.rest| < |r| && !StartsWithDigit(o.value.rest)
  {
    ScanDigits(r, 0)
  }

  /** The scan of digits(): the cursor moves past digits, then the text before it is converted. */
  function ScanDigits(r: string, k: nat): (o: Option<Number>)
    requires k <= |r|
    ensures o.Some? ==> |o.value.rest| < |r| && !StartsWithDigit(o.value.rest)
    decreases |r| - k
  {
    if k < |r| && IsDigit(r[k]) then ScanDigits(r, k + 1)
    else match Misc.FromDigits(r[..k], 10)
      case Ok(v) => Some(Number(v, r[k..]))
      case Err(_) => None
  }

  /** part_with_len(): a length, then that many characters. */
  function ParsePart(r: string): (o: Option<Piece>)
    ensures o.Some? ==> |o.value.rest| < |r|
  {
    match ParseDigits(r)
    case None => None
    case Some(n) => if n.value <= |n.rest| then Some(Piece(n.rest[..n.value], n.rest[n.value..])) else None
  }

  /** module_part(): length-prefixed parts for as long as a digit follows, each written with "::". */
  function ParseModulePart(r: string): (o: Option<Piece>)
    ensures o.Some? ==> |o.value.rest| <= |r| && !StartsWithDigit(o.value.rest)
    ensures o.Some? && StartsWithDigit(r) ==> |o.value.rest| < |r|
    decreases |r|
  {
    if !StartsWithDigit(r) then Some(Piece("", r))
    else match ParsePart(r)
      case None => None
      case Some(p) =>
        match ParseModulePart(p.rest)
        case None => None
        case Some(q) => Some(Piece(p.text + "::" + q.text, q.rest))
  }

  /** The default branch of type(): module parts, then U or D and the name. */
  function ParseNamed(r: string): (o: Option<Piece>)
    ensures o.Some? ==> |o.value.rest| < |r|
  {
    match ParseModulePart(r)
    case None => None
    case Some(m) =>
      if |m.rest| > 0 && (m.rest[0] == 'U' || m.rest[0] == 'D') then
        match ParsePart(m.rest[1..])
        case None => None
        case Some(n) => Some(Piece((if m.rest[0] == 'D' then "dyn " else "") + "::" + m.text + n.text, n.rest))
      else None
  }

  /** The demangler's table of one-letter builtin codes. */
  function BuiltinName(c: char): Option<string>
  {
    match c
    case 'v' => Some("void")
    case 'a' => Some("byte")
    case 'b' => Some("bool")
    case 'c' => Some("char")
    case 'd' => Some("u8")
    case 'e' => Some("u16")
    case 'f' => Some("u32")
    case 'g' => Some("u64")
    case 'h' => Some("u128")
    case 'i' => Some("usize")
    case 'j' => Some("i8")
    case 'k' => Some("i16")
    case 'l' => Some("i32")
    case 'm' => Some("i64")
    case 'n' => Some("i128")
    case 'o' => Some("isize")
    case 'p' => Some("f32")
    case 'q' => Some("f64")
    case 'r' => Some("f128")
    case _ => None
  }

  /** Wraps the text of a successful parse. */
  function Then(prefix: string, r: Option<Parsed>, suffix: string): (o: Option<Parsed>)
    ensures o.Some? <==> r.Some?
    ensures o.Some? ==> o.value == r.value.(text := prefix + r.value.text + suffix)
  {
    match r
    case None => None
    case Some(p) => Some(p.(text := prefix + p.text + suffix))
  }

  /**
   * type(): one type in front, the text it appends and the substitution
   * list afterwards. A user-defined or dyn type read in full is pushed onto
   * the list; "Z<k>_" reads back the k-th entry.
   */
  function ParseType(r: string, subs: seq<string>): (o: Option<Parsed>)
    ensures o.Some? ==> |o.value.rest| < |r|
    decreases |r|, 1
  {
    if |r| == 0 then None
    else if BuiltinName(r[0]).Some? then Some(Parsed(BuiltinName(r[0]).value, r[1..], subs))
    else match r[0]
      case 'P' => Then("*const ", ParseType(r[1..], subs), "")
      case 'Q' => Then("*mut ", ParseType(r[1..], subs), "")
      case 'R' => Then("&", ParseType(r[1..], subs), "")
      case 'S' => Then("&mut ", ParseType(r[1..], subs), "")
      case 'A' => ParseArray(r[1..], subs)
      case 'B' => Then("[", ParseType(r[1..], subs), "]")
      case 'C' => Then("[mut ", ParseType(r[1..], subs), "]")
      case 'F' => ParseFnPointer(r[1..], subs)
      case 'Z' => ParseSubstitution(r[1..], subs)
      case _ =>
        match ParseNamed(r)
        case None => None
        case Some(n) => Some(Parsed(n.text, n.rest, subs + [n.text]))
  }

  /** The 'A' case of type(), after the 'A': element type, size, and the '_' it steps over. */
  function ParseArray(r: string, subs: seq<string>): (o: Option<Parsed>)
    ensures o.Some? ==> |o.value.rest| < |r|
    decreases |r|, 2
  {
    match ParseType(r, subs)
    case None => None
    case Some(e) =>
      match ParseDigits(e.rest)
      case None => None
      case Some(n) => if |n.rest| > 0 then Some(Parsed(ArrayText(e.text, n.value), n.rest[1..], e.subs)) else None
  }

  /** The 'F' case of type(), after the 'F': throws flag, arguments up to 'E', return type. */
  function ParseFnPointer(r: string, subs: seq<string>): (o: Option<Parsed>)
    ensures o.Some? ==> |o.value.rest| < |r|
    decreases |r|, 3
  {
    if |r| == 0 then None
    else
      match ParseArgs(r[1..], subs)
      case None => None
      case Some(a) =>
        match ParseType(a.rest[1..], a.subs)
        case None => None
        case Some(ret) => Some(Parsed(FnPointerText(a.text, r[0] == 'T', ret.text), ret.rest, ret.subs))
  }

  /**
   * The 'Z' case of type(), after the 'Z': the recorded entry under the
   * index (`at` throws on a missing one) and the '_' it steps over.
   */
  function ParseSubstitution(r: string, subs: seq<string>): (o: Option<Parsed>)
    ensures o.Some? ==> |o.value.rest| < |r|
  {
    match ParseDigits(r)
    case None => None
    case Some(n) => if n.value < |subs| && |n.rest| > 0 then Some(Parsed(subs[n.value], n.rest[1..], subs)) else None
  }

  /**
   * The argument loop of function() and of type()'s 'F' case: types until an
   * 'E', separated by ", ". What remains starts with that 'E'.
   */
  function ParseArgs(r: string, subs: seq<string>): (o: Option<Parsed>)
    ensures o.Some? ==> 0 < |o.value.rest| <= |r| && o.value.rest[0] == 'E'
    decreases |r|, 2
  {
    if |r| == 0 then None
    else if r[0] == 'E' then Some(Parsed("", r, subs))
    else match ParseType(r, subs)
      case None => None
      case Some(t) =>
        if |t.rest| == 0 then None
        else Then(t.text + (if t.rest[0] == 'E' then "" else ", "), ParseArgs(t.rest, t.subs), "")
  }

  /** function(): name, throws flag, arguments and return type, after the module text `acc`. */
  function ParseFunction(r: string, acc: string): Option<string>
    requires |r| > 0
  {
    match ParsePart(r[1..])
    case None => None
    case Some(name) =>
      if |name.rest| == 0 then None
      else
        match ParseArgs(name.rest[1..], [])
        case None => None
        case Some(a) =>
          match ParseType(a.rest[1..], a.subs)
          case None => None
          case Some(ret) =>
            Some("fn " + acc + name.text + "(" + a.text + ")" + (if name.rest[0] == 'T' then " throws -> " else " -> ") + ret.text)
  }

  /** constant(): name and type, after the module text `acc`. */
  function ParseConstant(r: string, acc: string): Option<string>
    requires |r| > 0
  {
    match ParsePart(r[1..])
    case None => None
    case Some(name) =>
      match ParseType(name.rest, [])
      case None => None
      case Some(t) => Some("const " + acc + name.text + ": " + t.text)
  }

  /**
   * The loop of demangle(): module parts until an 'F' or a 'C'. Running off
   * the end is the source's assert(false). On any other character the
   * source's loop makes no progress and never ends (see
   * `TopLoopStalls`); here the parse fails.
   */
  function ParseTop(r: string, acc: string): Option<string>
    decreases |r|
  {
    if |r| == 0 then None
    else if r[0] == 'F' then ParseFunction(r, acc)
    else if r[0] == 'C' then ParseConstant(r, acc)
    else if !IsDigit(r[0]) then None
    else match ParseModulePart(r)
      case None => None
      case Some(m) => ParseTop(m.rest, acc + m.text)
  }

  /**
   * One pass of demangle()'s loop as written, on a character other than
   * 'F' and 'C': module_part() reads parts for as long as a digit follows
   * and reads nothing otherwise. The result is what remains afterwards.
   */
  function TopPassAsWritten(r: string): (o: Option<string>)
    requires |r| > 0 && r[0] != 'F' && r[0] != 'C'
    ensures o.Some? ==> |o.value| <= |r|
  {
    if !StartsWithDigit(r) then Some(r)
    else match ParseModulePart(r)
      case None => None
      case Some(m) => Some(m.rest)
  }

  /**
   * On a character that is none of 'F', 'C' or a digit, a pass of the loop
   * as written leaves the cursor where it was, so the loop runs forever;
   * `ParseTop` rejects such a symbol instead.
   */
  lemma TopLoopStalls(r: string, acc: string)
    requires |r| > 0 && r[0] != 'F' && r[0] != 'C' && !IsDigit(r[0])
    ensures TopPassAsWritten(r) == Some(r)
    ensures ParseTop(r, acc) == None
  {
  }

  /**
   * "_GLOBAL__sub_I_main", the name the C++ toolchain gives a static
   * initialiser, passes the "_G" test and then stalls the loop at the 'L'.
   */
  lemma GlobalInitializerStalls()
    ensures var s := "_GLOBAL__sub_I_main";
            !Unmangled(s) && s[2..] == "LOBAL__sub_I_main"
            && TopPassAsWritten(s[2..]) == Some(s[2..]) && Demangled(s) == None
  {
    var s := "_GLOBAL__sub_I_main";
    assert s[2..] == "LOBAL__sub_I_main";
    assert UserMain[1] == '_';
    TopLoopStalls(s[2..], "::");
  }

  /** A string the demangler does not treat as a Gallium symbol. */
  predicate Unmangled(s: string)
  {
    s != UserMain && (|s| < 3 || s[0] != '_' || s[1] != 'G')
  }

  /**
   * gal::demangle: the runtime's entry name maps to main's signature; a
   * string shorter than three characters or without the "_G" prefix comes
   * back unchanged; anything else is parsed after the prefix.
   */
  function Demangled(s: string): (r: Option<string>)
    ensures s == UserMain ==> r == Some("fn ::main() -> void")
    ensures Unmangled(s) ==> r == Some(s)
  {
    if s == UserMain then Some("fn ::main() -> void")
    else if |s| < 3 || s[0] != '_' || s[1] != 'G' then Some(s)
    else ParseTop(s[2..], "::")
  }

  // ---------------------------------------------------------------------
  // Round trip: what the mangler writes, the demangler reads back as the
  // declaration's signature.

  lemma {:induction false} ScanDigitsTo(r: string, k: nat, e: nat)
    requires k <= e <= |r| && (e == |r| || !IsDigit(r[e]))
    requires forall i :: k <= i < e ==> IsDigit(r[i])
    ensures ScanDigits(r, k) == ScanDigits(r, e)
    decreases e - k
  {
    if k < e {
      ScanDigitsTo(r, k + 1, e);
    }
  }

  /** A decimal number reads back as itself when no digit follows it. */
  lemma DecRoundTrip(n: nat, rest: string)
    requires n < Misc.Uint64Limit && !StartsWithDigit(rest)
    ensures ParseDigits(Dec(n) + rest) == Some(Number(n, rest))
  {
    var d := Dec(n);
    var r := d + rest;
    DecDigits(n);
    assert forall i :: 0 <= i < |d| ==> IsDigit(r[i]);
    ScanDigitsTo(r, 0, |d|);
    assert r[..|d|] == d;
    assert r[|d|..] == rest;
    Misc.FromDigitsRoundTrip(n, 10);
  }

  /** A length-prefixed name reads back as the name. */
  lemma PartRoundTrip(p: string, rest: string)
    requires ValidName(p)
    ensures ParsePart(LenPrefixed(p) + rest) == Some(Piece(p, rest))
  {
    assert LenPrefixed(p) + rest == Dec(|p|) + (p + rest);
    DecRoundTrip(|p|, p + rest);
    assert (p + rest)[..|p|] == p;
    assert (p + rest)[|p|..] == rest;
  }

  /** A module prefix reads back as the module text when no digit follows it. */
  lemma {:induction false} ModulePartRoundTrip(parts: seq<string>, rest: string)
    requires ValidParts(parts) && !StartsWithDigit(rest)
    ensures ParseModulePart(PartsPrefix(parts) + rest) == Some(Piece(PartsText(parts), rest))
    decreases parts
  {
    if |parts| > 0 {
      var tail := PartsPrefix(parts[1..]) + rest;
      assert PartsPrefix(parts) + rest == LenPrefixed(parts[0]) + tail;
      PartRoundTrip(parts[0], tail);
      ModulePartRoundTrip(parts[1..], rest);
    } else {
      assert PartsPrefix(parts) + rest == rest;
    }
  }

  /** A user-defined or dyn type's encoding reads back as its rooted name. */
  lemma NamedRoundTrip(dyn: bool, parts: seq<string>, name: string, rest: string)
    requires ValidParts(parts) && ValidName(name)
    ensures ParseNamed(NameCode(dyn, parts, name) + rest) == Some(Piece(NameText(dyn, parts, name), rest))
  {
    var tag := if dyn then "D" else "U";
    var after := tag + (LenPrefixed(name) + rest);
    assert NameCode(dyn, parts, name) + rest == PartsPrefix(parts) + after;
    ModulePartRoundTrip(parts, after);
    assert after[1..] == LenPrefixed(name) + rest;
    PartRoundTrip(name, rest);
  }

  /** The text the demangler records for a substitution key. */
  function NamedText(k: string): string
  {
    match ParseNamed(k)
    case Some(p) => p.text
    case None => ""
  }

  lemma NamedTextOfCode(dyn: bool, parts: seq<string>, name: string)
    requires ValidParts(parts) && ValidName(name)
    ensures NamedText(NameCode(dyn, parts, name)) == NameText(dyn, parts, name)
  {
    var enc := NameCode(dyn, parts, name);
    assert enc + "" == enc;
    NamedRoundTrip(dyn, parts, name, "");
  }

  /**
   * The mangler's table and the demangler's list agree: the list has one
   * entry per code, and the entry under a key's code is what the demangler
   * reads from that key.
   */
  predicate SubsAgree(subs: map<string, nat>, code: nat, list: seq<string>)
  {
    |list| == code && forall k :: k in subs ==> subs[k] < code && list[subs[k]] == NamedText(k)
  }

  /** A named type reads back as its rooted name, whether written out or substituted. */
  lemma NamedSubstRoundTrip(dyn: bool, parts: seq<string>, name: string, subs: map<string, nat>, code: nat,
                            list: seq<string>, rest: string)
    requires ValidParts(parts) && ValidName(name) && SubsAgree(subs, code, list)
    requires code + |Substitute(NameCode(dyn, parts, name), subs, code).text| <= Misc.Uint64Limit
    ensures var e := Substitute(NameCode(dyn, parts, name), subs, code);
            var r := ParseType(e.text + rest, list);
            r.Some? && r.value.text == NameText(dyn, parts, name) && r.value.rest == rest
            && SubsAgree(e.subs, e.code, r.value.subs)
  {
    var enc := NameCode(dyn, parts, name);
    NamedTextOfCode(dyn, parts, name);
    if enc in subs {
      SubstitutedRoundTrip(enc, subs, code, list, rest);
    } else {
      WrittenOutRoundTrip(dyn, parts, name, list, rest);
      SubsAgreeExtend(enc, subs, code, list);
    }
  }

  /** A substitution reference reads back as the text recorded under its code. */
  lemma SubstitutedRoundTrip(enc: string, subs: map<string, nat>, code: nat, list: seq<string>, rest: string)
    requires enc in subs && SubsAgree(subs, code, list) && code <= Misc.Uint64Limit
    ensures ParseType("Z" + Dec(subs[enc]) + "_" + rest, list) == Some(Parsed(NamedText(enc), rest, list))
  {
    var k := subs[enc];
    var r := "Z" + Dec(k) + "_" + rest;
    assert r[1..] == Dec(k) + ("_" + rest);
    DecRoundTrip(k, "_" + rest);
    ParseSubstitutionStep(r, list, Number(k, "_" + rest));
    assert ("_" + rest)[1..] == rest;
  }

  /** A named type written out reads back as its rooted name, which the demangler records. */
  lemma WrittenOutRoundTrip(dyn: bool, parts: seq<string>, name: string, list: seq<string>, rest: string)
    requires ValidParts(parts) && ValidName(name)
    ensures ParseType(NameCode(dyn, parts, name) + rest, list)
         == Some(Parsed(NameText(dyn, parts, name), rest, list + [NameText(dyn, parts, name)]))
  {
    var r := NameCode(dyn, parts, name) + rest;
    var prefix := PartsPrefix(parts);
    assert r[0] == (if |prefix| > 0 then prefix[0] else if dyn then 'D' else 'U');
    NamedRoundTrip(dyn, parts, name, rest);
    ParseNamedTypeStep(r, list, Piece(NameText(dyn, parts, name), rest));
  }

  /** Registering a new key under the next code on both sides keeps the tables in step. */
  lemma SubsAgreeExtend(enc: string, subs: map<string, nat>, code: nat, list: seq<string>)
    requires enc !in subs && SubsAgree(subs, code, list)
    ensures SubsAgree(subs[enc := code], code + 1, list + [NamedText(enc)])
  {
    var list' := list + [NamedText(enc)];
    var subs' := subs[enc := code];
    forall k | k in subs'
      ensures subs'[k] < code + 1 && list'[subs'[k]] == NamedText(k)
    {
    }
  }

  /** Every type reads back as its rendering, and the two tables stay in step. */
  lemma {:induction false} TypeRoundTrip(t: Type, subs: map<string, nat>, code: nat, list: seq<string>, rest: string)
    requires Mangleable(t) && SubsAgree(subs, code, list)
    requires code + |EncodeType(t, subs, code).text| <= Misc.Uint64Limit
    ensures var e := EncodeType(t, subs, code);
            var r := ParseType(e.text + rest, list);
            r.Some? && r.value.text == Render(t) && r.value.rest == rest && SubsAgree(e.subs, e.code, r.value.subs)
    decreases t, 1
  {
    match t
    case ReferenceType(_, _, inner) => ReferenceRoundTrip(t, subs, code, list, rest);
    case SliceType(_, _, inner) => SliceRoundTrip(t, subs, code, list, rest);
    case PointerType(_, _, inner) => PointerRoundTrip(t, subs, code, list, rest);
    case UserType(_, id, _) => NamedSubstRoundTrip(false, ModuleParts(id.moduleString), id.name, subs, code, list, rest);
    case DynType(_, id, _) => NamedSubstRoundTrip(true, ModuleParts(id.moduleString), id.name, subs, code, list, rest);
    case FnPointerType(_, args, ret) => FnPointerRoundTrip(t, subs, code, list, rest);
    case ArrayType(_, size, element) => ArrayRoundTrip(t, subs, code, list, rest);
    case _ => LeafRoundTrip(t, subs, code, list, rest);
  }

  /** Builtin scalar types: a fixed code that reads back as the type's name, tables untouched. */
  lemma LeafRoundTrip(t: Type, subs: map<string, nat>, code: nat, list: seq<string>, rest: string)
    requires t.IntegralType? || t.FloatType? || t.ByteType? || t.BoolType? || t.CharType? || t.VoidType?
    requires Mangleable(t) && SubsAgree(subs, code, list)
    ensures var e := EncodeType(t, subs, code);
            var r := ParseType(e.text + rest, list);
            r.Some? && r.value.text == Render(t) && r.value.rest == rest && SubsAgree(e.subs, e.code, r.value.subs)
    decreases t, 0
  {
    var e := EncodeType(t, subs, code);
    BuiltinCode(t, subs, code);
    assert (e.text + rest)[0] == e.text[0] && (e.text + rest)[1..] == rest;
  }

  /** A builtin scalar type is written as one letter that names it. */
  lemma BuiltinCode(t: Type, subs: map<string, nat>, code: nat)
    requires t.IntegralType? || t.FloatType? || t.ByteType? || t.BoolType? || t.CharType? || t.VoidType?
    requires Mangleable(t)
    ensures var e := EncodeType(t, subs, code);
            |e.text| == 1 && BuiltinName(e.text[0]) == Some(Render(t)) && e.subs == subs && e.code == code
  {
    match t
    case IntegralType(_, signed, w) =>
    case FloatType(_, w) =>
    case _ =>
  }

  /** References: `R` or `S`, then the referenced type. */
  lemma {:induction false} ReferenceRoundTrip(t: Type, subs: map<string, nat>, code: nat, list: seq<string>, rest: string)
    requires t.ReferenceType? && Mangleable(t) && SubsAgree(subs, code, list)
    requires code + |EncodeType(t, subs, code).text| <= Misc.Uint64Limit
    ensures var e := EncodeType(t, subs, code);
            var r := ParseType(e.text + rest, list);
            r.Some? && r.value.text == Render(t) && r.value.rest == rest && SubsAgree(e.subs, e.code, r.value.subs)
    decreases t, 0
  {
    var x := EncodeType(t.referenced, subs, code);
    var r := EncodeType(t, subs, code).text + rest;
    assert r == (if t.mut then "S" else "R") + (x.text + rest);
    assert r[1..] == x.text + rest;
    TypeRoundTrip(t.referenced, subs, code, list, rest);
    ParseWrappedStep(r, list);
  }

  /** Slices: `B` or `C`, then the element type. */
  lemma {:induction false} SliceRoundTrip(t: Type, subs: map<string, nat>, code: nat, list: seq<string>, rest: string)
    requires t.SliceType? && Mangleable(t) && SubsAgree(subs, code, list)
    requires code + |EncodeType(t, subs, code).text| <= Misc.Uint64Limit
    ensures var e := EncodeType(t, subs, code);
            var r := ParseType(e.text + rest, list);
            r.Some? && r.value.text == Render(t) && r.value.rest == rest && SubsAgree(e.subs, e.code, r.value.subs)
    decreases t, 0
  {
    var x := EncodeType(t.sliced, subs, code);
    var r := EncodeType(t, subs, code).text + rest;
    assert r == (if t.mut then "C" else "B") + (x.text + rest);
    assert r[1..] == x.text + rest;
    TypeRoundTrip(t.sliced, subs, code, list, rest);
    ParseWrappedStep(r, list);
  }

  /** Pointers: `P` or `Q`, then the pointed-to type. */
  lemma {:induction false} PointerRoundTrip(t: Type, subs: map<string, nat>, code: nat, list: seq<string>, rest: string)
    requires t.PointerType? && Mangleable(t) && SubsAgree(subs, code, list)
    requires code + |EncodeType(t, subs, code).text| <= Misc.Uint64Limit
    ensures var e := EncodeType(t, subs, code);
            var r := ParseType(e.text + rest, list);
            r.Some? && r.value.text == Render(t) && r.value.rest == rest && SubsAgree(e.subs, e.code, r.value.subs)
    decreases t, 0
  {
    var x := EncodeType(t.pointed, subs, code);
    var r := EncodeType(t, subs, code).text + rest;
    assert r == (if t.mut then "Q" else "P") + (x.text + rest);
    assert r[1..] == x.text + rest;
    TypeRoundTrip(t.pointed, subs, code, list, rest);
    ParseWrappedStep(r, list);
  }

  lemma {:induction false} FnPointerRoundTrip(t: Type, subs: map<string, nat>, code: nat, list: seq<string>, rest: string)
    requires t.FnPointerType? && Mangleable(t) && SubsAgree(subs, code, list)
    requires code + |EncodeType(t, subs, code).text| <= Misc.Uint64Limit
    ensures var e := EncodeType(t, subs, code);
            var r := ParseType(e.text + rest, list);
            r.Some? && r.value.text == Render(t) && r.value.rest == rest && SubsAgree(e.subs, e.code, r.value.subs)
    decreases t, 0
  {
    var a := EncodeTypes(t.args, subs, code);
    var ret := EncodeType(t.ret, a.subs, a.code);
    var afterArgs := "E" + (ret.text + rest);
    var r := EncodeType(t, subs, code).text + rest;
    assert r == "FN" + (a.text + afterArgs);
    assert r[2..] == a.text + afterArgs;
    ArgsRoundTrip(t.args, subs, code, list, afterArgs);
    var pa := ParseArgs(a.text + afterArgs, list).value;
    assert afterArgs[1..] == ret.text + rest;
    TypeRoundTrip(t.ret, a.subs, a.code, pa.subs, rest);
    ParseFnPointerStep(r, list, pa, ParseType(ret.text + rest, pa.subs).value);
  }

  lemma {:induction false} ArrayRoundTrip(t: Type, subs: map<string, nat>, code: nat, list: seq<string>, rest: string)
    requires t.ArrayType? && Mangleable(t) && SubsAgree(subs, code, list)
    requires code + |EncodeType(t, subs, code).text| <= Misc.Uint64Limit
    ensures var e := EncodeType(t, subs, code);
            var r := ParseType(e.text + rest, list);
            r.Some? && r.value.text == Render(t) && r.value.rest == rest && SubsAgree(e.subs, e.code, r.value.subs)
    decreases t, 0
  {
    var x := EncodeType(t.element, subs, code);
    var afterElement := Dec(t.size) + ("_" + rest);
    var r := EncodeType(t, subs, code).text + rest;
    assert r == "A" + (x.text + afterElement);
    TypeRoundTrip(t.element, subs, code, list, afterElement);
    DecRoundTrip(t.size, "_" + rest);
    var inner := ParseType(x.text + afterElement, list).value;
    ParseArrayStep(r, list, inner, Number(t.size, "_" + rest));
    assert ("_" + rest)[1..] == rest;
  }

  /** One unfolding of `ParseType` on an array. */
  lemma ParseArrayStep(r: string, list: seq<string>, inner: Parsed, n: Number)
    requires |r| > 0 && r[0] == 'A'
    requires ParseType(r[1..], list) == Some(inner)
    requires ParseDigits(inner.rest) == Some(n) && |n.rest| > 0
    ensures ParseType(r, list) == Some(Parsed(ArrayText(inner.text, n.value), n.rest[1..], inner.subs))
  {
  }

  /** One unfolding of `ParseType` on a function pointer. */
  lemma ParseFnPointerStep(r: string, list: seq<string>, args: Parsed, ret: Parsed)
    requires |r| >= 2 && r[0] == 'F'
    requires ParseArgs(r[2..], list) == Some(args)
    requires ParseType(args.rest[1..], args.subs) == Some(ret)
    ensures ParseType(r, list) == Some(Parsed(FnPointerText(args.text, r[1] == 'T', ret.text), ret.rest, ret.subs))
  {
  }

  /** One unfolding of `ParseType` on a reference, slice or pointer. */
  lemma ParseWrappedStep(r: string, list: seq<string>)
    requires |r| > 0
    ensures r[0] == 'P' ==> ParseType(r, list) == Then("*const ", ParseType(r[1..], list), "")
    ensures r[0] == 'Q' ==> ParseType(r, list) == Then("*mut ", ParseType(r[1..], list), "")
    ensures r[0] == 'R' ==> ParseType(r, list) == Then("&", ParseType(r[1..], list), "")
    ensures r[0] == 'S' ==> ParseType(r, list) == Then("&mut ", ParseType(r[1..], list), "")
    ensures r[0] == 'B' ==> ParseType(r, list) == Then("[", ParseType(r[1..], list), "]")
    ensures r[0] == 'C' ==> ParseType(r, list) == Then("[mut ", ParseType(r[1..], list), "]")
  {
  }

  /** One unfolding of `ParseType` on a substitution reference. */
  lemma ParseSubstitutionStep(r: string, list: seq<string>, n: Number)
    requires |r| > 0 && r[0] == 'Z' && ParseDigits(r[1..]) == Some(n)
    requires n.value < |list| && |n.rest| > 0
    ensures ParseType(r, list) == Some(Parsed(list[n.value], n.rest[1..], list))
  {
  }

  /** One unfolding of `ParseType` on a named type written out. */
  lemma ParseNamedTypeStep(r: string, list: seq<string>, p: Piece)
    requires |r| > 0 && (IsDigit(r[0]) || r[0] == 'U' || r[0] == 'D')
    requires ParseNamed(r) == Some(p)
    ensures ParseType(r, list) == Some(Parsed(p.text, p.rest, list + [p.text]))
  {
  }

  /** An argument list followed by 'E' reads back as its renderings joined by ", ". */
  lemma {:induction false} ArgsRoundTrip(ts: seq<Type>, subs: map<string, nat>, code: nat, list: seq<string>, rest: string)
    requires AllMangleable(ts) && SubsAgree(subs, code, list)
    requires code + |EncodeTypes(ts, subs, code).text| <= Misc.Uint64Limit
    requires |rest| > 0 && rest[0] == 'E'
    ensures var e := EncodeTypes(ts, subs, code);
            var r := ParseArgs(e.text + rest, list);
            r.Some? && r.value.text == Join(RenderAll(ts), ", ") && r.value.rest == rest
            && SubsAgree(e.subs, e.code, r.value.subs)
    decreases ts
  {
    var e := EncodeTypes(ts, subs, code);
    if |ts| == 0 {
      assert e.text + rest == rest;
    } else {
      var h := EncodeType(ts[0], subs, code);
      var tail := EncodeTypes(ts[1..], h.subs, h.code);
      var after := tail.text + rest;
      assert e.text + rest == h.text + after;
      TypeRoundTrip(ts[0], subs, code, list, after);
      var pt := ParseType(h.text + after, list).value;
      ArgsRoundTrip(ts[1..], h.subs, h.code, pt.subs, rest);
      ParseArgsStep(h.text + after, list, pt, ParseArgs(after, pt.subs).value);
      if |ts| == 1 {
        assert after == rest;
        assert RenderAll(ts) == [Render(ts[0])];
      } else {
        assert RenderAll(ts)[1..] == RenderAll(ts[1..]);
      }
    }
  }

  /** One unfolding of `ParseArgs` on an argument followed by more. */
  lemma ParseArgsStep(r: string, list: seq<string>, t: Parsed, tail: Parsed)
    requires |r| > 0 && r[0] != 'E' && ParseType(r, list) == Some(t)
    requires |t.rest| > 0 && ParseArgs(t.rest, t.subs) == Some(tail)
    ensures ParseArgs(r, list) == Some(tail.(text := t.text + (if t.rest[0] == 'E' then "" else ", ") + tail.text))
  {
    var prefix := t.text + (if t.rest[0] == 'E' then "" else ", ");
    assert prefix + tail.text + "" == prefix + tail.text;
  }

  /** One unfolding of `ParseFunction`. */
  lemma ParseFunctionStep(r: string, acc: string, name: Piece, args: Parsed, ret: Parsed)
    requires |r| > 0 && ParsePart(r[1..]) == Some(name) && |name.rest| > 0
    requires ParseArgs(name.rest[1..], []) == Some(args)
    requires ParseType(args.rest[1..], args.subs) == Some(ret)
    ensures ParseFunction(r, acc)
         == Some("fn " + acc + name.text + "(" + args.text + ")" + (if name.rest[0] == 'T' then " throws -> " else " -> ") + ret.text)
  {
  }

  /** Dropping a one-character head. */
  lemma DropHead(c: string, x: string)
    requires |c| == 1
    ensures (c + x)[0] == c[0] && (c + x)[1..] == x
  {
  }

  /** A function's name, arguments and return type read back after any module text. */
  lemma FnBodyRoundTrip(proto: Ast.FnPrototype, acc: string)
    requires ValidName(proto.name) && AllMangleable(ArgTypes(proto.args)) && Mangleable(proto.returnType)
    requires |FnBody(proto)| <= Misc.Uint64Limit
    ensures ParseFunction(FnBody(proto), acc)
         == Some("fn " + acc + proto.name + "(" + Join(RenderAll(ArgTypes(proto.args)), ", ") + ")"
                 + (if CanThrow(proto) then " throws -> " else " -> ") + Render(proto.returnType))
  {
    var ts := ArgTypes(proto.args);
    var a := EncodeTypes(ts, map[], 0);
    var ret := EncodeType(proto.returnType, a.subs, a.code);
    var tag := if CanThrow(proto) then "T" else "N";
    var afterArgs := "E" + ret.text;
    var afterName := tag + (a.text + afterArgs);
    var r := FnBody(proto);
    DropHead("F", LenPrefixed(proto.name) + afterName);
    PartRoundTrip(proto.name, afterName);
    DropHead(tag, a.text + afterArgs);
    ArgsRoundTrip(ts, map[], 0, [], afterArgs);
    var pa := ParseArgs(a.text + afterArgs, []).value;
    DropHead("E", ret.text);
    assert ret.text + "" == ret.text;
    TypeRoundTrip(proto.returnType, a.subs, a.code, pa.subs, "");
    var pr := ParseType(ret.text, pa.subs).value;
    ParseFunctionStep(r, acc, Piece(proto.name, afterName), pa, pr);
  }

  /** One unfolding of `ParseConstant`. */
  lemma ParseConstantStep(r: string, acc: string, name: Piece, t: Parsed)
    requires |r| > 0 && ParsePart(r[1..]) == Some(name)
    requires ParseType(name.rest, []) == Some(t)
    ensures ParseConstant(r, acc) == Some("const " + acc + name.text + ": " + t.text)
  {
  }

  /** A constant's name and type read back after any module text. */
  lemma ConstBodyRoundTrip(name: string, hint: Type, acc: string)
    requires ValidName(name) && Mangleable(hint)
    requires |ConstBody(name, hint)| <= Misc.Uint64Limit
    ensures ParseConstant(ConstBody(name, hint), acc) == Some("const " + acc + name + ": " + Render(hint))
  {
    var e := EncodeType(hint, map[], 0);
    var r := ConstBody(name, hint);
    DropHead("C", LenPrefixed(name) + e.text);
    PartRoundTrip(name, e.text);
    assert e.text + "" == e.text;
    TypeRoundTrip(hint, map[], 0, [], "");
    ParseConstantStep(r, acc, Piece(name, e.text), ParseType(e.text, []).value);
  }

  /** The loop of demangle() reads the module prefix, then hands over to function() or constant(). */
  lemma TopRoundTrip(parts: seq<string>, body: string, acc: string)
    requires ValidParts(parts) && |body| > 0 && (body[0] == 'F' || body[0] == 'C')
    ensures ParseTop(PartsPrefix(parts) + body, acc)
         == if body[0] == 'F' then ParseFunction(body, acc + PartsText(parts)) else ParseConstant(body, acc + PartsText(parts))
  {
    if |parts| == 0 {
      assert PartsPrefix(parts) + body == body;
      assert acc + PartsText(parts) == acc;
    } else {
      ModulePartRoundTrip(parts, body);
    }
  }

  /** The demangler's entry: a "_G" symbol is parsed from its third character. */
  lemma DemangledPrefixed(rest: string)
    requires |rest| > 0
    ensures Demangled("_G" + rest) == ParseTop(rest, "::")
  {
    PrefixedSymbol(rest);
    DemangledParses("_G" + rest);
  }

  lemma PrefixedSymbol(rest: string)
    ensures var s := "_G" + rest; s != UserMain && s[0] == '_' && s[1] == 'G' && s[2..] == rest
  {
    assert ("_G" + rest)[1] == 'G';
    assert UserMain[1] == '_';
  }

  lemma DemangledParses(s: string)
    requires s != UserMain && |s| >= 3 && s[0] == '_' && s[1] == 'G'
    ensures Demangled(s) == ParseTop(s[2..], "::")
  {
  }

  /** Demangling a function's symbol gives back its signature. */
  lemma FnRoundTrip(moduleString: string, proto: Ast.FnPrototype)
    requires MangleableFn(moduleString, proto)
    requires |FnSymbol(moduleString, proto)| <= Misc.Uint64Limit
    ensures Demangled(FnSymbol(moduleString, proto)) == Some(FnSignature(moduleString, proto))
  {
    var parts := ModuleParts(moduleString);
    DemangledPrefixed(PartsPrefix(parts) + FnBody(proto));
    TopRoundTrip(parts, FnBody(proto), "::");
    FnBodyRoundTrip(proto, "::" + PartsText(parts));
  }

  /** Demangling a constant's symbol gives back its signature. */
  lemma ConstRoundTrip(moduleString: string, name: string, hint: Type)
    requires ValidName(name) && ValidParts(ModuleParts(moduleString)) && Mangleable(hint)
    requires |ConstSymbol(moduleString, name, hint)| <= Misc.Uint64Limit
    ensures Demangled(ConstSymbol(moduleString, name, hint)) == Some(ConstSignature(moduleString, name, hint))
  {
    var parts := ModuleParts(moduleString);
    DemangledPrefixed(PartsPrefix(parts) + ConstBody(name, hint));
    TopRoundTrip(parts, ConstBody(name, hint), "::");
    ConstBodyRoundTrip(name, hint, "::" + PartsText(parts));
  }

  /** The special case at both ends: main's symbol demangles to the same text as the runtime's entry name. */
  lemma MainSymbolDemangles()
    ensures Demangled(MainSymbol) == Some("fn ::main() -> void")
  {
    var proto := MainPrototype();
    MainBody();
    MainSymbolSplits();
    DemangledPrefixed("F4mainNEv");
    TopRoundTrip([], "F4mainNEv", "::");
    assert "::" + PartsText([]) == "::";
    FnBodyRoundTrip(proto, "::");
    assert Join(RenderAll(ArgTypes(proto.args)), ", ") == "";
    MainText();
  }

  /** `fn main() -> void` at the root, with no attributes. */
  function MainPrototype(): Ast.FnPrototype
  {
    Ast.FnPrototype("main", None, [], [], Types.VoidType(SourceLocs.Nonexistent))
  }

  lemma MainBody()
    ensures FnBody(MainPrototype()) == "F4mainNEv"
  {
    assert Dec(4) == "4";
    assert !CanThrow(MainPrototype());
  }

  lemma MainSymbolSplits()
    ensures MainSymbol == "_G" + "F4mainNEv"
  {
  }

  lemma MainText()
    ensures "fn " + "::" + "main" + "(" + "" + ")" + " -> " + "void" == "fn ::main() -> void"
  {
  }

  /** What `Demangled` gives for a declaration's symbol. */
  function Signature(d: Ast.Decl, id: QualifiedName): string
    requires MangleableDecl(d, id)
  {
    match d.node
    case Fn(external, proto, _) => if external then proto.name else FnSignature(id.moduleString, proto)
    case ExternalFn(proto) => proto.name
    case Constant(name, hint, _) => ConstSignature(id.moduleString, name, hint)
  }

  /**
   * Demangling what gal::mangle produces gives back the declaration's
   * signature, for every declaration the mangler accepts, provided an
   * extern function's plain name does not itself look like a Gallium
   * symbol and the symbol fits a std::string.
   */
  lemma MangleDemangleRoundTrip(d: Ast.Decl, id: QualifiedName)
    requires MangleableDecl(d, id)
    requires d.node.ExternalFn? || (d.node.Fn? && d.node.external) ==> Unmangled(d.node.proto.name)
    requires d.node.Fn? && !d.node.external ==> |FnSymbol(id.moduleString, d.node.proto)| <= Misc.Uint64Limit
    requires d.node.Constant? ==> |ConstSymbol(id.moduleString, d.node.name, d.node.hint)| <= Misc.Uint64Limit
    ensures Demangled(Symbol(d, id)) == Some(Signature(d, id))
  {
    match d.node
    case Fn(external, proto, _) =>
      if !external {
        FnRoundTrip(id.moduleString, proto);
        if FnSymbol(id.moduleString, proto) == MainSymbol {
          MainSymbolDemangles();
        }
      }
    case ExternalFn(_) =>
    case Constant(name, hint, _) => ConstRoundTrip(id.moduleString, name, hint);
  }
}
