/**
 * The table-driven corners of the parse-tree-to-AST translation: builtin type
 * names, unqualified identifiers and function attributes, together with the
 * generator's one-slot return registers through which a visit hands its node
 * to the caller.
 */
module Parsing {
  import opened Basics
  import opened Ids
  import opened SourceLocs
  import opened Types
  import Ast
  import Misc
  import Pretty
  import NameResolution

  // ---- builtin types ----

  /** The four builtin names spelled as words. */
  predicate WordBuiltin(text: string)
  {
    text == "bool" || text == "byte" || text == "char" || text == "void"
  }

  /** What the lexer hands parse_builtin: one of the word builtins, or a name starting with `i`, `u` or `f`. */
  predicate BuiltinSpelling(text: string)
  {
    WordBuiltin(text) || (|text| > 0 && text[0] in "iuf")
  }

  /** Splitting on a text's own first character yields an empty piece first. */
  lemma SplitAtFirst(text: string)
    requires |text| > 0
    ensures Split(text, [text[0]]) == [""] + Split(text[1..], [text[0]])
  {
    assert MatchAt(text, [text[0]], 0) by {
      assert text[0..1] == [text[0]];
    }
  }

  /** The width text: the second piece of the name split on its first character. */
  function WidthText(text: string): (w: string)
    requires |text| > 0
    ensures w == Split(text[1..], [text[0]])[0]
  {
    SplitAtFirst(text);
    Split(text, [text[0]])[1]
  }

  /**
   * The width as std::from_chars reads it: the leading decimal digits of the
   * width text, rest ignored; none at all, or a value out of range, is an
   * error. from_chars targets std::int64_t where Misc.FromDigits targets
   * std::uint64_t; both err or yield a value outside every accepted width for
   * the same texts, so the outcome of parse_builtin is the same.
   */
  function WidthValue(text: string): Option<nat>
    requires |text| > 0
  {
    match Misc.FromDigits(WidthText(text), 10)
    case Ok(n) => Some(n)
    case Err(_) => None
  }

  /** The float width of a bit count, when it is one. */
  function FloatWidthOf(bits: nat): Option<FloatWidth>
  {
    if bits == 32 then Some(IeeeSingle)
    else if bits == 64 then Some(IeeeDouble)
    else if bits == 128 then Some(IeeeQuadruple)
    else None
  }

  /** The bit count of a float width. */
  function FloatBits(w: FloatWidth): nat
  {
    match w
    case IeeeSingle => 32
    case IeeeDouble => 64
    case IeeeQuadruple => 128
  }

  predicate IntegerBits(bits: nat)
  {
    bits == 8 || bits == 16 || bits == 32 || bits == 64 || bits == 128
  }

  /**
   * parse_builtin: the type a builtin name denotes, or None where the source
   * reports code 1 at the name's location.
   */
  function BuiltinType(text: string, loc: SourceLoc): (r: Option<Type>)
    requires BuiltinSpelling(text)
    ensures WordBuiltin(text) ==> r.Some?
    ensures r.Some? ==> r.value.Loc() == loc
  {
    if text == "bool" then Some(BoolType(loc))
    else if text == "byte" then Some(ByteType(loc))
    else if text == "char" then Some(CharType(loc))
    else if text == "void" then Some(VoidType(loc))
    else
      match WidthValue(text)
      case None => None
      case Some(bits) =>
        if text[0] == 'f' then
          match FloatWidthOf(bits)
          case Some(w) => Some(FloatType(loc, w))
          case None => None
        else if IntegerBits(bits) then Some(IntegralType(loc, text[0] == 'i', Width(bits)))
        else None
  }

  /**
   * A name starting with `i`/`u`/`f` is accepted exactly when its width is one
   * of that family's widths; integers are signed exactly for `i`, floats get
   * the width named.
   */
  lemma BuiltinTypeWidths(text: string, loc: SourceLoc)
    requires |text| > 0 && text[0] in "iuf"
    ensures var r := BuiltinType(text, loc);
      && (r.Some? <==>
            (WidthValue(text).Some? &&
             (if text[0] == 'f' then FloatWidthOf(WidthValue(text).value).Some? else IntegerBits(WidthValue(text).value))))
      && (r.Some? && text[0] != 'f' ==>
            r.value.IntegralType? && r.value.hasSign == (text[0] == 'i') && r.value.width == Width(WidthValue(text).value))
      && (r.Some? && text[0] == 'f' ==>
            r.value.FloatType? && FloatBits(r.value.fwidth) == WidthValue(text).value)
  {
    assert !WordBuiltin(text);
  }

  /** Decimal digits hold none of the family letters, and no underscore. */
  lemma DecimalAvoids(n: nat, c: char)
    requires c in "iuf_"
    ensures Avoids(Pretty.Decimal(n), c)
  {
    Misc.NatDigitsAreDigits(n, 10);
  }

  /** The width text of a family letter followed by a decimal number is that number. */
  lemma WidthOfSpelled(c: char, n: nat)
    requires c in "iuf" && n < Misc.Uint64Limit
    ensures WidthValue([c] + Pretty.Decimal(n)) == Some(n)
  {
    var text := [c] + Pretty.Decimal(n);
    assert text[1..] == Pretty.Decimal(n);
    DecimalAvoids(n, c);
    SplitNone(text[1..], [c]);
    Misc.FromDigitsRoundTrip(n, 10);
  }

  /** The builtin types a name can spell: the word builtins and the explicit-width numbers. */
  predicate Spellable(t: Type)
  {
    match t
    case BoolType(_) => true
    case ByteType(_) => true
    case CharType(_) => true
    case VoidType(_) => true
    case FloatType(_, _) => true
    case IntegralType(_, _, w) => w.Width? && IntegerBits(w.bits)
    case _ => false
  }

  /** An integer name printed with an explicit width parses back to the same integer type. */
  lemma IntegralRoundTrip(loc: SourceLoc, signed: bool, bits: nat)
    requires IntegerBits(bits)
    ensures var t := IntegralType(loc, signed, Width(bits));
      BuiltinSpelling(Pretty.TypeString(t)) && BuiltinType(Pretty.TypeString(t), loc) == Some(t)
  {
    var c := if signed then 'i' else 'u';
    assert Pretty.TypeString(IntegralType(loc, signed, Width(bits))) == [c] + Pretty.Decimal(bits);
    IntegralSpelledParses(c, bits, loc);
  }

  /** `i` or `u` followed by an integer width in decimal parses to that integer type. */
  lemma IntegralSpelledParses(c: char, bits: nat, loc: SourceLoc)
    requires (c == 'i' || c == 'u') && IntegerBits(bits)
    ensures BuiltinSpelling([c] + Pretty.Decimal(bits))
    ensures BuiltinType([c] + Pretty.Decimal(bits), loc) == Some(IntegralType(loc, c == 'i', Width(bits)))
  {
    var text := [c] + Pretty.Decimal(bits);
    assert text[0] == c;
    assert !WordBuiltin(text) by {
      assert "bool"[0] == 'b' && "byte"[0] == 'b' && "char"[0] == 'c' && "void"[0] == 'v';
    }
    WidthOfSpelled(c, bits);
    assert text[0] != 'f' && WidthValue(text) == Some(bits);
  }

  /** A float name parses back to the same float type. */
  lemma FloatRoundTrip(loc: SourceLoc, w: FloatWidth)
    ensures var t := FloatType(loc, w);
      BuiltinSpelling(Pretty.TypeString(t)) && BuiltinType(Pretty.TypeString(t), loc) == Some(t)
  {
    var b := FloatBits(w);
    FloatDigits(b);
    assert Pretty.TypeString(FloatType(loc, w)) == ['f'] + Pretty.Decimal(b);
    FloatSpelledParses(b, loc);
  }

  /** `f` followed by a float width in decimal parses to that float type. */
  lemma FloatSpelledParses(bits: nat, loc: SourceLoc)
    requires FloatWidthOf(bits).Some?
    ensures BuiltinSpelling(['f'] + Pretty.Decimal(bits))
    ensures BuiltinType(['f'] + Pretty.Decimal(bits), loc) == Some(FloatType(loc, FloatWidthOf(bits).value))
  {
    var text := ['f'] + Pretty.Decimal(bits);
    assert text[0] == 'f';
    assert !WordBuiltin(text) by {
      assert "bool"[0] == 'b' && "byte"[0] == 'b' && "char"[0] == 'c' && "void"[0] == 'v';
    }
    WidthOfSpelled('f', bits);
    assert WidthValue(text) == Some(bits);
  }

  /** The digits of the three float widths. */
  lemma FloatDigits(b: nat)
    requires b == 32 || b == 64 || b == 128
    ensures Pretty.Decimal(b) == if b == 32 then "32" else if b == 64 then "64" else "128"
  {
    if b == 32 {
      assert Pretty.Decimal(b) == Pretty.Decimal(3) + [Misc.DigitChar(2)] == "32";
    } else if b == 64 {
      assert Pretty.Decimal(b) == Pretty.Decimal(6) + [Misc.DigitChar(4)] == "64";
    } else {
      assert Pretty.Decimal(12) == Pretty.Decimal(1) + [Misc.DigitChar(2)] == "12";
      assert Pretty.Decimal(b) == Pretty.Decimal(12) + [Misc.DigitChar(8)] == "128";
    }
  }

  /** Parsing the printed name of a spellable builtin gives the builtin back. */
  lemma BuiltinTypeRoundTrip(t: Type)
    requires Spellable(t)
    ensures BuiltinSpelling(Pretty.TypeString(t))
    ensures BuiltinType(Pretty.TypeString(t), t.Loc()) == Some(t)
  {
    match t
    case IntegralType(loc, signed, w) => IntegralRoundTrip(loc, signed, w.bits);
    case FloatType(loc, w) => FloatRoundTrip(loc, w);
    case _ =>
  }

  /** The first piece of a text split on a character it does not start with begins with the text's first character. */
  lemma SplitHead(s: string, c: char)
    requires |s| > 0 && s[0] != c
    ensures |Split(s, [c])[0]| > 0 && Split(s, [c])[0][0] == s[0]
  {
    assert !MatchAt(s, [c], 0) by {
      assert s[0..1] == [s[0]];
    }
  }

  /** A width text that starts with a non-digit is reported. */
  lemma NonDigitWidth(text: string)
    requires |text| >= 2 && text[1] != text[0] && Misc.DigitValue(text[1]) >= 10
    ensures WidthValue(text) == None
  {
    SplitHead(text[1..], text[0]);
  }

  /** A family letter followed by a width the family does not have (`i7`, `f16`) is reported. */
  lemma UnlistedWidthRejected(c: char, bits: nat, loc: SourceLoc)
    requires c in "iuf" && bits < Misc.Uint64Limit
    requires if c == 'f' then FloatWidthOf(bits).None? else !IntegerBits(bits)
    ensures BuiltinSpelling([c] + Pretty.Decimal(bits))
    ensures BuiltinType([c] + Pretty.Decimal(bits), loc).None?
  {
    WidthOfSpelled(c, bits);
  }

  /** No name spells a native width: `isize` and `usize` are reported. */
  lemma NativeWidthsRejected(loc: SourceLoc)
    ensures BuiltinType("isize", loc).None? && BuiltinType("usize", loc).None?
  {
    NonDigitWidth("isize");
    NonDigitWidth("usize");
  }

  // ---- unqualified identifiers ----

  /**
   * parse_unqual_id as written: the first identifier is the name, the others
   * the module parts, and a module prefix is always attached, even to a
   * lone name that is not from the root.
   */
  function UnqualIdAsWritten(ids: seq<string>, isRoot: bool): (id: UnqualifiedID)
    requires |ids| > 0
    ensures id.name == ids[0] && id.prefix.Some?
    ensures id.prefix.value.fromRoot == isRoot && [id.name] + id.prefix.value.parts == ids
  {
    UnqualifiedID(Some(ModuleID(isRoot, ids[1..])), ids[0])
  }

  /**
   * parse_unqual_id corrected: a lone name not from the root gets no prefix,
   * as module_into_unqualified already does for module paths.
   */
  function UnqualId(ids: seq<string>, isRoot: bool): (id: UnqualifiedID)
    requires |ids| > 0
    ensures id.name == ids[0]
    ensures id.prefix.None? <==> |ids| == 1 && !isRoot
    ensures id.prefix.Some? ==> id.prefix.value.fromRoot == isRoot && [id.name] + id.prefix.value.parts == ids
  {
    if |ids| == 1 && !isRoot then UnqualifiedID(None, ids[0])
    else UnqualifiedID(Some(ModuleID(isRoot, ids[1..])), ids[0])
  }

  /**
   * A lone type name such as `Foo` parses, as written, to an identifier with
   * an empty prefix not from the root, which the name resolver's lookup
   * asserts never to see; the corrected parse gives it no prefix, which the
   * lookup handles. The two agree on every other identifier.
   */
  lemma LoneNameKeepsEmptyPrefix(ids: seq<string>, isRoot: bool)
    requires |ids| > 0
    ensures |ids| == 1 ==> NameResolution.Supported(UnqualId(ids, isRoot))
    ensures |ids| == 1 ==> (NameResolution.Supported(UnqualIdAsWritten(ids, isRoot)) <==> isRoot)
    ensures UnqualId(ids, isRoot) == UnqualIdAsWritten(ids, isRoot) <==> |ids| > 1 || isRoot
  {
  }

  // ---- function attributes ----

  /** The attribute spellings of the lookup table. */
  const AttributeTable: map<string, Ast.AttributeKind> := map[
    "__pure" := Ast.BuiltinPure,
    "__throws" := Ast.BuiltinThrows,
    "__alwaysinline" := Ast.BuiltinAlwaysInline,
    "__inline" := Ast.BuiltinInline,
    "__noinline" := Ast.BuiltinNoInline,
    "__malloc" := Ast.BuiltinMalloc,
    "__hot" := Ast.BuiltinHot,
    "__cold" := Ast.BuiltinCold,
    "__noreturn" := Ast.BuiltinNoreturn
  ]

  /**
   * visitFnAttribute: any text holding `__arch` is the arch attribute carrying
   * the string literal; other texts go through the table, and a text the
   * table lacks makes the lookup throw (None here).
   */
  function FnAttribute(text: string, literal: string): (r: Option<Ast.Attribute>)
    ensures Contains(text, "__arch") ==> r == Some(Ast.Attribute(Ast.BuiltinArch, [literal]))
    ensures !Contains(text, "__arch") ==> (r.Some? <==> text in AttributeTable)
    ensures r.Some? && r.value.kind != Ast.BuiltinArch ==> r.value.args == []
    ensures r.Some? ==> r.value.kind != Ast.BuiltinStdlib
  {
    if Contains(text, "__arch") then Some(Ast.Attribute(Ast.BuiltinArch, [literal]))
    else if text in AttributeTable then Some(Ast.Attribute(AttributeTable[text], []))
    else None
  }

  /**
   * What RuleContext::toString() gives for a parse-tree context: the
   * invoking states of the context and its parents, innermost first, in
   * decimal and separated by spaces, in brackets.
   */
  function RuleContextString(states: seq<nat>): (r: string)
    ensures |r| >= 2 && r[0] == '[' && r[|r| - 1] == ']'
  {
    "[" + Join(Decimals(states), " ") + "]"
  }

  function Decimals(states: seq<nat>): (r: seq<string>)
    ensures |r| == |states| && forall i :: 0 <= i < |states| ==> r[i] == Pretty.Decimal(states[i])
  {
    seq(|states|, i requires 0 <= i < |states| => Pretty.Decimal(states[i]))
  }

  /**
   * visitFnAttribute as written (parser.cc:165): the text it inspects is the
   * context's toString(), not the attribute's text.
   */
  function FnAttributeAsWritten(states: seq<nat>, literal: string): Option<Ast.Attribute>
  {
    FnAttribute(RuleContextString(states), literal)
  }

  /** Joining texts without an underscore by a space gives a text without one. */
  lemma {:induction false} JoinAvoidsUnderscore(parts: seq<string>)
    requires forall i :: 0 <= i < |parts| ==> Avoids(parts[i], '_')
    ensures Avoids(Join(parts, " "), '_')
    decreases |parts|
  {
    if |parts| > 1 {
      JoinAvoidsUnderscore(parts[1..]);
      var rest := Join(parts[1..], " ");
      assert Join(parts, " ") == parts[0] + " " + rest;
      forall i | 0 <= i < |Join(parts, " ")|
        ensures Join(parts, " ")[i] != '_'
      {
        if i < |parts[0]| {
          assert Join(parts, " ")[i] == parts[0][i];
        } else if i > |parts[0]| {
          assert Join(parts, " ")[i] == rest[i - |parts[0]| - 1];
        }
      }
    }
  }

  /**
   * As written, every function attribute is rejected: the context's
   * toString() holds no underscore, so it neither contains `__arch` nor is
   * a spelling of the table, and the table lookup throws.
   */
  lemma FnAttributeAsWrittenAlwaysFails(states: seq<nat>, literal: string)
    ensures FnAttributeAsWritten(states, literal) == None
  {
    var parts := Decimals(states);
    forall i | 0 <= i < |parts|
      ensures Avoids(parts[i], '_')
    {
      DecimalAvoids(states[i], '_');
    }
    JoinAvoidsUnderscore(parts);
    var text := RuleContextString(states);
    var joined := Join(parts, " ");
    assert text == "[" + joined + "]";
    assert Avoids(text, '_') by {
      forall i | 0 <= i < |text|
        ensures text[i] != '_'
      {
        if 0 < i < |text| - 1 {
          assert text[i] == joined[i - 1];
        }
      }
    }
    forall k | 0 <= k <= |text|
      ensures !MatchAt(text, "__arch", k)
    {
      if k + 6 <= |text| {
        assert text[k..k + 6][0] == text[k];
      }
    }
  }

  /** The spelling the attribute enumeration documents for each source-written kind. */
  function AttributeSpelling(k: Ast.AttributeKind): string
  {
    match k
    case BuiltinPure => "__pure"
    case BuiltinThrows => "__throws"
    case BuiltinAlwaysInline => "__alwaysinline"
    case BuiltinInline => "__inline"
    case BuiltinNoInline => "__noinline"
    case BuiltinMalloc => "__malloc"
    case BuiltinHot => "__hot"
    case BuiltinCold => "__cold"
    case BuiltinArch => "__arch"
    case BuiltinNoreturn => "__noreturn"
    case BuiltinStdlib => "__stdlib"
  }

  /** No spelling in the table holds `__arch`: each lacks one of its letters `a`, `r`, `c`. */
  lemma TableAvoidsArch(text: string)
    requires text in AttributeTable
    ensures !Contains(text, "__arch")
  {
    assert 'a' !in text || 'r' !in text || 'c' !in text;
    forall k | 0 <= k <= |text|
      ensures !MatchAt(text, "__arch", k)
    {
      if k + 6 <= |text| {
        var piece := text[k..k + 6];
        assert piece[2] == text[k + 2] && piece[3] == text[k + 3] && piece[4] == text[k + 4];
      }
    }
  }

  /**
   * Every kind a programmer can write is produced by its documented spelling,
   * and every spelling the table knows is the documented spelling of the kind
   * it produces.
   */
  lemma AttributeSpellingRoundTrip(k: Ast.AttributeKind, literal: string)
    requires k != Ast.BuiltinStdlib
    ensures k != Ast.BuiltinArch ==> FnAttribute(AttributeSpelling(k), literal) == Some(Ast.Attribute(k, []))
    ensures k == Ast.BuiltinArch ==> FnAttribute(AttributeSpelling(k), literal) == Some(Ast.Attribute(k, [literal]))
    ensures forall text | text in AttributeTable :: AttributeSpelling(AttributeTable[text]) == text
  {
    if k == Ast.BuiltinArch {
      assert MatchAt("__arch", "__arch", 0);
    } else {
      TableAvoidsArch(AttributeSpelling(k));
    }
  }

  // ---- the generator's return slots ----

  /**
   * The return registers of the AST generator: a visit stores its node in the
   * slot of its kind, and the caller moves it out, leaving the slot empty.
   * Diagnostics are recorded as (code, location) pairs.
   */
  class ReturnSlots {
    var exprRet: Option<Ast.Expr>
    var typeRet: Option<Type>
    var diagnostics: seq<(int, SourceLoc)>

    constructor()
      ensures exprRet == None && typeRet == None && diagnostics == []
    {
      exprRet, typeRet, diagnostics := None, None, [];
    }

    /** ret(unique_ptr<Type>): the type slot takes the node. */
    method ReturnType(t: Type)
      modifies this
      ensures typeRet == Some(t) && exprRet == old(exprRet) && diagnostics == old(diagnostics)
    {
      typeRet := Some(t);
    }

    /** error_expr: report the code and store an error expression in the expression slot. */
    method ErrorExpression(code: int, loc: SourceLoc)
      modifies this
      ensures diagnostics == old(diagnostics) + [(code, loc)]
      ensures exprRet == Some(Ast.TheErrorExpr) && typeRet == old(typeRet)
    {
      diagnostics := diagnostics + [(code, loc)];
      exprRet := Some(Ast.TheErrorExpr);
    }

    /** error_type: report the code and store the error type in the type slot. */
    method ErrorType(code: int, loc: SourceLoc)
      modifies this
      ensures diagnostics == old(diagnostics) + [(code, loc)]
      ensures typeRet == Some(Types.ErrorType) && exprRet == old(exprRet)
    {
      diagnostics := diagnostics + [(code, loc)];
      typeRet := Some(Types.ErrorType);
    }

    /** return_value<Type>: move the type out, leaving the slot empty (a null pointer when nothing was stored). */
    method TakeType() returns (t: Option<Type>)
      modifies this
      ensures t == old(typeRet) && typeRet == None
      ensures exprRet == old(exprRet) && diagnostics == old(diagnostics)
    {
      t := typeRet;
      typeRet := None;
    }

    /**
     * parse_builtin as written: an unacceptable width goes through error_expr,
     * so the type slot is left as it was and the expression slot gets the error.
     */
    method ParseBuiltinAsWritten(text: string, loc: SourceLoc)
      requires BuiltinSpelling(text)
      modifies this
      ensures BuiltinType(text, loc).Some? ==>
        typeRet == BuiltinType(text, loc) && exprRet == old(exprRet) && diagnostics == old(diagnostics)
      ensures BuiltinType(text, loc).None? ==>
        typeRet == old(typeRet) && exprRet == Some(Ast.TheErrorExpr) && diagnostics == old(diagnostics) + [(1, loc)]
    {
      match BuiltinType(text, loc)
      case Some(t) => ReturnType(t);
      case None => ErrorExpression(1, loc);
    }

    /** parse_builtin corrected: an unacceptable width stores the error type, as a type visit must. */
    method ParseBuiltin(text: string, loc: SourceLoc)
      requires BuiltinSpelling(text)
      modifies this
      ensures typeRet == Some(match BuiltinType(text, loc) case Some(t) => t case None => Types.ErrorType)
      ensures exprRet == old(exprRet)
      ensures diagnostics == old(diagnostics) + (if BuiltinType(text, loc).Some? then [] else [(1, loc)])
    {
      match BuiltinType(text, loc)
      case Some(t) => ReturnType(t);
      case None => ErrorType(1, loc);
    }
  }

  /**
   * visitType on a builtin followed by return_value<Type>() as written: an
   * unacceptable width hands the caller no type at all.
   */
  method VisitBuiltinAsWritten(text: string, loc: SourceLoc) returns (t: Option<Type>, codes: seq<int>)
    requires BuiltinSpelling(text)
    ensures t == BuiltinType(text, loc)
    ensures codes == (if t.Some? then [] else [1])
  {
    var slots := new ReturnSlots();
    slots.ParseBuiltinAsWritten(text, loc);
    t := slots.TakeType();
    codes := if |slots.diagnostics| == 0 then [] else [slots.diagnostics[0].0];
  }

  /** The same visit with parse_builtin corrected: the caller always gets a type, the error type on failure. */
  method VisitBuiltin(text: string, loc: SourceLoc) returns (t: Type, codes: seq<int>)
    requires BuiltinSpelling(text)
    ensures BuiltinType(text, loc).Some? ==> t == BuiltinType(text, loc).value && codes == []
    ensures BuiltinType(text, loc).None? ==> t == Types.ErrorType && codes == [1]
  {
    var slots := new ReturnSlots();
    slots.ParseBuiltin(text, loc);
    var taken := slots.TakeType();
    t := taken.value;
    codes := if |slots.diagnostics| == 0 then [] else [slots.diagnostics[0].0];
  }
}
