// Diagnostics and their text (compiler/src/errors/diagnostics.cc,
// compiler/src/errors/console_reporter.cc).
//
// A diagnostic is a code plus a list of parts. A part is either a single
// message or a list of pointed-out source spans; building a diagnostic
// renders a header line and then every part. The model takes the
// uncoloured path wherever the source consults the `colored` flag; the
// ANSI codes the source emits unconditionally (around pointed-out text and
// the file line) are kept.
module Diagnostics {
  import opened Basics
  import opened SourceLocs
  import Misc

  datatype DiagnosticType = Error | Warning | Note

  datatype UnderlineType = Squiggly | Straight | Carets | StraightArrow | SquigglyArrow

  /** One pointed-out span: where, the inline message, its kind and its underline. */
  datatype PointedOut = PointedOut(loc: SourceLoc, message: string, dtype: DiagnosticType, underline: UnderlineType)

  /** The length of a located node's text (SourceLoc::length). */
  function LocLength(loc: SourceLoc): nat
  {
    |loc.raw|
  }

  // ---- numbers with absl::kZeroPad4 ----

  /** `digits` left-padded with '0' to at least `width` characters. */
  function ZeroFill(digits: string, width: nat): (r: string)
    ensures |r| == if |digits| >= width then |digits| else width
    ensures r[|r| - |digits|..] == digits
  {
    if |digits| >= width then digits else Repeat('0', width - |digits|) + digits
  }

  /** absl::Dec(code, absl::kZeroPad4): at least four characters, zeros after any sign. */
  function Dec4(code: int): string
  {
    if code >= 0 then ZeroFill(Misc.NatDigits(code, 10), 4)
    else "-" + ZeroFill(Misc.NatDigits(-code, 10), 3)
  }

  lemma {:induction false} LeadingZerosValue(k: nat, s: string)
    ensures Misc.DigitsValue(Repeat('0', k) + s, 10) == Misc.DigitsValue(s, 10)
    decreases |s|, k
  {
    if s == [] {
      assert Repeat('0', k) + s == Repeat('0', k);
      if k > 0 {
        assert Repeat('0', k)[..k - 1] == Repeat('0', k - 1);
        LeadingZerosValue(k - 1, "");
        assert Repeat('0', k - 1) + "" == Repeat('0', k - 1);
      }
    } else {
      var init := s[..|s| - 1];
      assert (Repeat('0', k) + s)[..|Repeat('0', k) + s| - 1] == Repeat('0', k) + init;
      LeadingZerosValue(k, init);
    }
  }

  lemma {:induction false} DecimalLength(n: nat, k: nat)
    requires k >= 1 && n < Misc.Pow(10, k)
    ensures |Misc.NatDigits(n, 10)| <= k
    decreases k
  {
    if n >= 10 {
      assert Misc.Pow(10, k) == 10 * Misc.Pow(10, k - 1);
      DecimalLength(n / 10, k - 1);
    }
  }

  /** Zero padding keeps a digit string's characters digits and its value. */
  lemma ZeroFillDigits(d: string, width: nat)
    requires forall i :: 0 <= i < |d| ==> Misc.DigitValue(d[i]) < 10
    ensures forall i :: 0 <= i < |ZeroFill(d, width)| ==> Misc.DigitValue(ZeroFill(d, width)[i]) < 10
    ensures Misc.DigitsValue(ZeroFill(d, width), 10) == Misc.DigitsValue(d, 10)
  {
    if |d| < width {
      var z := width - |d|;
      LeadingZerosValue(z, d);
      var r := Repeat('0', z) + d;
      forall i | 0 <= i < |r|
        ensures Misc.DigitValue(r[i]) < 10
      {
        if i >= z {
          assert r[i] == d[i - z];
        }
      }
    }
  }

  /** A non-negative code is written in decimal digits that read back as the same code. */
  lemma Dec4Decodes(code: nat)
    requires code < Misc.Uint64Limit
    ensures forall i :: 0 <= i < |Dec4(code)| ==> Misc.DigitValue(Dec4(code)[i]) < 10
    ensures Misc.FromDigits(Dec4(code), 10) == Ok(code)
  {
    var d := Misc.NatDigits(code, 10);
    Misc.NatDigitsAreDigits(code, 10);
    Misc.NatDigitsValue(code, 10);
    ZeroFillDigits(d, 4);
    var r := Dec4(code);
    Misc.DigitRunAll(r, 10);
    assert r[..|r|] == r;
  }

  /** Codes below 10000 take exactly four characters. */
  lemma Dec4Width(code: nat)
    requires code < 10000
    ensures |Dec4(code)| == 4
  {
    assert Misc.Pow(10, 4) == 10000 by {
      assert Misc.Pow(10, 0) == 1;
      assert Misc.Pow(10, 1) == 10;
      assert Misc.Pow(10, 2) == 100;
      assert Misc.Pow(10, 3) == 1000;
    }
    DecimalLength(code, 4);
  }

  // ---- headers ----

  /** The word that opens a header. */
  function TypeWord(t: DiagnosticType): string
  {
    match t
    case Error => "error"
    case Warning => "warning"
    case Note => "note"
  }

  /**
   * header_uncolored: `error [E#NNNN] `, `warning [E#NNNN] `, or `note `
   * (a note carries no code, which the source asserts as code -1).
   */
  function HeaderUncolored(t: DiagnosticType, code: int): (r: string)
    requires t == Note ==> code == -1
  {
    if t == Note then "note " else TypeWord(t) + " [E#" + Dec4(code) + "] "
  }

  /**
   * An error or warning header is the kind's word, ` [E#`, four decimal
   * digits that read back as the code, and `] `; a note header is `note `.
   */
  lemma HeaderCarriesCode(t: DiagnosticType, code: int)
    requires t == Note ==> code == -1
    ensures t == Note ==> HeaderUncolored(t, code) == "note "
    ensures t != Note && 0 <= code < 10000 ==>
      var h := HeaderUncolored(t, code);
      var w := |TypeWord(t)| + 4;
      |h| == w + 6 && h[..w] == TypeWord(t) + " [E#" && h[w + 4..] == "] " &&
      Misc.FromDigits(h[w..w + 4], 10) == Ok(code)
  {
    if t != Note && 0 <= code < 10000 {
      Dec4Decodes(code);
      Dec4Width(code);
      SplitThree(TypeWord(t) + " [E#", Dec4(code), "] ");
    }
  }

  lemma SplitThree(a: string, b: string, c: string)
    ensures (a + b + c)[..|a|] == a
    ensures (a + b + c)[|a|..|a| + |b|] == b
    ensures (a + b + c)[|a| + |b|..] == c
  {
  }

  // ---- underlines ----

  /**
   * underline_with: the underline drawn below `length` characters. A
   * squiggly arrow of length 0 would ask std::string for SIZE_MAX
   * characters, so it needs a positive length.
   */
  function UnderlineWith(length: nat, t: UnderlineType): (r: string)
    requires t == SquigglyArrow ==> length >= 1
    ensures t != StraightArrow ==> |r| == length
    ensures t == StraightArrow ==> |r| == length + 1
  {
    match t
    case Squiggly => Repeat('~', length)
    case SquigglyArrow => "^" + Repeat('~', length - 1)
    case Straight => Repeat('-', length)
    case StraightArrow => "^" + Repeat('~', length)
    case Carets => Repeat('^', length)
  }

  /**
   * What each underline looks like: squiggles, dashes or carets all along,
   * or an arrow head followed by squiggles. Every underline but the straight
   * arrow is exactly as wide as the text it sits under.
   */
  lemma UnderlineShape(length: nat, t: UnderlineType)
    requires t == SquigglyArrow ==> length >= 1
    ensures var r := UnderlineWith(length, t);
      (|r| == length <==> t != StraightArrow) &&
      (t == Squiggly ==> forall i :: 0 <= i < |r| ==> r[i] == '~') &&
      (t == Straight ==> forall i :: 0 <= i < |r| ==> r[i] == '-') &&
      (t == Carets ==> forall i :: 0 <= i < |r| ==> r[i] == '^') &&
      ((t == SquigglyArrow || t == StraightArrow) ==> r[0] == '^' && forall i :: 1 <= i < |r| ==> r[i] == '~')
  {
  }

  // ---- splitting a line around a location ----

  /**
   * std::string_view::substr(pos, count): the characters from `pos`, at
   * most `count` of them; a `pos` past the end throws std::out_of_range,
   * which in these noexcept functions ends the process (None here).
   */
  function Substr(s: string, pos: nat, count: nat): (r: Option<string>)
    ensures r.Some? <==> pos <= |s|
    ensures r.Some? ==> r.value == s[pos..if pos + count <= |s| then pos + count else |s|]
  {
    if pos > |s| then None
    else if pos + count <= |s| then Some(s[pos..pos + count])
    else Some(s[pos..])
  }

  datatype LineParts = LineParts(start: string, pointedOut: string, rest: string)

  /**
   * break_up: the text before the location's column, the location's own
   * characters, and everything after them. The column counts from 1.
   */
  function BreakUp(line: string, loc: SourceLoc): (r: Option<LineParts>)
    requires loc.column >= 1
  {
    var start := Substr(line, 0, loc.column - 1);
    var underlined := Substr(line, loc.column - 1, LocLength(loc));
    var rest := Substr(line, loc.column + LocLength(loc) - 1, |line|);
    if start.None? || underlined.None? || rest.None? then None
    else Some(LineParts(start.value, underlined.value, rest.value))
  }

  /**
   * Breaking up succeeds exactly when the location ends within the line, and
   * then the three pieces put back together give the line, the first piece
   * being the column - 1 characters before the location and the second the
   * location's text length.
   */
  lemma BreakUpReassembles(line: string, loc: SourceLoc)
    requires loc.column >= 1
    ensures BreakUp(line, loc).Some? <==> loc.column - 1 + LocLength(loc) <= |line|
    ensures BreakUp(line, loc).Some? ==>
      var p := BreakUp(line, loc).value;
      p.start + p.pointedOut + p.rest == line &&
      |p.start| == loc.column - 1 && |p.pointedOut| == LocLength(loc) &&
      p == Pieces(line, loc)
  {
    if loc.column - 1 + LocLength(loc) <= |line| {
      var p := BreakUp(line, loc).value;
      assert line[..loc.column - 1] + line[loc.column - 1..loc.column - 1 + LocLength(loc)]
        + line[loc.column - 1 + LocLength(loc)..] == line;
    }
  }

  /** What break_up returns for a location that ends within its line. */
  function Pieces(line: string, loc: SourceLoc): LineParts
    requires loc.column >= 1 && loc.column - 1 + LocLength(loc) <= |line|
  {
    var end := loc.column - 1 + LocLength(loc);
    LineParts(line[..loc.column - 1], line[loc.column - 1..end], line[end..])
  }

  // ---- source lines ----

  predicate IsBreak(c: char)
  {
    c == '\r' || c == '\n'
  }

  /**
   * break_into_lines as written: absl::StrSplit on ByAnyChar("\r\n"), a
   * split at every '\r' and at every '\n'. The pieces hold no break
   * character, so the prefix and suffix stripping that follows changes
   * nothing; the pointer-keyed memo table returns the same split again.
   */
  function LinesAsWritten(source: string): (r: seq<string>)
    ensures |r| >= 1
    decreases |source|
  {
    if source == [] then [""]
    else if IsBreak(source[0]) then [""] + LinesAsWritten(source[1..])
    else
      var rest := LinesAsWritten(source[1..]);
      [[source[0]] + rest[0]] + rest[1..]
  }

  /**
   * A Windows line ending counts as two breaks, so the line after it is not
   * found at its line number: the second line of "a\r\nb" is empty.
   */
  lemma CrlfShiftsLines()
    ensures LinesAsWritten("a\r\nb") == ["a", "", "b"]
  {
    var s := "a\r\nb";
    assert s[1..][1..][1..][1..] == [];
    var last := LinesAsWritten(s[1..][1..][1..][1..]);
    assert last == [""];
    assert [s[3]] + last[0] == "b";
    assert LinesAsWritten(s[1..][1..][1..]) == ["b"];
    assert LinesAsWritten(s[1..][1..]) == ["", "b"];
    var rest := LinesAsWritten(s[1..]);
    assert rest == ["", "", "b"];
    assert [s[0]] + rest[0] == "a";
    assert [[s[0]] + rest[0]] + rest[1..] == ["a", "", "b"];
  }

  /**
   * break_into_lines as evidently intended: one piece per source line
   * whatever the line ending, by dropping the '\r' of each "\r\n" before
   * splitting.
   */
  function Lines(source: string): (r: seq<string>)
    ensures |r| >= 1
  {
    LinesAsWritten(DropCrBeforeLf(source))
  }

  /** The text without the '\r' of each "\r\n"; the other characters are kept in order. */
  function DropCrBeforeLf(source: string): (r: string)
    decreases |source|
  {
    if source == [] then []
    else if source[0] == '\r' && |source| > 1 && source[1] == '\n' then DropCrBeforeLf(source[1..])
    else [source[0]] + DropCrBeforeLf(source[1..])
  }

  /** The text with every '\n' written as "\r\n". */
  function ToCrlf(source: string): (r: string)
    decreases |source|
  {
    if source == [] then []
    else if source[0] == '\n' then "\r\n" + ToCrlf(source[1..])
    else [source[0]] + ToCrlf(source[1..])
  }

  lemma {:induction false} DropUndoesCrlf(source: string)
    requires Avoids(source, '\r')
    ensures DropCrBeforeLf(ToCrlf(source)) == source
    decreases |source|
  {
    if source != [] {
      DropUndoesCrlf(source[1..]);
      if source[0] == '\n' {
        var t := ToCrlf(source[1..]);
        assert ("\r\n" + t)[1..] == "\n" + t;
        assert ("\n" + t)[1..] == t;
      } else {
        assert ([source[0]] + ToCrlf(source[1..]))[1..] == ToCrlf(source[1..]);
      }
    }
  }

  lemma {:induction false} DropKeepsPlainText(source: string)
    requires Avoids(source, '\r')
    ensures DropCrBeforeLf(source) == source
    decreases |source|
  {
    if source != [] {
      DropKeepsPlainText(source[1..]);
    }
  }

  /**
   * The same text with Unix or Windows line endings splits into the same
   * lines, and for text without '\r' the corrected split is the written one.
   */
  lemma LinesIgnoreLineEndings(source: string)
    requires Avoids(source, '\r')
    ensures Lines(ToCrlf(source)) == Lines(source) == LinesAsWritten(source)
  {
    DropUndoesCrlf(source);
    DropKeepsPlainText(source);
  }

  /**
   * On a Windows line ending the drawn span misses its line: a one-character
   * span at line 2, column 1 of "a\r\nb" fits the corrected split, but the
   * written one gives line 2 as the empty piece between '\r' and '\n'.
   */
  lemma CrlfSpanUnrenderable(spot: PointedOut)
    requires spot.loc.line == 2 && spot.loc.column == 1 && LocLength(spot.loc) == 1
    ensures Renderable(spot, Lines("a\r\nb"))
    ensures !Renderable(spot, LinesAsWritten("a\r\nb"))
  {
    var s := "a\r\nb";
    CrlfShiftsLines();
    var unix := "a\nb";
    assert DropCrBeforeLf(s) == unix by {
      assert s[1..][1..] == "\nb" && s[1..][1..][1..] == "b" && s[1..][1..][1..][1..] == [];
      assert DropCrBeforeLf(s[1..][1..]) == "\nb";
    }
    assert LinesAsWritten(unix) == ["a", "b"] by {
      assert unix[1..] == "\nb" && unix[1..][1..] == "b" && unix[1..][1..][1..] == [];
      assert LinesAsWritten(unix[1..][1..]) == ["b"];
      var rest := LinesAsWritten(unix[1..]);
      assert rest == ["", "b"];
      assert [unix[0]] + rest[0] == "a";
      assert [[unix[0]] + rest[0]] + rest[1..] == ["a", "b"];
    }
  }

  /** No line holds a line-break character. */
  lemma {:induction false} LinesHoldNoBreaks(source: string)
    ensures forall i :: 0 <= i < |LinesAsWritten(source)| ==>
      Avoids(LinesAsWritten(source)[i], '\r') && Avoids(LinesAsWritten(source)[i], '\n')
    decreases |source|
  {
    if source != [] {
      LinesHoldNoBreaks(source[1..]);
    }
  }

  // ---- the explanation table ----

  datatype DiagnosticInfo = DiagnosticInfo(oneLiner: string, explanation: string, dtype: DiagnosticType)

  /**
   * diagnostic_info: the one-liner, explanation and kind for a code, None
   * when `lookup.at(code)` would throw. The table lists code 10 twice; the
   * map keeps the first entry for a repeated key.
   */
  function Info(code: int): Option<DiagnosticInfo>
  {
    if 1 <= code <= 23 then Some(DiagnosticInfo(OneLiner(code), Explanation(code), Error)) else None
  }

  /** The one-line summary shown in the header of each diagnostic with a known code. */
  function OneLiner(code: int): string
    requires 1 <= code <= 23
  {
    match code
    case 1 => "invalid builtin width"
    case 2 => "invalid char literal"
    case 3 => "invalid integer literal"
    case 4 => "invalid float literal"
    case 5 => "syntax error"
    case 6 => "duplicate declaration name"
    case 7 => "mismatched type for binding initializer"
    case 8 => "duplicate binding name"
    case 9 => "conflicting function overloads"
    case 10 => "invalid type for struct-init expression"
    case 11 => "unknown identifier name"
    case 12 => "missing initializer for struct field"
    case 13 => "mismatched types for struct field"
    case 14 => "unknown type name"
    case 15 => "expected `bool` type for condition"
    case 16 => "mismatched types in if-expr"
    case 17 => "invalid safe cast"
    case 18 => "unknown identifier"
    case 19 => "ambiguous reference to function"
    case 20 => "mismatched return type"
    case 21 => "binding cannot be nil"
    case 22 => "reference to declaration other than constant/function in identifier expression"
    case 23 => "mismatched argument type in call expr"
  }

  /** The explanation note appended to each diagnostic with a known code. */
  function Explanation(code: int): string
    requires 1 <= code <= 23
  {
    match code
    case 1 => "integer builtin types must be of width 8/16/32/64/128, floats must have 32/64/128"
    case 2 => "char literal was unable to be parsed"
    case 3 => "integer literal was unable to be parsed"
    case 4 => "float literal was unable to be parsed"
    case 5 => "general syntax error in antlr4"
    case 6 => "every declaration name must be unique in the module"
    case 7 => "if a binding has a type hint, the hint must match the real type of the initializer"
    case 8 => "every binding name must be unique in the same level of scope. shadowing is allowed in *different* levels of scope, but not the same"
    case 9 => "overloads cannot have the same parameter types, or they would be ambiguous"
    case 10 => "the type of a struct-init expr must be a user-defined type, and not a `dyn` type"
    case 11 => "name did not resolve to a declaration"
    case 12 => "a struct-init expression must initialize every field of a struct"
    case 13 => "a struct initializer must evaluate to the same type as the associated struct field"
    case 14 => "name did not resolve to a type"
    case 15 => "the condition must be of type `bool`"
    case 16 => "all branches must evaluate to the same type in an if-expr"
    case 17 => "cannot perform a safe cast between these types"
    case 18 => "variables must be declared before they can be used, does your variable exist?"
    case 19 => "you cannot reference or take the address of an overloaded function, you can only call it"
    case 20 => "return expressions must return a type compatible with the function"
    case 21 => "a binding without a type hint cannot be nil, it must be cast to a pointer type"
    case 22 => "you can only reference constant declarations and function declarations in an id-expr, not all declarations"
    case 23 => "each argument in a call must match the function type being called"
  }

  /**
   * Codes the type checker and name resolver report (for example 27, an
   * ambiguous call, and 51, no matching overload) have no entry, so building
   * a diagnostic for them cannot find its explanation.
   */
  lemma CheckerCodesHaveNoInfo()
    ensures Info(26).None? && Info(27).None? && Info(32).None? && Info(51).None?
  {
  }

  // ---- parts and diagnostics ----

  /** A part of a diagnostic: a single message, or pointed-out spans with the one that matters most. */
  datatype Part =
    | SingleMessage(message: string, dtype: DiagnosticType, code: int)
    | UnderlineList(list: seq<PointedOut>, important: SourceLoc)

  datatype Diagnostic = Diagnostic(code: int, parts: seq<Part>)

  /**
   * point_out_part: a span pointed out with the given kind and message;
   * notes get a straight underline and everything else a squiggly one.
   */
  function PointOutPart(loc: SourceLoc, t: DiagnosticType, message: string): (r: PointedOut)
    ensures r.loc == loc && r.dtype == t && r.message == message
    ensures r.underline == Straight <==> t == Note
    ensures r.underline == Squiggly <==> t != Note
  {
    PointedOut(loc, message, t, if t == Note then Straight else Squiggly)
  }

  /**
   * Diagnostic's constructor: the parts followed by a note carrying the
   * code's explanation. The code must be in the table, whose `.at` lookup
   * would otherwise throw.
   */
  function NewDiagnostic(code: int, parts: seq<Part>): (d: Diagnostic)
    requires Info(code).Some?
    ensures d.code == code && |d.parts| == |parts| + 1 && d.parts[..|parts|] == parts
    ensures d.parts[|parts|] == SingleMessage(Info(code).value.explanation, Note, -1)
  {
    Diagnostic(code, parts + [SingleMessage(Info(code).value.explanation, Note, -1)])
  }

  // ---- which span matters most, and ordering by position ----

  /** The index of the first span of kind `t` (std::find_if). */
  function FirstOf(list: seq<PointedOut>, t: DiagnosticType): (r: Option<nat>)
    ensures r.Some? ==> r.value < |list| && list[r.value].dtype == t
    ensures r.Some? ==> forall j :: 0 <= j < r.value ==> list[j].dtype != t
    ensures r.None? ==> forall j :: 0 <= j < |list| ==> list[j].dtype != t
  {
    if list == [] then None
    else if list[0].dtype == t then Some(0)
    else match FirstOf(list[1..], t)
      case None => None
      case Some(i) => Some(i + 1)
  }

  /** The index of the important span: the first error, else the first warning, else the first span. */
  function ImportantIndex(list: seq<PointedOut>): (i: nat)
    requires |list| > 0
    ensures i < |list|
  {
    match FirstOf(list, Error)
    case Some(i) => i
    case None =>
      match FirstOf(list, Warning)
      case Some(i) => i
      case None => 0
  }

  function ImportantLoc(list: seq<PointedOut>): SourceLoc
    requires |list| > 0
  {
    list[ImportantIndex(list)].loc
  }

  /**
   * The important span is an error when there is one, else a warning when
   * there is one, else the first span; and no span of its kind comes before it.
   */
  lemma ImportantIndexChoice(list: seq<PointedOut>)
    requires |list| > 0
    ensures var i := ImportantIndex(list);
      (list[i].dtype == Error || forall j :: 0 <= j < |list| ==> list[j].dtype != Error) &&
      (list[i].dtype != Note || (i == 0 && forall j :: 0 <= j < |list| ==> list[j].dtype == Note)) &&
      (forall j :: 0 <= j < i ==> list[j].dtype != list[i].dtype)
  {
  }

  /** The sort order: by line, then by column. */
  predicate Before(a: PointedOut, b: PointedOut)
  {
    if a.loc.line == b.loc.line then a.loc.column < b.loc.column else a.loc.line < b.loc.line
  }

  predicate SortedByPosition(list: seq<PointedOut>)
  {
    forall i, j :: 0 <= i < j < |list| ==> !Before(list[j], list[i])
  }

  /** `x` placed after every span it does not precede. */
  function Insert(sorted: seq<PointedOut>, x: PointedOut): (r: seq<PointedOut>)
  {
    if sorted == [] then [x]
    else if Before(x, sorted[0]) then [x] + sorted
    else [sorted[0]] + Insert(sorted[1..], x)
  }

  /** The spans in position order (an insertion sort). */
  function SortByPosition(list: seq<PointedOut>): (r: seq<PointedOut>)
  {
    if list == [] then [] else Insert(SortByPosition(list[..|list| - 1]), list[|list| - 1])
  }

  lemma {:induction false} InsertPermutes(sorted: seq<PointedOut>, x: PointedOut)
    ensures multiset(Insert(sorted, x)) == multiset(sorted) + multiset{x}
    decreases |sorted|
  {
    if sorted != [] && !Before(x, sorted[0]) {
      InsertPermutes(sorted[1..], x);
      assert sorted == [sorted[0]] + sorted[1..];
    }
  }

  lemma BeforeTransitive(a: PointedOut, b: PointedOut, c: PointedOut)
    requires Before(a, b) && Before(b, c)
    ensures Before(a, c)
  {
  }

  lemma BeforeTotal(a: PointedOut, b: PointedOut)
    requires !Before(a, b)
    ensures !Before(b, a) ==> a.loc.line == b.loc.line && a.loc.column == b.loc.column
  {
  }

  /** Putting `head`, which precedes no later span, in front of a sorted list keeps it sorted. */
  lemma ConsSorted(head: PointedOut, rest: seq<PointedOut>)
    requires SortedByPosition(rest)
    requires forall k :: 0 <= k < |rest| ==> !Before(rest[k], head)
    ensures SortedByPosition([head] + rest)
  {
    var r := [head] + rest;
    forall i, j | 0 <= i < j < |r|
      ensures !Before(r[j], r[i])
    {
      assert r[j] == rest[j - 1];
      if i > 0 {
        assert r[i] == rest[i - 1];
      }
    }
  }

  lemma {:induction false} InsertSorted(sorted: seq<PointedOut>, x: PointedOut)
    requires SortedByPosition(sorted)
    ensures SortedByPosition(Insert(sorted, x))
    decreases |sorted|
  {
    if sorted == [] {
    } else if Before(x, sorted[0]) {
      forall k | 0 <= k < |sorted|
        ensures !Before(sorted[k], x)
      {
        if Before(sorted[k], x) {
          BeforeTransitive(sorted[k], x, sorted[0]);
        }
      }
      ConsSorted(x, sorted);
    } else {
      var rest := sorted[1..];
      assert SortedByPosition(rest) by {
        forall i, j | 0 <= i < j < |rest|
          ensures !Before(rest[j], rest[i])
        {
          assert rest[i] == sorted[i + 1] && rest[j] == sorted[j + 1];
        }
      }
      InsertSorted(rest, x);
      InsertPermutes(rest, x);
      var ins := Insert(rest, x);
      forall k | 0 <= k < |ins|
        ensures !Before(ins[k], sorted[0])
      {
        assert ins[k] in multiset(ins);
        if ins[k] != x {
          assert ins[k] in multiset(rest);
          var m :| 0 <= m < |rest| && rest[m] == ins[k];
          assert sorted[m + 1] == ins[k];
        }
      }
      ConsSorted(sorted[0], ins);
    }
  }

  /** The spans in position order are sorted by line and column and are the same spans. */
  lemma {:induction false} SortByPositionSorts(list: seq<PointedOut>)
    ensures SortedByPosition(SortByPosition(list))
    ensures multiset(SortByPosition(list)) == multiset(list)
    decreases |list|
  {
    if list != [] {
      var init := list[..|list| - 1];
      SortByPositionSorts(init);
      InsertSorted(SortByPosition(init), list[|list| - 1]);
      InsertPermutes(SortByPosition(init), list[|list| - 1]);
      assert list == init + [list[|list| - 1]];
    }
  }

  /**
   * UnderlineList's constructor: it needs a non-empty list in a single file,
   * remembers the important location (first error, else first warning, else
   * the first span) and sorts the spans by line and column. std::sort may
   * order spans at the same position either way; this model keeps their
   * original order.
   */
  method NewUnderlineList(locs: seq<PointedOut>) returns (part: Part)
    requires |locs| > 0
    requires forall i :: 0 <= i < |locs| ==> locs[i].loc.file == locs[0].loc.file
    ensures part.UnderlineList? && part.important == locs[ImportantIndex(locs)].loc
    ensures part.list == SortByPosition(locs)
    ensures SortedByPosition(part.list) && multiset(part.list) == multiset(locs)
  {
    var it := 0;
    while it < |locs| && locs[it].dtype != Error
      invariant it <= |locs|
      invariant forall j :: 0 <= j < it ==> locs[j].dtype != Error
    {
      it := it + 1;
    }
    if it == |locs| {
      it := 0;
      while it < |locs| && locs[it].dtype != Warning
        invariant it <= |locs|
        invariant forall j :: 0 <= j < it ==> locs[j].dtype != Warning
      {
        it := it + 1;
      }
      if it == |locs| {
        it := 0;
      }
    }
    assert it == ImportantIndex(locs);
    var important := locs[it].loc;
    var list: seq<PointedOut> := [];
    for i := 0 to |locs|
      invariant list == SortByPosition(locs[..i])
    {
      assert locs[..i + 1][..i] == locs[..i];
      list := Insert(list, locs[i]);
    }
    assert locs[..|locs|] == locs;
    SortByPositionSorts(locs);
    part := UnderlineList(list, important);
  }

  // ---- rendering pointed-out spans ----

  /** The decimal text absl::StrAppend writes for an unsigned number. */
  function Decimal(n: nat): string
  {
    Misc.NatDigits(n, 10)
  }

  lemma {:induction false} DecimalMonotone(a: nat, b: nat)
    requires a <= b
    ensures |Decimal(a)| <= |Decimal(b)|
    decreases b
  {
    if a >= 10 {
      DecimalMonotone(a / 10, b / 10);
    }
  }

  /**
   * line_number_padding: the spaces that right-align the current line's
   * number under the widest one, and a blank of the widest number's width.
   */
  function LineNumberPadding(current: nat, max: nat): (r: (string, string))
    requires current <= max
    ensures |r.0| + |Decimal(current)| == |r.1| == |Decimal(max)|
  {
    DecimalMonotone(current, max);
    (Repeat(' ', |Decimal(max)| - |Decimal(current)|), Repeat(' ', |Decimal(max)|))
  }

  /** The escape sequence that starts a colour (log.h's code_* constants). */
  function ColorCode(t: DiagnosticType): string
  {
    match t
    case Error => "\U{1B}[31m"
    case Note => "\U{1B}[35m"
    case Warning => "\U{1B}[33m"
  }

  const ColorReset := "\U{1B}[0m"
  const ColorBlue := "\U{1B}[34m"

  /** diagnostic_color: the text in the colour of its kind, always. */
  function Colored(t: DiagnosticType, text: string): string
  {
    ColorCode(t) + text + ColorReset
  }

  /** The source line of a span exists, it starts at a column and ends within the line. */
  predicate Renderable(spot: PointedOut, lines: seq<string>)
  {
    1 <= spot.loc.line <= |lines| && spot.loc.column >= 1 &&
    spot.loc.column - 1 + LocLength(spot.loc) <= |lines[spot.loc.line - 1]| &&
    (spot.underline == SquigglyArrow ==> LocLength(spot.loc) >= 1)
  }

  /** A "..." line goes before a span when a span was drawn before it and it is not on the next line. */
  predicate NeedsEllipsis(previous: Option<nat>, line: nat)
  {
    previous.Some? && previous.value + 1 != line
  }

  /**
   * build_list: the text one span adds, given the largest line number in
   * the list and the line of the span drawn before it.
   */
  function SpotText(spot: PointedOut, maxLine: nat, lines: seq<string>, padding: string, previous: Option<nat>): string
    requires Renderable(spot, lines) && spot.loc.line <= maxLine
  {
    Concat(SpotPieces(spot, maxLine, lines, padding, previous))
  }

  /** The pieces build_list appends for one span, in order; the first is the "..." line or empty. */
  function SpotPieces(spot: PointedOut, maxLine: nat, lines: seq<string>, padding: string, previous: Option<nat>)
    : seq<string>
    requires Renderable(spot, lines) && spot.loc.line <= maxLine
  {
    var loc := spot.loc;
    var pad := LineNumberPadding(loc.line, maxLine);
    var p := Pieces(lines[loc.line - 1], loc);
    var underline := Repeat(' ', |p.start|) + Colored(spot.dtype, UnderlineWith(|p.pointedOut|, spot.underline));
    [if NeedsEllipsis(previous, loc.line) then "\n" + padding + pad.1 + "...\n" else "",
     padding, pad.1, " |\n",
     padding, pad.0, Decimal(loc.line), " | ", p.start, Colored(spot.dtype, p.pointedOut), p.rest, "\n",
     padding, pad.1, " | ", underline, " ", Colored(spot.dtype, spot.message)]
  }

  /**
   * A span's text starts on a new line (the "..." line) exactly when the
   * previous span is not on the line just above it; two spans on the same
   * line are also separated by "...".
   */
  lemma EllipsisMarksGaps(spot: PointedOut, maxLine: nat, lines: seq<string>, padding: string, previous: Option<nat>)
    requires Renderable(spot, lines) && spot.loc.line <= maxLine
    requires Avoids(padding, '\n')
    ensures |SpotText(spot, maxLine, lines, padding, previous)| > 0
    ensures SpotText(spot, maxLine, lines, padding, previous)[0] == '\n' <==> NeedsEllipsis(previous, spot.loc.line)
  {
    var pieces := SpotPieces(spot, maxLine, lines, padding, previous);
    var pad := LineNumberPadding(spot.loc.line, maxLine);
    assert |Decimal(maxLine)| > 0;
    if NeedsEllipsis(previous, spot.loc.line) {
      ConcatStartsWith(pieces, 0);
    } else if |padding| > 0 {
      ConcatStartsWith(pieces, 1);
    } else {
      ConcatStartsWith(pieces, 2);
    }
  }

  /** The first character of the pieces is that of the first non-empty one. */
  lemma {:induction false} ConcatStartsWith(pieces: seq<string>, k: nat)
    requires k < |pieces| && |pieces[k]| > 0
    requires forall j :: 0 <= j < k ==> pieces[j] == ""
    ensures |Concat(pieces)| > 0 && Concat(pieces)[0] == pieces[k][0]
  {
    if k > 0 {
      ConcatStartsWith(pieces[1..], k - 1);
    }
  }

  /**
   * The line number is right-aligned: the padding before it and the number
   * together are as wide as the blank gutter on the other rows.
   */
  lemma GutterAligned(current: nat, max: nat)
    requires current <= max
    ensures |LineNumberPadding(current, max).0 + Decimal(current)| == |LineNumberPadding(current, max).1|
  {
  }

  /** The largest line number among the spans (std::max_element by line). */
  function MaxLine(list: seq<PointedOut>): (m: nat)
    requires |list| > 0
    ensures forall i :: 0 <= i < |list| ==> list[i].loc.line <= m
    ensures exists i :: 0 <= i < |list| && list[i].loc.line == m
  {
    if |list| == 1 then list[0].loc.line
    else
      var rest := MaxLine(list[1..]);
      assert forall i :: 1 <= i < |list| ==> list[i] == list[1..][i - 1];
      if list[0].loc.line >= rest then list[0].loc.line else rest
  }

  /** append_file_info: `>>> file (line L, column C)` in blue, then a newline. */
  function FileInfo(padding: string, loc: SourceLoc): string
  {
    padding + ">>> " + ColorBlue + loc.file + " (line " + Decimal(loc.line) + ", column "
      + Decimal(loc.column) + ")" + ColorReset + "\n"
  }

  /** The first `n` spans, each drawn after the one before it. */
  function SpotsText(list: seq<PointedOut>, n: nat, maxLine: nat, lines: seq<string>, padding: string): string
    requires n <= |list|
    requires forall i :: 0 <= i < |list| ==> Renderable(list[i], lines) && list[i].loc.line <= maxLine
  {
    if n == 0 then ""
    else
      SpotsText(list, n - 1, maxLine, lines, padding)
      + SpotText(list[n - 1], maxLine, lines, padding, if n == 1 then None else Some(list[n - 2].loc.line))
  }

  predicate AllRenderable(list: seq<PointedOut>, lines: seq<string>)
  {
    forall i :: 0 <= i < |list| ==> Renderable(list[i], lines)
  }

  /** UnderlineList::internal_build as a value: the file line of the important location, then every span. */
  function UnderlineText(list: seq<PointedOut>, important: SourceLoc, lines: seq<string>, padding: string): string
    requires |list| > 0 && AllRenderable(list, lines)
  {
    FileInfo(padding, important) + SpotsText(list, |list|, MaxLine(list), lines, padding)
  }

  /**
   * UnderlineList::internal_build: appends the file line and then each span
   * to a builder, remembering the line of the span just drawn.
   */
  method BuildUnderlines(list: seq<PointedOut>, important: SourceLoc, lines: seq<string>, padding: string)
    returns (builder: string)
    requires |list| > 0 && AllRenderable(list, lines)
    ensures builder == UnderlineText(list, important, lines, padding)
  {
    var maxLine := MaxLine(list);
    var head := FileInfo(padding, important);
    builder := head;
    var previous: Option<nat> := None;
    for i := 0 to |list|
      invariant previous == if i == 0 then None else Some(list[i - 1].loc.line)
      invariant builder == head + SpotsText(list, i, maxLine, lines, padding)
    {
      AppendAssoc(head, SpotsText(list, i, maxLine, lines, padding), SpotText(list[i], maxLine, lines, padding, previous));
      builder := builder + SpotText(list[i], maxLine, lines, padding, previous);
      previous := Some(list[i].loc.line);
    }
  }

  /** The largest line is the only number every line is at most and some line equals. */
  lemma MaxLineUnique(list: seq<PointedOut>, m: nat)
    requires |list| > 0
    requires forall j :: 0 <= j < |list| ==> list[j].loc.line <= m
    requires exists j :: 0 <= j < |list| && list[j].loc.line == m
    ensures MaxLine(list) == m
  {
    var j :| 0 <= j < |list| && list[j].loc.line == m;
    var k :| 0 <= k < |list| && list[k].loc.line == MaxLine(list);
  }

  // ---- whole diagnostics ----

  /**
   * A part can be drawn: a note message carries no code, and a span list is
   * non-empty and fits the lines as break_into_lines splits them. A span that
   * does not fit makes `substr` throw inside the noexcept build_list, which
   * ends the compiler.
   */
  predicate PartBuildable(part: Part, source: string)
  {
    match part
    case SingleMessage(_, t, code) => t == Note ==> code == -1
    case UnderlineList(list, _) => |list| > 0 && AllRenderable(list, LinesAsWritten(source))
  }

  predicate Buildable(d: Diagnostic, source: string)
  {
    Info(d.code).Some? && forall i :: 0 <= i < |d.parts| ==> PartBuildable(d.parts[i], source)
  }

  /** DiagnosticPart::build: a single message is the padding, its header and its text. */
  function PartText(part: Part, source: string, padding: string): string
    requires PartBuildable(part, source)
  {
    match part
    case SingleMessage(message, t, code) => padding + HeaderUncolored(t, code) + message
    case UnderlineList(list, important) => UnderlineText(list, important, LinesAsWritten(source), padding)
  }

  /** Each part drawn with a one-space padding. */
  function PartTexts(parts: seq<Part>, source: string): (r: seq<string>)
    requires forall i :: 0 <= i < |parts| ==> PartBuildable(parts[i], source)
    ensures |r| == |parts|
  {
    if parts == [] then [] else [PartText(parts[0], source, " ")] + PartTexts(parts[1..], source)
  }

  /** Diagnostic::build: the header line with the code and one-liner, then the parts joined by newlines. */
  function Build(d: Diagnostic, source: string): string
    requires Buildable(d, source)
  {
    var info := Info(d.code).value;
    HeaderUncolored(info.dtype, d.code) + info.oneLiner + "\n" + Join(PartTexts(d.parts, source), "\n")
  }

  lemma {:induction false} PartTextsSnoc(parts: seq<Part>, x: Part, source: string)
    requires forall i :: 0 <= i < |parts| ==> PartBuildable(parts[i], source)
    requires PartBuildable(x, source)
    ensures forall i :: 0 <= i < |parts + [x]| ==> PartBuildable((parts + [x])[i], source)
    ensures PartTexts(parts + [x], source) == PartTexts(parts, source) + [PartText(x, source, " ")]
  {
    var all := parts + [x];
    assert forall i :: 0 <= i < |parts| ==> all[i] == parts[i];
    if parts == [] {
      assert all[1..] == [];
    } else {
      assert all[1..] == parts[1..] + [x];
      assert forall i :: 0 <= i < |parts[1..]| ==> parts[1..][i] == parts[i + 1];
      PartTextsSnoc(parts[1..], x, source);
    }
  }

  /** A note's header is the word `note` between single spaces. */
  lemma NoteText(e: string)
    ensures " " + HeaderUncolored(Note, -1) + e == " note " + e
  {
    assert " " + "note " == " note ";
  }

  lemma JoinedWithNote(texts: seq<string>, note: string)
    ensures Join(texts + [note], "\n") == (if texts == [] then "" else Join(texts, "\n") + "\n") + note
  {
    if texts == [] {
      assert texts + [note] == [note];
    } else {
      JoinSnoc(texts, note, "\n");
    }
  }

  lemma NewDiagnosticBuildable(code: int, parts: seq<Part>, source: string)
    requires Info(code).Some?
    requires forall i :: 0 <= i < |parts| ==> PartBuildable(parts[i], source)
    ensures Buildable(NewDiagnostic(code, parts), source)
  {
    var d := NewDiagnostic(code, parts);
    forall i | 0 <= i < |d.parts|
      ensures PartBuildable(d.parts[i], source)
    {
      if i < |parts| {
        assert d.parts[i] == parts[i];
      }
    }
  }

  /**
   * A built diagnostic opens with the error header for its code and the
   * one-liner on a line of their own, and ends with the explanation note,
   * after the given parts' lines.
   */
  lemma DiagnosticLayout(code: int, parts: seq<Part>, source: string)
    requires Info(code).Some?
    requires forall i :: 0 <= i < |parts| ==> PartBuildable(parts[i], source)
    ensures Buildable(NewDiagnostic(code, parts), source)
    ensures Build(NewDiagnostic(code, parts), source) ==
      HeaderUncolored(Error, code) + OneLiner(code) + "\n"
      + ((if parts == [] then "" else Join(PartTexts(parts, source), "\n") + "\n")
      + " note " + Explanation(code))
  {
    NewDiagnosticBuildable(code, parts, source);
    var n := " note " + Explanation(code);
    var texts := PartTexts(parts, source);
    NoteTextLast(code, parts, source);
    JoinedWithNote(texts, n);
    assert Info(code).value == DiagnosticInfo(OneLiner(code), Explanation(code), Error);
  }

  /** The explanation note is drawn after the given parts. */
  lemma NoteTextLast(code: int, parts: seq<Part>, source: string)
    requires Info(code).Some?
    requires forall i :: 0 <= i < |parts| ==> PartBuildable(parts[i], source)
    ensures Buildable(NewDiagnostic(code, parts), source)
    ensures PartTexts(NewDiagnostic(code, parts).parts, source) == PartTexts(parts, source) + [" note " + Explanation(code)]
  {
    NewDiagnosticBuildable(code, parts, source);
    var note := SingleMessage(Explanation(code), Note, -1);
    assert NewDiagnostic(code, parts).parts == parts + [note];
    PartTextsSnoc(parts, note, source);
    NoteText(Explanation(code));
  }

  /** What report_emplace is handed: a code and the parts of the diagnostic to build. */
  datatype Report = Report(code: int, parts: seq<Part>)

  /**
   * ConsoleReporter: every diagnostic reported is built against the source
   * text and written to the output stream followed by a blank line, and
   * counted.
   */
  class ConsoleReporter {
    const source: string
    var errorCount: nat
    var out: string

    constructor (source: string)
      ensures this.source == source && errorCount == 0 && out == ""
    {
      this.source := source;
      errorCount := 0;
      out := "";
    }

    /** had_error: something has been reported. */
    predicate HadError()
      reads this
    {
      errorCount != 0
    }

    /** internal_report: count the diagnostic, whatever its kind, and write it out. */
    method Report(d: Diagnostic)
      requires Buildable(d, source)
      modifies this
      ensures errorCount == old(errorCount) + 1 && HadError()
      ensures out == old(out) + Build(d, source) + "\n\n"
    {
      errorCount := errorCount + 1;
      out := out + Build(d, source) + "\n\n";
    }

    /** report_emplace: build the diagnostic from its code and parts, then report it. */
    method ReportEmplace(r: Report)
      requires Info(r.code).Some?
      requires forall i :: 0 <= i < |r.parts| ==> PartBuildable(r.parts[i], source)
      modifies this
      ensures errorCount == old(errorCount) + 1 && HadError()
      ensures out == old(out) + Build(NewDiagnostic(r.code, r.parts), source) + "\n\n"
    {
      DiagnosticLayout(r.code, r.parts, source);
      Report(NewDiagnostic(r.code, r.parts));
    }
  }
}
