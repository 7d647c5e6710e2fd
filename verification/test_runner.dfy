// Model of compiler/tools/test_runner.py: the directive header of a test
// file, the pass/fail verdicts, the panic-reason scraper, the artifact name
// and the order in which results are reported. Subprocess results (exit code,
// stdout, stderr, compiler output) are inputs; file reading yields the lines.
module TestRunner {
  import opened Basics
  import Misc

  /** The Python exceptions the harness can raise. */
  datatype PyError = IndexError | AssertionError | ValueError | FileExistsError

  /** Characters Python's str.strip() removes (str.isspace()). */
  predicate IsSpace(c: char)
  {
    var n := c as int;
    n == 0x20 || 0x09 <= n <= 0x0d || 0x1c <= n <= 0x1f || n == 0x85 || n == 0xa0 || n == 0x1680
    || 0x2000 <= n <= 0x200a || n == 0x2028 || n == 0x2029 || n == 0x202f || n == 0x205f || n == 0x3000
  }

  function StripStart(s: string): (r: string)
    ensures |r| <= |s| && r == s[|s| - |r|..]
    ensures r == [] || !IsSpace(r[0])
    ensures forall k :: 0 <= k < |s| - |r| ==> IsSpace(s[k])
  {
    if s != [] && IsSpace(s[0]) then StripStart(s[1..]) else s
  }

  function StripEnd(s: string): (r: string)
    ensures |r| <= |s| && r == s[..|r|]
    ensures r == [] || !IsSpace(r[|r| - 1])
    ensures forall k :: |r| <= k < |s| ==> IsSpace(s[k])
  {
    if s != [] && IsSpace(s[|s| - 1]) then StripEnd(s[..|s| - 1]) else s
  }

  /** str.strip(): the text without leading and trailing whitespace. */
  function Strip(s: string): string
  {
    StripEnd(StripStart(s))
  }

  lemma StripUnchanged(s: string)
    requires s == [] || (!IsSpace(s[0]) && !IsSpace(s[|s| - 1]))
    ensures Strip(s) == s
  {
  }

  /** The text before the first `sep` in `rest`, or all of it. */
  function UpTo(rest: string, sep: string): (r: string)
    requires |sep| > 0
    ensures |r| <= |rest| && r == rest[..|r|]
    ensures |r| == |rest| || MatchAt(rest, sep, |r|)
    ensures forall k :: 0 <= k < |r| ==> !MatchAt(rest, sep, k)
  {
    match IndexOf(rest, sep, 0)
    case None => rest
    case Some(j) => rest[..j]
  }

  /** `s.split(sep)[1]`: the text between the first and second `sep`, or none (IndexError). */
  function SecondField(s: string, sep: string): (r: Option<string>)
    requires |sep| > 0
    ensures r.Some? <==> IndexOf(s, sep, 0).Some?
    ensures r.Some? ==> r.value == UpTo(s[IndexOf(s, sep, 0).value + |sep|..], sep)
  {
    match IndexOf(s, sep, 0)
    case None => None
    case Some(i) =>
      assert MatchAt(s, sep, i);
      Some(UpTo(s[i + |sep|..], sep))
  }

  const TestMarker: string := "// test: "
  const ReturnsMarker: string := "// returns: "
  const OutputsMarker: string := "// outputs: "
  const ReasonMarker: string := "// reason: "

  /** A discovered test: its path, its type and its directive arguments. */
  datatype TestCase = TestCase(path: string, kind: string, args: seq<string>)

  function FieldOf(lines: seq<string>, i: nat, marker: string): Result<string, PyError>
    requires |marker| > 0
  {
    if i >= |lines| then Err(IndexError)
    else match SecondField(lines[i], marker)
      case None => Err(IndexError)
      case Some(f) => Ok(f)
  }

  /** Each line stripped, as read_test does first. */
  function StripLines(raw: seq<string>): (lines: seq<string>)
    ensures |lines| == |raw|
    ensures forall i :: 0 <= i < |raw| ==> lines[i] == Strip(raw[i])
  {
    seq(|raw|, i requires 0 <= i < |raw| => Strip(raw[i]))
  }

  /** The test types read_test accepts. */
  predicate KnownTestType(test: string)
  {
    test == "should-run" || test == "should-panic" || test == "should-assert"
  }

  /** The directive arguments a test type needs, from the stripped lines. */
  function ArgsFor(test: string, lines: seq<string>): (r: Result<seq<string>, PyError>)
    ensures r.Ok? ==> KnownTestType(test)
    ensures r.Ok? && test == "should-run" ==> |r.value| == 2
    ensures r.Ok? && test != "should-run" ==> |r.value| == 1
    ensures !KnownTestType(test) ==> r == Err(AssertionError)
  {
    if test == "should-run" then
      match FieldOf(lines, 1, ReturnsMarker)
      case Err(e) => Err(e)
      case Ok(code) =>
        match FieldOf(lines, 2, OutputsMarker)
        case Err(e) => Err(e)
        case Ok(outputs) => Ok([code, outputs])
    else if test == "should-fail-compile" then Err(AssertionError)
    else if test == "should-panic" || test == "should-assert" then
      match FieldOf(lines, 1, ReasonMarker)
      case Err(e) => Err(e)
      case Ok(reason) => Ok([reason])
    else Err(AssertionError)
  }

  /**
   * read_test over the lines of a test file: the test type from the first
   * stripped line and the arguments its type needs from the next ones.
   */
  function ReadTest(rawLines: seq<string>): (r: Result<(string, seq<string>), PyError>)
    ensures r.Ok? ==> KnownTestType(r.value.0)
    ensures r.Ok? && r.value.0 == "should-run" ==> |r.value.1| == 2
    ensures r.Ok? && r.value.0 != "should-run" ==> |r.value.1| == 1
  {
    var lines := StripLines(rawLines);
    match FieldOf(lines, 0, TestMarker)
    case Err(e) => Err(e)
    case Ok(header) =>
      var test := Strip(header);
      match ArgsFor(test, lines)
      case Err(e) => Err(e)
      case Ok(args) => Ok((test, args))
  }

  /**
   * What read_test prints: the unknown-type line, printed just before the
   * assertion fails, for a header naming none of the four test types.
   */
  function ReadTestPrints(rawLines: seq<string>): (r: seq<string>)
    ensures |r| <= 1
    ensures r != [] ==> ReadTest(rawLines) == Err(AssertionError)
    ensures ReadTest(rawLines).Ok? ==> r == []
  {
    var lines := StripLines(rawLines);
    match FieldOf(lines, 0, TestMarker)
    case Err(_) => []
    case Ok(header) =>
      var test := Strip(header);
      if test == "should-run" || test == "should-fail-compile" || test == "should-panic" || test == "should-assert" then []
      else ["unknown test type '" + test + "'"]
  }

  // ---------------------------------------------------------------------
  // Python int() on the expected return code.

  /** The digits int() accepts: decimal digits, with single underscores between two of them. */
  predicate GroupedDigits(d: string)
  {
    && |d| > 0 && d[0] != '_' && d[|d| - 1] != '_'
    && (forall i :: 0 <= i < |d| ==> d[i] == '_' || Misc.DigitValue(d[i]) < 10)
    && (forall i :: 0 <= i < |d| - 1 ==> d[i] == '_' ==> d[i + 1] != '_')
  }

  /** The digits with the grouping underscores removed. */
  function Ungrouped(d: string): (r: string)
    ensures |r| <= |d|
    ensures forall i :: 0 <= i < |r| ==> r[i] != '_'
  {
    if |d| == 0 then "" else (if d[0] == '_' then "" else [d[0]]) + Ungrouped(d[1..])
  }

  /** Digits without underscores are their own ungrouped form. */
  lemma {:induction false} UngroupedPlain(d: string)
    requires forall i :: 0 <= i < |d| ==> d[i] != '_'
    ensures Ungrouped(d) == d
  {
    if |d| > 0 {
      UngroupedPlain(d[1..]);
      assert [d[0]] + d[1..] == d;
    }
  }

  /**
   * int(text) on ASCII text: optional surrounding whitespace, an optional
   * sign, then decimal digits that may be grouped by single underscores.
   */
  function ParseInt(text: string): (r: Option<int>)
  {
    var t := Strip(text);
    var negative := |t| > 0 && t[0] == '-';
    var digits := if |t| > 0 && (t[0] == '-' || t[0] == '+') then t[1..] else t;
    if !GroupedDigits(digits) then None
    else
      var magnitude: int := Misc.DigitsValue(Ungrouped(digits), 10);
      Some(if negative then -magnitude else magnitude)
  }

  /** A non-empty run of decimal digits without underscores. */
  predicate PlainDigits(d: string)
  {
    |d| > 0 && forall i :: 0 <= i < |d| ==> Misc.DigitValue(d[i]) < 10
  }

  lemma {:induction false} UngroupedAppend(x: string, y: string)
    ensures Ungrouped(x + y) == Ungrouped(x) + Ungrouped(y)
  {
    if |x| > 0 {
      assert (x + y)[0] == x[0] && (x + y)[1..] == x[1..] + y;
      UngroupedAppend(x[1..], y);
    } else {
      assert x + y == y;
    }
  }

  /** Two runs of digits joined by one underscore are grouped digits. */
  lemma GroupedAround(a: string, b: string)
    requires PlainDigits(a) && PlainDigits(b)
    ensures GroupedDigits(a + "_" + b)
  {
    var left := a + "_";
    var grouped := left + b;
    assert |left| == |a| + 1 && left[|a|] == '_';
    forall i | 0 <= i < |grouped|
      ensures grouped[i] == '_' <==> i == |a|
      ensures grouped[i] == '_' || Misc.DigitValue(grouped[i]) < 10
    {
      if i < |a| {
        assert grouped[i] == left[i] == a[i];
      } else if i > |a| {
        assert grouped[i] == b[i - |left|];
      }
    }
  }

  lemma PlainAppend(a: string, b: string)
    requires PlainDigits(a) && PlainDigits(b)
    ensures PlainDigits(a + b)
  {
    var plain := a + b;
    forall i | 0 <= i < |plain| ensures Misc.DigitValue(plain[i]) < 10 {
      if i < |a| { assert plain[i] == a[i]; } else { assert plain[i] == b[i - |a|]; }
    }
  }

  /** Ungrouping a + "_" + b gives the plain digits a + b. */
  lemma UngroupedAround(a: string, b: string)
    requires PlainDigits(a) && PlainDigits(b)
    ensures Ungrouped(a + "_" + b) == a + b
  {
    UngroupedAppend(a + "_", b);
    UngroupedAppend(a, "_");
    assert Ungrouped("_") == "";
    assert forall i :: 0 <= i < |a| ==> a[i] != '_';
    assert forall i :: 0 <= i < |b| ==> b[i] != '_';
    UngroupedPlain(a);
    UngroupedPlain(b);
  }

  /** int() of unsigned grouped digits is the value of the ungrouped digits. */
  lemma ParseIntGrouped(d: string)
    requires GroupedDigits(d)
    ensures ParseInt(d) == Some(Misc.DigitsValue(Ungrouped(d), 10))
  {
    assert Misc.DigitValue(d[0]) < 10 && Misc.DigitValue(d[|d| - 1]) < 10;
    DecimalDigitChar(d[0]);
    DecimalDigitChar(d[|d| - 1]);
    StripUnchanged(d);
  }

  /** An underscore between two runs of digits leaves int()'s value unchanged. */
  lemma ParseIntAcceptsGrouping(a: string, b: string)
    requires PlainDigits(a) && PlainDigits(b)
    ensures ParseInt(a + "_" + b) == ParseInt(a + b)
    ensures ParseInt(a + "_" + b) == Some(Misc.DigitsValue(a + b, 10))
  {
    GroupedAround(a, b);
    UngroupedAround(a, b);
    PlainAppend(a, b);
    var plain := a + b;
    assert Ungrouped(plain) == plain by {
      assert forall i :: 0 <= i < |plain| ==> plain[i] != '_';
      UngroupedPlain(plain);
    }
    assert GroupedDigits(plain) by {
      assert plain[0] != '_' && plain[|plain| - 1] != '_';
    }
    ParseIntGrouped(a + "_" + b);
    ParseIntGrouped(plain);
  }

  /** Unsigned text with no whitespace at its ends that is not grouped digits makes int() raise. */
  lemma ParseIntRejectsUngrouped(d: string)
    requires |d| > 0 && !IsSpace(d[0]) && !IsSpace(d[|d| - 1]) && d[0] != '-' && d[0] != '+'
    requires !GroupedDigits(d)
    ensures ParseInt(d) == None
  {
    StripUnchanged(d);
  }

  /** int() rejects a doubled, a trailing or a leading underscore. */
  lemma ParseIntRejectsBadGrouping(a: string, b: string)
    requires PlainDigits(a) && PlainDigits(b)
    ensures ParseInt(a + "__" + b) == None
    ensures ParseInt(a + "_") == None
    ensures ParseInt("_" + a) == None
  {
    DecimalDigitChar(a[0]);
    DecimalDigitChar(a[|a| - 1]);
    DecimalDigitChar(b[|b| - 1]);
    var doubled := a + "__" + b;
    assert doubled[0] == a[0] && doubled[|doubled| - 1] == b[|b| - 1];
    assert doubled[|a|] == '_' && doubled[|a| + 1] == '_';
    ParseIntRejectsUngrouped(doubled);
    var trailing := a + "_";
    assert trailing[0] == a[0] && trailing[|trailing| - 1] == '_';
    ParseIntRejectsUngrouped(trailing);
    var leading := "_" + a;
    assert leading[0] == '_' && leading[|leading| - 1] == a[|a| - 1];
    ParseIntRejectsUngrouped(leading);
  }

  /** str(n) for a Python int. */
  function IntText(n: int): string
  {
    Misc.Render(n, 10)
  }

  lemma DecimalDigitChar(c: char)
    requires Misc.DigitValue(c) < 10
    ensures !IsSpace(c) && c != '-' && c != '+' && c != '\'' && c != '/'
  {
  }

  /** str(n) starts and ends with a character that is not whitespace. */
  lemma IntTextEnds(n: int)
    ensures |IntText(n)| > 0 && !IsSpace(IntText(n)[0]) && !IsSpace(IntText(n)[|IntText(n)| - 1])
    ensures forall k :: 0 <= k < |IntText(n)| ==> IntText(n)[k] != '/'
  {
    var m := if n < 0 then -n else n;
    var d := Misc.NatDigits(m, 10);
    Misc.NatDigitsAreDigits(m, 10);
    DecimalDigitChar(d[0]);
    DecimalDigitChar(d[|d| - 1]);
    forall k | 0 <= k < |d| ensures d[k] != '/' {
      DecimalDigitChar(d[k]);
    }
    if n < 0 {
      assert IntText(n) == "-" + d;
      assert forall k :: 1 <= k < |IntText(n)| ==> IntText(n)[k] == d[k - 1];
    }
  }

  /** int(str(n)) == n. */
  lemma ParseIntText(n: int)
    ensures ParseInt(IntText(n)) == Some(n)
  {
    var m := if n < 0 then -n else n;
    var d := Misc.NatDigits(m, 10);
    Misc.NatDigitsValue(m, 10);
    Misc.NatDigitsAreDigits(m, 10);
    UngroupedPlain(d);
    DecimalDigitChar(d[0]);
    IntTextEnds(n);
    StripUnchanged(IntText(n));
    if n < 0 {
      assert IntText(n)[1..] == d;
    }
  }

  // ---------------------------------------------------------------------
  // Verdicts. A verdict is none for a pass and a message for a failure.

  /** execute_should_run's decision on the artifact's exit code and stdout. */
  function ShouldRunVerdict(args: seq<string>, returnCode: int, stdout: string): (r: Result<Option<string>, PyError>)
    requires |args| >= 2
    ensures ParseInt(args[0]).None? <==> r == Err(ValueError)
    ensures ParseInt(args[0]).Some? && ParseInt(args[0]).value != returnCode ==>
      r == Ok(Some("return code did not match! expected `" + args[0] + "` but got `" + IntText(returnCode) + "`"))
    ensures ParseInt(args[0]) == Some(returnCode) ==>
      (r == Ok(None) <==> args[1] == "none" || args[1] == stdout)
    ensures ParseInt(args[0]) == Some(returnCode) && args[1] != "none" && args[1] != stdout ==>
      r == Ok(Some("output did not match! expected `" + args[1] + "` but got `" + stdout + "`"))
  {
    match ParseInt(args[0])
    case None => Err(ValueError)
    case Some(expected) =>
      if expected != returnCode then
        Ok(Some("return code did not match! expected `" + args[0] + "` but got `" + IntText(returnCode) + "`"))
      else if args[1] != "none" && args[1] != stdout then
        Ok(Some("output did not match! expected `" + args[1] + "` but got `" + stdout + "`"))
      else Ok(None)
  }

  const PanicMarker: string := "gallium: panicked!"
  const MessageMarker: string := "  message: '"
  const RuntimeReasonMarker: string := "  reason: '"

  /**
   * The text between the quote that ends the first `marker` at or after the
   * first "gallium: panicked!" and the next quote; none when any is missing.
   */
  function Extract(output: string, marker: string): Option<string>
    requires |marker| > 0
  {
    match IndexOf(output, PanicMarker, 0)
    case None => None
    case Some(panicBegin) =>
      match IndexOf(output, marker, panicBegin)
      case None => None
      case Some(messageBegin) =>
        match IndexOf(output, "'", messageBegin)
        case None => None
        case Some(beginQuote) =>
          match IndexOf(output, "'", beginQuote + 1)
          case None => None
          case Some(endQuote) => Some(output[beginQuote + 1..endQuote])
  }

  /** What Extract returns holds no quote: it stops at the first one. */
  lemma ExtractNoQuote(output: string, marker: string)
    requires |marker| > 0 && Extract(output, marker).Some?
    ensures NoQuote(Extract(output, marker).value)
  {
    var panicBegin := IndexOf(output, PanicMarker, 0).value;
    var messageBegin := IndexOf(output, marker, panicBegin).value;
    var beginQuote := IndexOf(output, "'", messageBegin).value;
    var endQuote := IndexOf(output, "'", beginQuote + 1).value;
    forall k | beginQuote + 1 <= k < endQuote ensures output[k] != '\'' {
      QuoteMatch(output, k);
    }
  }

  /** find_reason as written: it looks for "  message: '". */
  function FindReason(output: string): Option<string>
  {
    Extract(output, MessageMarker)
  }

  /** find_reason with the marker the runtime's panic handler prints. */
  function FindReasonFixed(output: string): Option<string>
  {
    Extract(output, RuntimeReasonMarker)
  }

  predicate NoQuote(s: string)
  {
    forall k :: 0 <= k < |s| ==> s[k] != '\''
  }

  lemma NoQuoteConcat(a: string, b: string)
    requires NoQuote(a) && NoQuote(b)
    ensures NoQuote(a + b)
  {
    forall k | 0 <= k < |a + b| ensures (a + b)[k] != '\'' {
      if k >= |a| {
        assert (a + b)[k] == b[k - |a|];
      }
    }
  }

  lemma QuoteMatch(t: string, k: nat)
    ensures MatchAt(t, "'", k) <==> k < |t| && t[k] == '\''
  {
    if k < |t| {
      assert t[k..k + 1] == [t[k]];
    }
  }

  /** A marker that ends in a quote and holds no other. */
  predicate QuoteEnded(marker: string)
  {
    |marker| > 0 && marker[|marker| - 1] == '\'' && NoQuote(marker[..|marker| - 1])
  }

  /**
   * Extract's searches when the output starts with the panic marker, `marker`
   * is matched at `h` with no quote before its own, and the next quote is at `q2`.
   */
  lemma ExtractSearches(t: string, marker: string, h: nat, q2: nat)
    requires QuoteEnded(marker) && MatchAt(t, marker, h)
    requires forall k :: 0 <= k < h + |marker| - 1 ==> t[k] != '\''
    requires h + |marker| - 1 < q2 < |t| && t[q2] == '\''
    requires forall k :: h + |marker| <= k < q2 ==> t[k] != '\''
    ensures IndexOf(t, marker, 0) == Some(h)
    ensures IndexOf(t, "'", h) == Some(h + |marker| - 1) && IndexOf(t, "'", h + |marker|) == Some(q2)
  {
    MarkerFirstAt(t, marker, h);
    MarkerQuoteFirst(t, marker, h);
    QuoteFirstAt(t, h + |marker|, q2);
  }

  /** The first quote at or after a match of a quote-ended marker is the marker's own. */
  lemma MarkerQuoteFirst(t: string, marker: string, h: nat)
    requires QuoteEnded(marker) && MatchAt(t, marker, h)
    ensures IndexOf(t, "'", h) == Some(h + |marker| - 1)
  {
    MarkerQuote(t, marker, h);
    QuoteFirstAt(t, h, h + |marker| - 1);
  }

  /** The first quote at or after `from` is at `q`. */
  lemma QuoteFirstAt(t: string, from: nat, q: nat)
    requires from <= q < |t| && t[q] == '\''
    requires forall k :: from <= k < q ==> t[k] != '\''
    ensures IndexOf(t, "'", from) == Some(q)
  {
    forall k | from <= k < q ensures !MatchAt(t, "'", k) {
      QuoteMatch(t, k);
    }
    QuoteMatch(t, q);
    IndexOfFirst(t, "'", from, q);
  }

  /** A quote-ended marker first matches at `h` when no quote comes before its own. */
  lemma MarkerFirstAt(t: string, marker: string, h: nat)
    requires QuoteEnded(marker) && MatchAt(t, marker, h)
    requires forall k :: 0 <= k < h + |marker| - 1 ==> t[k] != '\''
    ensures IndexOf(t, marker, 0) == Some(h)
  {
    forall k | 0 <= k < h ensures !MatchAt(t, marker, k) {
      if k + |marker| <= |t| {
        assert t[k..k + |marker|][|marker| - 1] == t[k + |marker| - 1];
      }
    }
    IndexOfFirst(t, marker, 0, h);
  }

  /** Where a quote-ended marker matches, its only quote is its last character. */
  lemma MarkerQuote(t: string, marker: string, m: nat)
    requires QuoteEnded(marker) && MatchAt(t, marker, m)
    ensures t[m + |marker| - 1] == '\''
    ensures forall k :: m <= k < m + |marker| - 1 ==> t[k] != '\''
  {
    forall k | m <= k < m + |marker| - 1 ensures t[k] != '\'' {
      assert t[k] == t[m..m + |marker|][k - m];
      assert marker[..|marker| - 1][k - m] == marker[k - m];
    }
    assert t[m + |marker| - 1] == t[m..m + |marker|][|marker| - 1];
  }

  /**
   * Extract finds nothing when the output's only quotes are at `q1` and at
   * `q2`, the last quote, and `marker` does not end at `q1`.
   */
  lemma {:induction false} ExtractMisses(t: string, marker: string, q1: nat, q2: nat)
    requires QuoteEnded(marker)
    requires forall k :: 0 <= k < |t| ==> (t[k] == '\'' ==> k == q1 || k == q2)
    requires q1 < q2 && q1 + 1 >= |marker| && !MatchAt(t, marker, q1 + 1 - |marker|)
    ensures Extract(t, marker) == None
  {
    match IndexOf(t, PanicMarker, 0)
    case None =>
    case Some(p) =>
      match IndexOf(t, marker, p)
      case None =>
      case Some(m) =>
        MarkerQuote(t, marker, m);
        assert m + |marker| - 1 == q2;
        forall k | m <= k < q2 ensures !MatchAt(t, "'", k) {
          QuoteMatch(t, k);
        }
        QuoteMatch(t, q2);
        IndexOfFirst(t, "'", m, q2);
        forall k | q2 + 1 <= k ensures !MatchAt(t, "'", k) {
          QuoteMatch(t, k);
        }
        IndexOfNone(t, "'", q2 + 1);
  }

  /** The scraper recovers a reason printed after the marker it expects. */
  lemma FindReasonRoundTrip(msg: string)
    requires NoQuote(msg)
    ensures FindReason(PanicMarker + "\n" + MessageMarker + msg + "'\n") == Some(msg)
  {
    var head := PanicMarker + "\n";
    assert head[..|PanicMarker|] == PanicMarker;
    ExtractFinds(head, MessageMarker, msg);
  }

  /**
   * Extract recovers the quoted reason from a text that starts with the panic
   * marker and continues, without quotes, up to `marker`.
   */
  lemma ExtractFinds(head: string, marker: string, msg: string)
    requires NoQuote(head) && NoQuote(msg) && QuoteEnded(marker)
    requires |PanicMarker| <= |head| && head[..|PanicMarker|] == PanicMarker
    ensures Extract(head + marker + msg + "'\n", marker) == Some(msg)
  {
    var t := head + marker + msg + "'\n";
    var h, q2 := |head|, |head| + |marker| + |msg|;
    MarkedLayout(head, marker, msg);
    IndexOfFirst(t, PanicMarker, 0, 0);
    ExtractSearches(t, marker, h, q2);
  }

  /** Where the marker, the reason and the quotes sit in such a text. */
  lemma MarkedLayout(head: string, marker: string, msg: string)
    requires NoQuote(head) && NoQuote(msg) && QuoteEnded(marker)
    requires |PanicMarker| <= |head| && head[..|PanicMarker|] == PanicMarker
    ensures var t, h, q2 := head + marker + msg + "'\n", |head|, |head| + |marker| + |msg|;
      MatchAt(t, PanicMarker, 0) && MatchAt(t, marker, h) &&
      (forall k :: 0 <= k < h + |marker| - 1 ==> t[k] != '\'') &&
      q2 < |t| && t[q2] == '\'' && t[h + |marker|..q2] == msg &&
      (forall k :: h + |marker| <= k < q2 ==> t[k] != '\'')
  {
    var t := head + marker + msg + "'\n";
    var h, q2 := |head|, |head| + |marker| + |msg|;
    assert t[..|PanicMarker|] == PanicMarker;
    assert t[h..h + |marker|] == marker;
    assert t[h + |marker|..q2] == msg;
    NoQuoteConcat(head, marker[..|marker| - 1]);
    assert t[..h + |marker| - 1] == head + marker[..|marker| - 1];
  }

  /** What __gallium_panic writes to stderr before the reason. */
  function PanicHead(file: string, line: nat): string
  {
    PanicMarker + "\n" + "  location: " + file + ":" + IntText(line) + "\n"
  }

  /** What __gallium_panic writes to stderr (runtime/src/panic.cc). */
  function PanicOutput(file: string, line: nat, msg: string): string
  {
    PanicHead(file, line) + RuntimeReasonMarker + msg + "'\n"
  }

  lemma PanicHeadNoQuote(file: string, line: nat)
    requires NoQuote(file)
    ensures NoQuote(PanicHead(file, line))
    ensures PanicHead(file, line)[..|PanicMarker|] == PanicMarker
  {
    Misc.NatDigitsAreDigits(line, 10);
    NoQuoteConcat(PanicMarker + "\n" + "  location: ", file);
    NoQuoteConcat(PanicMarker + "\n" + "  location: " + file, ":");
    NoQuoteConcat(PanicMarker + "\n" + "  location: " + file + ":", IntText(line));
    NoQuoteConcat(PanicMarker + "\n" + "  location: " + file + ":" + IntText(line), "\n");
  }

  /** With the runtime's marker, the reason of every runtime panic is recovered. */
  lemma FindReasonFixedRoundTrip(file: string, line: nat, msg: string)
    requires NoQuote(file) && NoQuote(msg)
    ensures FindReasonFixed(PanicOutput(file, line, msg)) == Some(msg)
  {
    PanicHeadNoQuote(file, line);
    ExtractFinds(PanicHead(file, line), RuntimeReasonMarker, msg);
  }

  /**
   * As written, the scraper never finds a reason in what the runtime's panic
   * handler prints: that text says "  reason: '", not "  message: '".
   */
  lemma FindReasonMissesRuntimePanic(file: string, line: nat, msg: string)
    requires NoQuote(file) && NoQuote(msg)
    ensures FindReason(PanicOutput(file, line, msg)) == None
  {
    var head := PanicHead(file, line);
    var t := PanicOutput(file, line, msg);
    var q1 := |head| + |RuntimeReasonMarker| - 1;
    var q2 := q1 + 1 + |msg|;
    PanicHeadNoQuote(file, line);
    NoQuoteConcat(head, RuntimeReasonMarker[..|RuntimeReasonMarker| - 1]);
    assert t == (head + RuntimeReasonMarker[..|RuntimeReasonMarker| - 1]) + "'" + msg + "'\n";
    var front := head + RuntimeReasonMarker[..|RuntimeReasonMarker| - 1];
    QuotedOnce(front, msg);
    assert t[q1 - 3] == front[q1 - 3] == 'n';
    assert t[q1 + 1 - |MessageMarker|..q1 + 1][8] == t[q1 - 3];
    ExtractMisses(t, MessageMarker, q1, q2);
  }

  /** In `front` + "'" + msg + "'\n", with no quote in front or msg, only the two written quotes are quotes. */
  lemma QuotedOnce(front: string, msg: string)
    requires NoQuote(front) && NoQuote(msg)
    ensures var t, q1 := front + "'" + msg + "'\n", |front|;
      forall k :: 0 <= k < |t| ==> (t[k] == '\'' ==> k == q1 || k == q1 + 1 + |msg|)
  {
    var t, q1 := front + "'" + msg + "'\n", |front|;
    var q2 := q1 + 1 + |msg|;
    forall k | 0 <= k < |t| ensures t[k] == '\'' ==> k == q1 || k == q2 {
      if k < q1 {
        assert t[k] == front[k];
      } else if q1 < k < q2 {
        assert t[k] == msg[k - q1 - 1];
      } else if k > q2 {
        assert t[k] == '\n';
      }
    }
  }

  /** execute_should_panic's decision on the artifact's stderr. */
  function ShouldPanicVerdict(args: seq<string>, stderr: string): (r: Option<string>)
    requires |args| >= 1
    ensures r == None <==> FindReason(stderr) == Some(args[0])
    ensures FindReason(stderr).None? ==> r == Some("expected a panic, but did not get one!")
    ensures FindReason(stderr).Some? && FindReason(stderr).value != args[0] ==>
      r == Some("expected reason `" + args[0] + "`, but got reason `" + FindReason(stderr).value + "`")
  {
    match FindReason(stderr)
    case None => Some("expected a panic, but did not get one!")
    case Some(reason) =>
      if reason != args[0] then Some("expected reason `" + args[0] + "`, but got reason `" + reason + "`")
      else None
  }

  /** No should-panic test can pass against the runtime's own panic output. */
  lemma ShouldPanicFailsOnRuntimePanic(args: seq<string>, file: string, line: nat, msg: string)
    requires |args| >= 1 && NoQuote(file) && NoQuote(msg)
    ensures ShouldPanicVerdict(args, PanicOutput(file, line, msg)) == Some("expected a panic, but did not get one!")
  {
    FindReasonMissesRuntimePanic(file, line, msg);
  }

  // ---------------------------------------------------------------------
  // execute_test

  /** The artifact name: the test path with every '/' and '\' replaced by '_'. */
  function Sanitize(path: string): (r: string)
    ensures |r| == |path|
    ensures forall i :: 0 <= i < |r| ==> r[i] != '/' && r[i] != '\\'
    ensures forall i :: 0 <= i < |r| && path[i] != '/' && path[i] != '\\' ==> r[i] == path[i]
  {
    ReplaceChar(ReplaceChar(path, '/', '_'), '\\', '_')
  }

  /** Two different tests can be given the same artifact. */
  lemma SanitizeNotInjective()
    ensures "a/b_c" != "a_b/c" && Sanitize("a/b_c") == Sanitize("a_b/c") == "a_b_c"
  {
  }

  /** Where the artifact goes, relative to the working directory. */
  function ArtifactPath(path: string): string
  {
    "./__tmp/" + Sanitize(path)
  }

  /** What running the compiler and then the artifact produced. */
  datatype RunResult = RunResult(returnCode: int, stdout: string, stderr: string)

  /** The argument lists read_test yields are the ones execute_test indexes into. */
  predicate WellFormed(test: TestCase)
  {
    (test.kind == "should-run" ==> |test.args| >= 2) && (test.kind == "should-panic" ==> |test.args| >= 1)
  }

  /**
   * execute_test: a compiler that printed anything fails the test before the
   * artifact runs; should-run and should-panic then get their verdicts, and
   * any other test type fails the `assert False`.
   */
  function ExecuteTest(test: TestCase, compileOutput: string, run: RunResult): (r: Result<Option<string>, PyError>)
    requires WellFormed(test)
    ensures test.kind !in {"should-run", "should-panic"} ==> r == Err(AssertionError)
    ensures test.kind in {"should-run", "should-panic"} && |Strip(compileOutput)| != 0 ==>
      r == Ok(Some("error from compiler!"))
    ensures test.kind == "should-run" && |Strip(compileOutput)| == 0 ==>
      r == ShouldRunVerdict(test.args, run.returnCode, run.stdout)
    ensures test.kind == "should-panic" && |Strip(compileOutput)| == 0 ==>
      r == Ok(ShouldPanicVerdict(test.args, run.stderr))
  {
    if test.kind == "should-run" then
      if |Strip(compileOutput)| != 0 then Ok(Some("error from compiler!"))
      else ShouldRunVerdict(test.args, run.returnCode, run.stdout)
    else if test.kind == "should-panic" then
      if |Strip(compileOutput)| != 0 then Ok(Some("error from compiler!"))
      else Ok(ShouldPanicVerdict(test.args, run.stderr))
    else Err(AssertionError)
  }

  /** No character of `s` is a slash. */
  predicate NoSlash(s: string)
  {
    forall k :: 0 <= k < |s| ==> s[k] != '/'
  }

  /** `(marker + rest).split(marker)[1] == rest` when `rest` has no slash. */
  lemma FirstFieldAfter(marker: string, rest: string)
    requires |marker| > 0 && marker[0] == '/' && NoSlash(rest)
    ensures SecondField(marker + rest, marker) == Some(rest)
  {
    var s := marker + rest;
    assert s[..|marker|] == marker;
    IndexOfFirst(s, marker, 0, 0);
    assert s[|marker|..] == rest;
    forall j | 0 <= j <= |rest| ensures !MatchAt(rest, marker, j) {
      if j + |marker| <= |rest| {
        assert rest[j..j + |marker|][0] == rest[j];
      }
    }
    IndexOfNone(rest, marker, 0);
  }

  /** The stripped header lines of a should-run test and their fields. */
  lemma ShouldRunLines(code: int, expected: string)
    requires expected != [] && !IsSpace(expected[|expected| - 1]) && NoSlash(expected)
    ensures var lines := StripLines([TestMarker + "should-run", ReturnsMarker + IntText(code), OutputsMarker + expected]);
      FieldOf(lines, 0, TestMarker) == Ok("should-run")
      && FieldOf(lines, 1, ReturnsMarker) == Ok(IntText(code))
      && FieldOf(lines, 2, OutputsMarker) == Ok(expected)
  {
    var digits := IntText(code);
    var raw := [TestMarker + "should-run", ReturnsMarker + digits, OutputsMarker + expected];
    IntTextEnds(code);
    StripUnchanged(raw[0]);
    StripUnchanged(raw[1]);
    StripUnchanged(raw[2]);
    var lines := StripLines(raw);
    assert lines[0] == raw[0];
    assert lines[1] == raw[1];
    assert lines[2] == raw[2];
    FirstFieldAfter(TestMarker, "should-run");
    FirstFieldAfter(ReturnsMarker, digits);
    FirstFieldAfter(OutputsMarker, expected);
  }

  /** The header of a should-run test reads back as its exit code and expected output. */
  lemma ReadShouldRunHeader(code: int, expected: string)
    requires expected != [] && !IsSpace(expected[|expected| - 1]) && NoSlash(expected)
    ensures ReadTest([TestMarker + "should-run", ReturnsMarker + IntText(code), OutputsMarker + expected])
      == Ok(("should-run", [IntText(code), expected]))
  {
    StripUnchanged("should-run");
    var raw := [TestMarker + "should-run", ReturnsMarker + IntText(code), OutputsMarker + expected];
    ShouldRunLines(code, expected);
    assert ArgsFor("should-run", StripLines(raw)) == Ok([IntText(code), expected]);
  }

  /**
   * A should-run file whose header states the exit code and stdout that the
   * artifact produces passes, provided the compiler printed nothing.
   */
  lemma ShouldRunHeaderPasses(path: string, code: int, expected: string, run: RunResult)
    requires expected != [] && !IsSpace(expected[|expected| - 1]) && NoSlash(expected)
    requires run.returnCode == code && (expected == "none" || expected == run.stdout)
    ensures ExecuteTest(TestCase(path, "should-run", [IntText(code), expected]), "", run) == Ok(None)
  {
    ReadShouldRunHeader(code, expected);
    ParseIntText(code);
  }

  /**
   * An expected output that is empty cannot be written: stripping removes the
   * space that ends "// outputs: ", and the split then fails.
   */
  lemma EmptyExpectedOutputUnreadable(code: int)
    ensures ReadTest([TestMarker + "should-run", ReturnsMarker + IntText(code), OutputsMarker]) == Err(IndexError)
  {
    StripUnchanged("should-run");
    var raw := [TestMarker + "should-run", ReturnsMarker + IntText(code), OutputsMarker];
    EmptyOutputsLines(code);
    assert ArgsFor("should-run", StripLines(raw)) == Err(IndexError);
  }

  /** The fields of those header lines once stripped: the third has lost its separator. */
  lemma EmptyOutputsLines(code: int)
    ensures var lines := StripLines([TestMarker + "should-run", ReturnsMarker + IntText(code), OutputsMarker]);
      FieldOf(lines, 0, TestMarker) == Ok("should-run")
      && FieldOf(lines, 1, ReturnsMarker) == Ok(IntText(code))
      && FieldOf(lines, 2, OutputsMarker) == Err(IndexError)
  {
    var digits := IntText(code);
    var raw := [TestMarker + "should-run", ReturnsMarker + digits, OutputsMarker];
    IntTextEnds(code);
    StripUnchanged(raw[0]);
    StripUnchanged(raw[1]);
    assert Strip(OutputsMarker) == "// outputs:";
    var lines := StripLines(raw);
    assert lines[0] == raw[0];
    assert lines[1] == raw[1];
    assert lines[2] == "// outputs:";
    FirstFieldAfter(TestMarker, "should-run");
    FirstFieldAfter(ReturnsMarker, digits);
    IndexOfNone("// outputs:", OutputsMarker, 0);
  }

  // ---------------------------------------------------------------------
  // main: discovery, the pool run, reporting and the temporary directory.

  const TestRoot: string := "./tests/compiler/"

  /** A test file os.walk found, with what the compiler and the artifact produce for it. */
  datatype TestFile = TestFile(relPath: string, lines: seq<string>, compileOutput: string, run: RunResult)

  /** The discovery loop: one test per file in walk order; the first read error propagates. */
  function Discover(files: seq<TestFile>): (r: Result<seq<TestCase>, PyError>)
    ensures r.Ok? ==> |r.value| == |files|
    ensures r.Ok? ==> forall i :: 0 <= i < |files| ==> WellFormed(r.value[i])
  {
    if files == [] then Ok([])
    else
      match Discover(files[..|files| - 1])
      case Err(e) => Err(e)
      case Ok(tests) =>
        var last := files[|files| - 1];
        match ReadTest(last.lines)
        case Err(e) => Err(e)
        case Ok(header) => Ok(tests + [TestCase(TestRoot + last.relPath, header.0, header.1)])
  }

  /** What the discovery loop prints: read_test's line for the file whose read ended it, if any. */
  function DiscoverPrints(files: seq<TestFile>): (r: seq<string>)
    ensures Discover(files).Ok? ==> r == []
    ensures |r| <= 1
    ensures r != [] ==> Discover(files) == Err(AssertionError)
  {
    if files == [] then []
    else
      var prefix := files[..|files| - 1];
      match Discover(prefix)
      case Err(_) => DiscoverPrints(prefix)
      case Ok(_) => ReadTestPrints(files[|files| - 1].lines)
  }

  /** Pool.map's outcome over the verdicts of the tests: the first exception in test order, or every verdict in order. */
  function Collect(verdicts: seq<Result<Option<string>, PyError>>): (r: Result<seq<Option<string>>, PyError>)
    ensures r.Ok? ==> |r.value| == |verdicts|
  {
    if verdicts == [] then Ok([])
    else
      var n := |verdicts| - 1;
      match Collect(verdicts[..n])
      case Err(e) => Err(e)
      case Ok(results) =>
        match verdicts[n]
        case Err(e) => Err(e)
        case Ok(verdict) => Ok(results + [verdict])
  }

  /**
   * Pool.map(execute_test, tests): the i-th result belongs to the i-th test;
   * an exception raised for any test propagates.
   */
  function RunAll(tests: seq<TestCase>, files: seq<TestFile>): (r: Result<seq<Option<string>>, PyError>)
    requires |tests| <= |files| && forall i :: 0 <= i < |tests| ==> WellFormed(tests[i])
    ensures r.Ok? ==> |r.value| == |tests|
  {
    Collect(seq(|tests|, i requires 0 <= i < |tests| => ExecuteTest(tests[i], files[i].compileOutput, files[i].run)))
  }

  /** The line printed for one result. */
  function ResultLine(relPath: string, result: Option<string>): string
  {
    if result.None? then "[passed!] test " + relPath else "[failed!] test " + relPath
  }

  /** The pass/fail lines, one per result, in result order. */
  function ResultLines(files: seq<TestFile>, results: seq<Option<string>>): (lines: seq<string>)
    requires |results| <= |files|
    ensures |lines| == |results|
  {
    if results == [] then []
    else
      var n := |results| - 1;
      ResultLines(files, results[..n]) + [ResultLine(files[n].relPath, results[n])]
  }

  /** The (index, reason) list of failed results, as the reporting loop collects it. */
  function Failures(results: seq<Option<string>>): (failures: seq<(nat, string)>)
    ensures forall j :: 0 <= j < |failures| ==> failures[j].0 < |results|
  {
    if results == [] then []
    else
      var n := |results| - 1;
      Failures(results[..n]) + (if results[n].Some? then [(n, results[n].value)] else [])
  }

  /** The lines printed for the failures, three per failure, in list order. */
  function FailureLines(files: seq<TestFile>, tests: seq<TestCase>, failures: seq<(nat, string)>): (lines: seq<string>)
    requires |tests| <= |files| && forall j :: 0 <= j < |failures| ==> failures[j].0 < |tests|
    ensures |lines| == 3 * |failures|
  {
    if failures == [] then []
    else
      var n := |failures| - 1;
      var (i, reason) := failures[n];
      FailureLines(files, tests, failures[..n])
      + ["failure: " + files[i].relPath, "    test type: '" + tests[i].kind + "'", "    reason: " + reason]
  }

  /** What a run of main prints and how it ends, when the temporary directory did not exist. */
  function Session(files: seq<TestFile>): (Result<(), PyError>, seq<string>)
  {
    match Discover(files)
    case Err(e) => (Err(e), DiscoverPrints(files))
    case Ok(tests) =>
      match RunAll(tests, files)
      case Err(e) => (Err(e), [])
      case Ok(results) =>
        (Ok(()), ResultLines(files, results) + FailureLines(files, tests, Failures(results)))
  }

  /** Result lines follow discovery order: line i reports test i. */
  lemma {:induction false} ResultLinesInOrder(files: seq<TestFile>, results: seq<Option<string>>, i: nat)
    requires |results| <= |files| && i < |results|
    ensures ResultLines(files, results)[i] == ResultLine(files[i].relPath, results[i])
  {
    var n := |results| - 1;
    if i < n {
      ResultLinesInOrder(files, results[..n], i);
    }
  }

  /**
   * The failure list holds exactly the failed results, each with its reason,
   * in ascending index order.
   */
  lemma {:induction false} FailuresInOrder(results: seq<Option<string>>)
    ensures forall j, k :: 0 <= j < k < |Failures(results)| ==> Failures(results)[j].0 < Failures(results)[k].0
    ensures forall j :: 0 <= j < |Failures(results)| ==>
      results[Failures(results)[j].0] == Some(Failures(results)[j].1)
    ensures forall i :: 0 <= i < |results| && results[i].Some? ==> exists j :: 0 <= j < |Failures(results)| && Failures(results)[j].0 == i
  {
    if results != [] {
      var n := |results| - 1;
      var prefix := results[..n];
      FailuresInOrder(prefix);
      var f := Failures(results);
      assert Failures(prefix) == f[..|Failures(prefix)|];
      forall i | 0 <= i < |results| && results[i].Some?
        ensures exists j :: 0 <= j < |f| && f[j].0 == i
      {
        if i < n {
          assert prefix[i] == results[i];
          var j :| 0 <= j < |Failures(prefix)| && Failures(prefix)[j].0 == i;
          assert f[j] == Failures(prefix)[j];
        } else {
          assert f[|f| - 1] == (n, results[n].value);
        }
      }
    }
  }

  /** The harness's process state: the temporary directory and the console. */
  class Harness {
    var tmpExists: bool
    var console: seq<string>

    constructor ()
      ensures !tmpExists && console == []
    {
      tmpExists := false;
      console := [];
    }

    /**
     * main (modelled as Run): creates __tmp/, discovers and reads the tests, runs them, prints
     * one line per test and then the failures, and removes __tmp/ whether or
     * not an exception was raised after it was created.
     */
    method Run(files: seq<TestFile>) returns (outcome: Result<(), PyError>)
      modifies this
      ensures |console| >= |old(console)| && console[..|old(console)|] == old(console)
      ensures old(tmpExists) ==> outcome == Err(FileExistsError) && tmpExists && console == old(console)
      ensures !old(tmpExists) ==> !tmpExists
      ensures !old(tmpExists) ==> (outcome, console[|old(console)|..]) == Session(files)
    {
      if tmpExists {
        return Err(FileExistsError);
      }
      tmpExists := true;
      var discovered := DiscoverTests(files);
      if discovered.Err? {
        assert console[|old(console)|..] == DiscoverPrints(files);
        tmpExists := false;
        return Err(discovered.error);
      }
      var tests := discovered.value;
      var run := RunAll(tests, files);
      if run.Err? {
        assert console[|console|..] == [];
        tmpExists := false;
        return Err(run.error);
      }
      var results := run.value;
      Report(files, tests, results);
      tmpExists := false;
      outcome := Ok(());
    }

    /** main's reporting stage: one line per test, then the failures when there are any. */
    method Report(files: seq<TestFile>, tests: seq<TestCase>, results: seq<Option<string>>)
      requires |results| == |tests| <= |files|
      modifies this
      ensures console == old(console) + (ResultLines(files, results) + FailureLines(files, tests, Failures(results)))
      ensures tmpExists == old(tmpExists)
    {
      var failures := PrintResults(files, results);
      if |failures| != 0 {
        PrintFailures(files, tests, failures);
      } else {
        assert FailureLines(files, tests, failures) == [];
      }
      AppendAssoc(old(console), ResultLines(files, results), FailureLines(files, tests, failures));
    }

    /** read_test on one file: its type and arguments, and the line it prints for an unknown type. */
    method ReadTestFile(rawLines: seq<string>) returns (r: Result<(string, seq<string>), PyError>)
      modifies this
      ensures r == ReadTest(rawLines)
      ensures console == old(console) + ReadTestPrints(rawLines) && tmpExists == old(tmpExists)
    {
      r := ReadTest(rawLines);
      console := console + ReadTestPrints(rawLines);
    }

    /** The discovery loop: reads every file in walk order, stopping at the first error. */
    method DiscoverTests(files: seq<TestFile>) returns (r: Result<seq<TestCase>, PyError>)
      modifies this
      ensures r == Discover(files)
      ensures console == old(console) + DiscoverPrints(files) && tmpExists == old(tmpExists)
    {
      var tests: seq<TestCase> := [];
      for i := 0 to |files|
        invariant Discover(files[..i]) == Ok(tests)
        invariant console == old(console) && tmpExists == old(tmpExists)
      {
        var next := AppendTest(files, i, tests);
        if next.Err? {
          DiscoverErrorSticks(files, i + 1);
          DiscoverPrintsStick(files, i + 1);
          return next;
        }
        tests := next.value;
      }
      assert files[..|files|] == files;
      return Ok(tests);
    }

    /** One iteration of the walk: read_test on file `i`, its test appended to those found so far. */
    method AppendTest(files: seq<TestFile>, i: nat, tests: seq<TestCase>) returns (r: Result<seq<TestCase>, PyError>)
      requires i < |files| && Discover(files[..i]) == Ok(tests)
      modifies this
      ensures r == Discover(files[..i + 1])
      ensures console == old(console) + DiscoverPrints(files[..i + 1]) && tmpExists == old(tmpExists)
    {
      ghost var upTo := files[..i + 1];
      assert upTo[..|upTo| - 1] == files[..i] && upTo[|upTo| - 1] == files[i];
      assert DiscoverPrints(upTo) == ReadTestPrints(files[i].lines);
      var header := ReadTestFile(files[i].lines);
      match header
      case Err(e) =>
        r := Err(e);
      case Ok(h) =>
        r := Ok(tests + [TestCase(TestRoot + files[i].relPath, h.0, h.1)]);
    }

    /** The pass/fail loop: prints one line per result and collects the failures. */
    method PrintResults(files: seq<TestFile>, results: seq<Option<string>>) returns (failures: seq<(nat, string)>)
      requires |results| <= |files|
      modifies this
      ensures console == old(console) + ResultLines(files, results) && tmpExists == old(tmpExists)
      ensures failures == Failures(results)
    {
      failures := [];
      for k := 0 to |results|
        invariant console == old(console) + ResultLines(files, results[..k]) && tmpExists == old(tmpExists)
        invariant failures == Failures(results[..k])
      {
        assert results[..k + 1][..k] == results[..k];
        console := console + [ResultLine(files[k].relPath, results[k])];
        if results[k].Some? {
          failures := failures + [(k, results[k].value)];
        }
      }
      assert results[..|results|] == results;
    }

    /** The failure report: three lines per failure, in list order. */
    method PrintFailures(files: seq<TestFile>, tests: seq<TestCase>, failures: seq<(nat, string)>)
      requires |tests| <= |files| && forall j :: 0 <= j < |failures| ==> failures[j].0 < |tests|
      modifies this
      ensures console == old(console) + FailureLines(files, tests, failures) && tmpExists == old(tmpExists)
    {
      for j := 0 to |failures|
        invariant console == old(console) + FailureLines(files, tests, failures[..j]) && tmpExists == old(tmpExists)
      {
        assert failures[..j + 1][..j] == failures[..j];
        var (idx, reason) := failures[j];
        console := console + ["failure: " + files[idx].relPath, "    test type: '" + tests[idx].kind + "'", "    reason: " + reason];
      }
      assert failures[..|failures|] == failures;
    }
  }

  /** A successful discovery extends the discovery of all but the last file by that file's test. */
  lemma DiscoverLast(files: seq<TestFile>)
    requires Discover(files).Ok? && |files| > 0
    ensures Discover(files[..|files| - 1]).Ok? && ReadTest(files[|files| - 1].lines).Ok?
    ensures Discover(files).value == Discover(files[..|files| - 1]).value
      + [TestCase(TestRoot + files[|files| - 1].relPath, ReadTest(files[|files| - 1].lines).value.0, ReadTest(files[|files| - 1].lines).value.1)]
  {
  }

  /** Test i of a successful discovery is what read_test makes of file i, under its path. */
  lemma {:induction false} DiscoverAt(files: seq<TestFile>, i: nat)
    requires Discover(files).Ok? && i < |files|
    ensures ReadTest(files[i].lines).Ok?
    ensures Discover(files).value[i] == TestCase(TestRoot + files[i].relPath, ReadTest(files[i].lines).value.0, ReadTest(files[i].lines).value.1)
  {
    var n := |files| - 1;
    DiscoverLast(files);
    if i < n {
      var prefix := files[..n];
      DiscoverAt(prefix, i);
      assert prefix[i] == files[i];
      assert Discover(files).value[i] == Discover(prefix).value[i];
      assert ReadTest(files[i].lines).Ok?;
    } else {
      assert i == n;
      assert ReadTest(files[i].lines).Ok?;
    }
  }

  /** Result i of a successful collection is the i-th verdict. */
  lemma {:induction false} CollectAt(verdicts: seq<Result<Option<string>, PyError>>, i: nat)
    requires Collect(verdicts).Ok? && i < |verdicts|
    ensures verdicts[i] == Ok(Collect(verdicts).value[i])
  {
    var n := |verdicts| - 1;
    if i < n {
      CollectAt(verdicts[..n], i);
    }
  }

  /** Verdict i is exception e and every earlier verdict is a success. */
  predicate FirstError(verdicts: seq<Result<Option<string>, PyError>>, i: int, e: PyError)
  {
    0 <= i < |verdicts| && verdicts[i] == Err(e) && forall j :: 0 <= j < i ==> verdicts[j].Ok?
  }

  /** A failed collection reports the first exception: every earlier verdict is a success. */
  lemma {:induction false} CollectFirstError(verdicts: seq<Result<Option<string>, PyError>>)
    requires Collect(verdicts).Err?
    ensures exists i :: FirstError(verdicts, i, Collect(verdicts).error)
  {
    var n := |verdicts| - 1;
    var prefix := verdicts[..n];
    if Collect(prefix).Err? {
      CollectFirstError(prefix);
      var i :| FirstError(prefix, i, Collect(prefix).error);
      assert verdicts[i] == prefix[i];
      assert FirstError(verdicts, i, Collect(verdicts).error);
    } else {
      forall j | 0 <= j < n ensures verdicts[j].Ok? {
        CollectAt(prefix, j);
      }
      assert FirstError(verdicts, n, Collect(verdicts).error);
    }
  }

  /** Result i of a successful run is execute_test's verdict on test i. */
  lemma RunAllAt(tests: seq<TestCase>, files: seq<TestFile>, i: nat)
    requires |tests| <= |files| && forall j :: 0 <= j < |tests| ==> WellFormed(tests[j])
    requires RunAll(tests, files).Ok? && i < |tests|
    ensures ExecuteTest(tests[i], files[i].compileOutput, files[i].run) == Ok(RunAll(tests, files).value[i])
  {
    CollectAt(seq(|tests|, j requires 0 <= j < |tests| => ExecuteTest(tests[j], files[j].compileOutput, files[j].run)), i);
  }

  /** Once the discovery of a prefix fails, later files print nothing more. */
  lemma {:induction false} DiscoverPrintsStick(files: seq<TestFile>, i: nat)
    requires 0 < i <= |files| && Discover(files[..i]).Err?
    ensures DiscoverPrints(files) == DiscoverPrints(files[..i])
    decreases |files| - i
  {
    if i == |files| {
      assert files[..i] == files;
    } else {
      assert files[..i + 1][..i] == files[..i];
      DiscoverErrorSticks(files[..i + 1], i);
      DiscoverPrintsStick(files, i + 1);
    }
  }

  /** Once a prefix of the files fails to read, discovery of any longer prefix fails the same way. */
  lemma {:induction false} DiscoverErrorSticks(files: seq<TestFile>, i: nat)
    requires 0 < i <= |files| && Discover(files[..i]).Err?
    ensures Discover(files).Err? && Discover(files).error == Discover(files[..i]).error
    decreases |files| - i
  {
    if i == |files| {
      assert files[..i] == files;
    } else {
      assert files[..i + 1][..i] == files[..i];
      DiscoverErrorSticks(files, i + 1);
    }
  }
}
