// The older diagnostics renderer (compiler/src/core/error_reporting.cc).
//
// Its headers, underline strings, line splitting and line breaking are the
// same code as the newer renderer's and are taken from the Diagnostics
// module. What differs: the span list is not sorted, the important span is
// swapped to the front instead, the file line reads `>>> file:line:column`,
// spans carry no inline message and no "..." lines, and the explanation
// table knows only codes 1 to 5.
module LegacyDiagnostics {
  import opened Basics
  import opened SourceLocs
  import opened Diagnostics

  /** The list with the elements at `i` and `j` exchanged (std::swap). */
  function Swap<T>(list: seq<T>, i: nat, j: nat): (r: seq<T>)
    requires i < |list| && j < |list|
    ensures |r| == |list| && r[i] == list[j] && r[j] == list[i]
    ensures forall k :: 0 <= k < |list| && k != i && k != j ==> r[k] == list[k]
    ensures multiset(r) == multiset(list)
  {
    list[i := list[j]][j := list[i]]
  }

  /**
   * UnderlineList's constructor: it needs a non-empty list in a single file
   * and swaps the important span (first error, else first warning, else the
   * first span) with the front one.
   */
  method NewUnderlineList(locs: seq<PointedOut>) returns (list: seq<PointedOut>)
    requires |locs| > 0
    requires forall i :: 0 <= i < |locs| ==> locs[i].loc.file == locs[0].loc.file
    ensures list == Swap(locs, ImportantIndex(locs), 0)
  {
    var it := 0;
    while it < |locs| && locs[it].dtype != Error
      invariant it <= |locs|
      invariant forall j :: 0 <= j < it ==> locs[j].dtype != Error
    {
      it := it + 1;
    }
    if it == |locs| {
      it := 0;
      while it < |locs| && locs[it].dtype != Warning
        invariant it <= |locs|
        invariant forall j :: 0 <= j < it ==> locs[j].dtype != Warning
      {
        it := it + 1;
      }
      if it == |locs| {
        it := 0;
      }
    }
    assert it == ImportantIndex(locs);
    list := locs;
    var front := list[0];
    list := list[0 := list[it]];
    list := list[it := front];
  }

  /**
   * After construction the front span is the important one, the spans are
   * the same, and every span but the front and the important one keeps its
   * place.
   */
  lemma SwapPutsImportantFirst(locs: seq<PointedOut>)
    requires |locs| > 0
    ensures var list := Swap(locs, ImportantIndex(locs), 0);
      list[0].loc == ImportantLoc(locs) && multiset(list) == multiset(locs) &&
      forall k :: 0 < k < |locs| && k != ImportantIndex(locs) ==> list[k] == locs[k]
  {
  }

  /** The list is not sorted by position: a later error moves in front of an earlier note. */
  lemma SwapDoesNotSort()
    ensures var note := PointedOut(SourceLoc("a", 1, 1, "f"), "", Note, Straight);
      var error := PointedOut(SourceLoc("b", 2, 1, "f"), "", Error, Squiggly);
      Swap([note, error], ImportantIndex([note, error]), 0) == [error, note] &&
      !SortedByPosition([error, note])
  {
    var note := PointedOut(SourceLoc("a", 1, 1, "f"), "", Note, Straight);
    var error := PointedOut(SourceLoc("b", 2, 1, "f"), "", Error, Squiggly);
    assert FirstOf([note, error], Error) == Some(1) by {
      assert [note, error][1..] == [error];
    }
    assert Before(note, error);
  }

  /** The file line: `>>> file:line:column` of the front span, in blue. */
  function FileLine(padding: string, loc: SourceLoc): string
  {
    padding + ">>> " + ColorBlue + loc.file + ":" + Decimal(loc.line) + ":" + Decimal(loc.column)
      + ColorReset + "\n"
  }

  /**
   * One span: a gutter as wide as its own line number, the line with the
   * span's text coloured, and the underline. There is no inline message.
   */
  function SpanText(info: PointedOut, lines: seq<string>, padding: string): string
    requires Renderable(info, lines)
  {
    Concat(SpanPieces(info, lines, padding))
  }

  /** The pieces internal_build's loop appends for one span, in order. */
  function SpanPieces(info: PointedOut, lines: seq<string>, padding: string): seq<string>
    requires Renderable(info, lines)
  {
    var loc := info.loc;
    var p := Pieces(lines[loc.line - 1], loc);
    var gutter := Repeat(' ', |Decimal(loc.line)|);
    var underline := Repeat(' ', |p.start|) + Colored(info.dtype, UnderlineWith(|p.pointedOut|, info.underline));
    [padding, gutter, " |\n",
     padding, Decimal(loc.line), " | ", p.start, Colored(info.dtype, p.pointedOut), p.rest, "\n",
     padding, gutter, " | ", underline]
  }

  /** The first `n` spans, each after the one before it. */
  function SpansText(list: seq<PointedOut>, n: nat, lines: seq<string>, padding: string): string
    requires n <= |list|
    requires forall i :: 0 <= i < |list| ==> Renderable(list[i], lines)
  {
    if n == 0 then "" else SpansText(list, n - 1, lines, padding) + SpanText(list[n - 1], lines, padding)
  }

  /** UnderlineList::internal_build as a value: the front span's file line, then each span. */
  function UnderlineText(list: seq<PointedOut>, lines: seq<string>, padding: string): string
    requires |list| > 0 && AllRenderable(list, lines)
  {
    FileLine(padding, list[0].loc) + SpansText(list, |list|, lines, padding)
  }

  /** UnderlineList::internal_build: appends the file line and then each span to a builder. */
  method BuildUnderlines(list: seq<PointedOut>, lines: seq<string>, padding: string) returns (builder: string)
    requires |list| > 0 && AllRenderable(list, lines)
    ensures builder == UnderlineText(list, lines, padding)
  {
    builder := AppendSpans(FileLine(padding, list[0].loc), list, lines, padding);
  }

  /** internal_build's loop: each span appended in order to what the builder already holds. */
  method AppendSpans(head: string, list: seq<PointedOut>, lines: seq<string>, padding: string) returns (builder: string)
    requires AllRenderable(list, lines)
    ensures builder == head + SpansText(list, |list|, lines, padding)
  {
    builder := head;
    for i := 0 to |list|
      invariant builder == head + SpansText(list, i, lines, padding)
    {
      SpansStep(head, builder, list, i, lines, padding);
      builder := builder + SpanText(list[i], lines, padding);
    }
  }

  /** Appending the next span to the file line and the first `i` spans gives the first `i + 1`. */
  lemma SpansStep(head: string, before: string, list: seq<PointedOut>, i: nat, lines: seq<string>, padding: string)
    requires i < |list| && AllRenderable(list, lines)
    requires before == head + SpansText(list, i, lines, padding)
    ensures before + SpanText(list[i], lines, padding) == head + SpansText(list, i + 1, lines, padding)
  {
    AppendAssoc(head, SpansText(list, i, lines, padding), SpanText(list[i], lines, padding));
  }

  lemma SwapKeepsRenderable(locs: seq<PointedOut>, lines: seq<string>)
    requires |locs| > 0 && AllRenderable(locs, lines)
    ensures AllRenderable(Swap(locs, ImportantIndex(locs), 0), lines)
  {
    var list := Swap(locs, ImportantIndex(locs), 0);
    forall k | 0 <= k < |list|
      ensures Renderable(list[k], lines)
    {
      if k == 0 {
        assert list[0] == locs[ImportantIndex(locs)];
      } else if k == ImportantIndex(locs) {
        assert list[k] == locs[0];
      } else {
        assert list[k] == locs[k];
      }
    }
  }

  /** A built list opens with the file line of its important span, the first error when there is one. */
  lemma BuiltListNamesImportantSpan(locs: seq<PointedOut>, lines: seq<string>, padding: string)
    requires |locs| > 0 && AllRenderable(locs, lines)
    ensures AllRenderable(Swap(locs, ImportantIndex(locs), 0), lines)
    ensures var text := UnderlineText(Swap(locs, ImportantIndex(locs), 0), lines, padding);
      var head := FileLine(padding, ImportantLoc(locs));
      |head| <= |text| && text[..|head|] == head
  {
    SwapKeepsRenderable(locs, lines);
    var list := Swap(locs, ImportantIndex(locs), 0);
    assert list[0].loc == ImportantLoc(locs);
  }

  /** diagnostic_info: only codes 1 to 5 have an entry; any other code fails the `.at` lookup. */
  function Info(code: int): (r: Option<DiagnosticInfo>)
    ensures r.Some? <==> 1 <= code <= 5
    ensures r.Some? ==> r == Diagnostics.Info(code) && r.value.dtype == Error
  {
    if 1 <= code <= 5 then Diagnostics.Info(code) else None
  }

  /**
   * The codes the environment reports (6, 8 and 9) have no entry here,
   * although the newer table has them.
   */
  lemma EnvironmentCodesUnknown()
    ensures Info(6).None? && Info(8).None? && Info(9).None?
    ensures Diagnostics.Info(6).Some? && Diagnostics.Info(8).Some? && Diagnostics.Info(9).Some?
  {
  }

  /** The part kinds of the older renderer: a single message or an already-arranged span list. */
  datatype Part = SingleMessage(message: string, dtype: DiagnosticType, code: int) | Spans(list: seq<PointedOut>)

  predicate PartBuildable(part: Part, source: string)
  {
    match part
    case SingleMessage(_, t, code) => t == Note ==> code == -1
    case Spans(list) => |list| > 0 && AllRenderable(list, LinesAsWritten(source))
  }

  function PartText(part: Part, source: string, padding: string): string
    requires PartBuildable(part, source)
  {
    match part
    case SingleMessage(message, t, code) => padding + HeaderUncolored(t, code) + message
    case Spans(list) => UnderlineText(list, LinesAsWritten(source), padding)
  }

  function PartTexts(parts: seq<Part>, source: string): (r: seq<string>)
    requires forall i :: 0 <= i < |parts| ==> PartBuildable(parts[i], source)
    ensures |r| == |parts|
  {
    if parts == [] then [] else [PartText(parts[0], source, " ")] + PartTexts(parts[1..], source)
  }

  /**
   * report_diagnostic: Diagnostic::build (header with code and one-liner,
   * then the parts, the explanation note last) followed by a blank line.
   */
  function ReportText(code: int, parts: seq<Part>, source: string): (r: string)
    requires Info(code).Some?
    requires forall i :: 0 <= i < |parts| ==> PartBuildable(parts[i], source)
  {
    var info := Info(code).value;
    var all := parts + [Part.SingleMessage(info.explanation, Note, -1)];
    assert forall i :: 0 <= i < |all| ==> PartBuildable(all[i], source) by {
      forall i | 0 <= i < |all|
        ensures PartBuildable(all[i], source)
      {
        if i < |parts| {
          assert all[i] == parts[i];
        }
      }
    }
    HeaderUncolored(info.dtype, code) + info.oneLiner + "\n" + Join(PartTexts(all, source), "\n") + "\n\n"
  }

  /** A message-only part of the older renderer as the newer renderer's part. */
  function AsNewer(p: Part): Diagnostics.Part
    requires p.SingleMessage?
  {
    Diagnostics.Part.SingleMessage(p.message, p.dtype, p.code)
  }

  function AllAsNewer(parts: seq<Part>): (r: seq<Diagnostics.Part>)
    requires forall i :: 0 <= i < |parts| ==> parts[i].SingleMessage?
    ensures |r| == |parts| && forall i :: 0 <= i < |parts| ==> r[i] == AsNewer(parts[i])
  {
    if parts == [] then [] else [AsNewer(parts[0])] + AllAsNewer(parts[1..])
  }

  lemma {:induction false} TextsAgree(parts: seq<Part>, source: string)
    requires forall i :: 0 <= i < |parts| ==> parts[i].SingleMessage? && PartBuildable(parts[i], source)
    ensures forall i :: 0 <= i < |parts| ==> Diagnostics.PartBuildable(AllAsNewer(parts)[i], source)
    ensures PartTexts(parts, source) == Diagnostics.PartTexts(AllAsNewer(parts), source)
  {
    var newer := AllAsNewer(parts);
    assert forall i :: 0 <= i < |parts| ==> Diagnostics.PartBuildable(newer[i], source);
    if parts != [] {
      assert forall i :: 0 <= i < |parts[1..]| ==> parts[1..][i] == parts[i + 1];
      TextsAgree(parts[1..], source);
      assert newer[1..] == AllAsNewer(parts[1..]);
    }
  }

  /**
   * On diagnostics made only of messages, the older renderer prints exactly
   * what the newer one builds, followed by the blank line report_diagnostic
   * adds.
   */
  lemma MessagesRenderAlike(code: int, parts: seq<Part>, source: string)
    requires 1 <= code <= 5
    requires forall i :: 0 <= i < |parts| ==> parts[i].SingleMessage? && PartBuildable(parts[i], source)
    ensures forall i :: 0 <= i < |parts| ==> Diagnostics.PartBuildable(AllAsNewer(parts)[i], source)
    ensures Diagnostics.Buildable(NewDiagnostic(code, AllAsNewer(parts)), source)
    ensures ReportText(code, parts, source) == Build(NewDiagnostic(code, AllAsNewer(parts)), source) + "\n\n"
  {
    TextsAgree(parts, source);
    var newer := AllAsNewer(parts);
    NewDiagnosticBuildable(code, newer, source);
    var info := Info(code).value;
    var note := Part.SingleMessage(info.explanation, Note, -1);
    var all := parts + [note];
    ReportTextForm(code, parts, source);
    var d := NewDiagnostic(code, newer);
    assert AllAsNewer(all) == d.parts by {
      TextsAgreeOnParts(parts, note, newer);
    }
    var texts := PartTexts(all, source);
    var head := HeaderUncolored(Error, code) + info.oneLiner + "\n";
    assert texts == Diagnostics.PartTexts(d.parts, source) by {
      TextsAgree(all, source);
    }
    assert Build(d, source) == head + Join(texts, "\n") by {
      BuildForm(d, source);
    }
  }

  lemma BuildForm(d: Diagnostic, source: string)
    requires Buildable(d, source) && 1 <= d.code <= 5
    ensures Build(d, source)
      == HeaderUncolored(Error, d.code) + Info(d.code).value.oneLiner + "\n" + Join(Diagnostics.PartTexts(d.parts, source), "\n")
  {
  }

  lemma ReportTextForm(code: int, parts: seq<Part>, source: string)
    requires Info(code).Some?
    requires forall i :: 0 <= i < |parts| ==> PartBuildable(parts[i], source)
    ensures var info := Info(code).value;
      var all := parts + [Part.SingleMessage(info.explanation, Note, -1)];
      (forall i :: 0 <= i < |all| ==> PartBuildable(all[i], source)) &&
      ReportText(code, parts, source)
        == HeaderUncolored(Error, code) + info.oneLiner + "\n" + Join(PartTexts(all, source), "\n") + "\n\n"
  {
    var all := parts + [Part.SingleMessage(Info(code).value.explanation, Note, -1)];
    assert forall i :: 0 <= i < |parts| ==> all[i] == parts[i];
  }

  lemma TextsAgreeOnParts(parts: seq<Part>, note: Part, newer: seq<Diagnostics.Part>)
    requires forall i :: 0 <= i < |parts| ==> parts[i].SingleMessage?
    requires note.SingleMessage? && newer == AllAsNewer(parts)
    ensures forall i :: 0 <= i < |parts + [note]| ==> (parts + [note])[i].SingleMessage?
    ensures AllAsNewer(parts + [note]) == newer + [AsNewer(note)]
  {
    var all := parts + [note];
    assert forall i :: 0 <= i < |parts| ==> all[i] == parts[i];
  }
}
