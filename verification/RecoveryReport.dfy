/** What the snapshot of a transcript reports, read off the lines of its text: each warning, its line, and their order. */
module RecoveryReport {
  import opened LineRing
  import opened ParentChain
  import opened RecoveryScan
  import opened RecoverySnapshot
  import opened Utf8
  import opened Wrappers

  // ---- The lines of the text ----

  /** Lines are counted from 0 here; warnings count them from 1. */
  predicate Retained(lines: seq<Line>, i: int) {
    0 <= i < |lines| && |lines| - 900 <= i
  }

  predicate Dropped(lines: seq<Line>, i: int) {
    0 <= i < |lines| - 900
  }

  predicate CarriesId(reader: Reader, line: Line, id: string) {
    reader.parse(line.raw).Record? && reader.parse(line.raw).id == Some(id)
  }

  predicate NamesParent(reader: Reader, line: Line, parent: string) {
    reader.parse(line.raw).Record? && reader.parse(line.raw).parent == Some(parent)
  }

  ghost predicate Contains(text: string, part: string) {
    exists before, after :: text == before + part + after
  }

  /** The line does not parse, and has the id in it, as it is or as JSON writes it, before or after its escapes are decoded. */
  ghost predicate Mentions(reader: Reader, line: Line, id: string) {
    && reader.parse(line.raw).Malformed?
    && (|| Contains(line.raw, id) || Contains(line.raw, JsonBody(id))
        || Contains(reader.decodeEscapes(line.raw), id) || Contains(reader.decodeEscapes(line.raw), JsonBody(id)))
  }

  ghost predicate RetainedId(reader: Reader, lines: seq<Line>, id: string) {
    exists i :: Retained(lines, i) && CarriesId(reader, lines[i], id)
  }

  ghost predicate DroppedId(reader: Reader, lines: seq<Line>, id: string) {
    exists i :: Dropped(lines, i) && CarriesId(reader, lines[i], id)
  }

  ghost predicate Mentioned(reader: Reader, lines: seq<Line>, id: string) {
    exists i :: 0 <= i < |lines| && Mentions(reader, lines[i], id)
  }

  /** A retained record names a parent that no retained record is. */
  ghost predicate Dangling(reader: Reader, lines: seq<Line>, i: int, parent: string) {
    Retained(lines, i) && NamesParent(reader, lines[i], parent) && !RetainedId(reader, lines, parent)
  }

  /** What a warning says of the line with its number. */
  ghost predicate Holds(reader: Reader, lines: seq<Line>, w: Warning) {
    var i := w.line - 1;
    match w.code
    case TruncatedPrefix => w.line == 1 && |lines| > 900
    case PartialFinalRecord => Retained(lines, i) && reader.parse(lines[i].raw).Malformed? && lines[i].unterminated
    case MalformedRecord => Retained(lines, i) && reader.parse(lines[i].raw).Malformed? && !lines[i].unterminated
    case UnknownRecord =>
      && Retained(lines, i) && !reader.parse(lines[i].raw).Malformed?
      && (reader.parse(lines[i].raw).Record? ==> reader.parse(lines[i].raw).id.None? && !reader.parse(lines[i].raw).typed)
    case ParentOutsideRetainedTail =>
      exists q :: q != "" && Dangling(reader, lines, i, q) && DroppedId(reader, lines, q)
    case ChainUnverified =>
      exists q :: q != "" && Dangling(reader, lines, i, q) && !DroppedId(reader, lines, q) && Mentioned(reader, lines, q)
    case BrokenChain =>
      exists q :: Dangling(reader, lines, i, q)
        && (q == "" || (!DroppedId(reader, lines, q) && !Mentioned(reader, lines, q)))
  }

  /** First the dropped lines, then the records that could not be read, then the missing parents. */
  function Group(code: WarningCode): int {
    match code
    case TruncatedPrefix => 0
    case PartialFinalRecord => 1
    case MalformedRecord => 1
    case UnknownRecord => 1
    case _ => 2
  }

  predicate Before(v: Warning, w: Warning) {
    Group(v.code) < Group(w.code) || (Group(v.code) == Group(w.code) && v.line < w.line)
  }

  ghost predicate InOrder(warnings: seq<Warning>) {
    forall i, j :: 0 <= i < j < |warnings| ==> Before(warnings[i], warnings[j])
  }

  // ---- The records that could not be read ----

  ghost predicate LineHolds(reader: Reader, line: Line, code: WarningCode) {
    var parsed := reader.parse(line.raw);
    match code
    case PartialFinalRecord => parsed.Malformed? && line.unterminated
    case MalformedRecord => parsed.Malformed? && !line.unterminated
    case UnknownRecord => !parsed.Malformed? && (parsed.Record? ==> parsed.id.None? && !parsed.typed)
    case _ => false
  }

  lemma LineWarned(reader: Reader, line: Line, number: int)
    ensures var ws := LineWarnings(reader, line, number);
      && |ws| <= 1
      && (forall w :: w in ws <==> w.line == number && LineHolds(reader, line, w.code))
      && (forall i :: 0 <= i < |ws| ==> ws[i].line == number && Group(ws[i].code) == 1)
  {
    var parsed := reader.parse(line.raw);
    var ws := LineWarnings(reader, line, number);
    if ws != [] { assert ws == [ws[0]]; }
  }

  lemma {:induction false} TailWarned(reader: Reader, tail: seq<Line>, first: int)
    ensures var ws := TailWarnings(reader, tail, first);
      && (forall w :: w in ws <==> 0 <= w.line - first < |tail| && LineHolds(reader, tail[w.line - first], w.code))
      && InOrder(ws) && (forall i :: 0 <= i < |ws| ==> ws[i].line < first + |tail| && Group(ws[i].code) == 1)
  {
    if tail != [] {
      var init, last := tail[..|tail| - 1], tail[|tail| - 1];
      TailWarned(reader, init, first);
      LineWarned(reader, last, first + |init|);
      hide LineWarnings, LineHolds;
      var before, more := TailWarnings(reader, init, first), LineWarnings(reader, last, first + |init|);
      assert TailWarnings(reader, tail, first) == before + more;
    }
  }

  // ---- The missing parents ----

  lemma {:induction false} RefsFound(reader: Reader, tail: seq<Line>, first: int)
    ensures var refs := RefsOf(reader, tail, first);
      && (forall ref :: ref in refs <==>
            0 <= ref.line - first < |tail| && NamesParent(reader, tail[ref.line - first], ref.parent))
      && (forall i :: 0 <= i < |refs| ==> refs[i].line < first + |tail|)
      && (forall i, j :: 0 <= i < j < |refs| ==> refs[i].line < refs[j].line)
  {
    if tail != [] {
      var init, last := tail[..|tail| - 1], tail[|tail| - 1];
      RefsFound(reader, init, first);
      var parsed := reader.parse(last.raw);
      var before := RefsOf(reader, init, first);
      var more := if parsed.Record? && parsed.parent.Some? then [ParentRef(parsed.parent.value, first + |init|)] else [];
      assert RefsOf(reader, tail, first) == before + more;
    }
  }

  ghost predicate RefHolds(reader: Reader, tail: seq<string>, omitted: seq<string>, ref: ParentRef, w: Warning) {
    && ref.line == w.line && !SomeHasId(reader, tail, ref.parent)
    && w.code == Verdict(reader, tail, omitted, ref.parent)
  }

  lemma {:induction false} ChainWarned(reader: Reader, tail: seq<string>, omitted: seq<string>, refs: seq<ParentRef>)
    requires forall i, j :: 0 <= i < j < |refs| ==> refs[i].line < refs[j].line
    ensures var ws := ChainWarnings(reader, tail, omitted, refs);
      && (forall w :: w in ws <==> exists ref :: ref in refs && RefHolds(reader, tail, omitted, ref, w))
      && InOrder(ws)
      && (forall i :: 0 <= i < |ws| ==> Group(ws[i].code) == 2 && ws[i].line <= refs[|refs| - 1].line)
    decreases |refs|
  {
    if refs != [] {
      var init, last := refs[..|refs| - 1], refs[|refs| - 1];
      ChainWarned(reader, tail, omitted, init);
      ChainStep(reader, tail, omitted, refs);
      hide SomeHasId, Verdict, RefHolds, ChainWarnings;
      assert refs == init + [last];
      var before, ws := ChainWarnings(reader, tail, omitted, init), ChainWarnings(reader, tail, omitted, refs);
      forall w ensures w in ws <==> exists ref :: ref in refs && RefHolds(reader, tail, omitted, ref, w) {
        if w in ws && w !in before {
          assert RefHolds(reader, tail, omitted, last, w);
        }
        if ref :| ref in refs && RefHolds(reader, tail, omitted, ref, w) {
          assert ref in init || ref == last;
        }
      }
    }
  }

  lemma ChainStep(reader: Reader, tail: seq<string>, omitted: seq<string>, refs: seq<ParentRef>)
    requires refs != []
    ensures var init, last := refs[..|refs| - 1], refs[|refs| - 1];
      var w := Warning(Verdict(reader, tail, omitted, last.parent), last.line);
      && ChainWarnings(reader, tail, omitted, refs) ==
           ChainWarnings(reader, tail, omitted, init) + (if SomeHasId(reader, tail, last.parent) then [] else [w])
      && (forall v :: RefHolds(reader, tail, omitted, last, v) <==> !SomeHasId(reader, tail, last.parent) && v == w)
      && Group(w.code) == 2
  {
    hide SomeHasId, SomeMalformedMatch;
  }

  // ---- From the tail to the lines of the text ----

  lemma {:induction false} IncludesContains(text: string, part: string)
    ensures Includes(text, part) <==> Contains(text, part)
  {
    if part <= text {
      assert text == "" + part + text[|part|..];
    } else if text != "" {
      IncludesContains(text[1..], part);
      ContainsNext(text, part);
    }
  }

  lemma ContainsNext(text: string, part: string)
    requires text != "" && !(part <= text)
    ensures Contains(text, part) <==> Contains(text[1..], part)
  {
    if before, after :| text[1..] == before + part + after {
      assert text == ([text[0]] + before) + part + after;
    }
    if before, after :| text == before + part + after {
      assert before == "" ==> text == part + after;
      assert text[1..] == before[1..] + part + after;
    }
  }

  lemma MentionsIs(reader: Reader, line: Line, id: string)
    ensures MalformedMatch(reader, line.raw, id) <==> Mentions(reader, line, id)
  {
    IncludesContains(line.raw, id);
    IncludesContains(line.raw, JsonBody(id));
    IncludesContains(reader.decodeEscapes(line.raw), id);
    IncludesContains(reader.decodeEscapes(line.raw), JsonBody(id));
    hide Includes, Contains, JsonBody;
  }

  /** The tail and the omitted lines are the two parts of the lines. */
  ghost predicate Parts(lines: seq<Line>, tail: seq<Line>, omitted: seq<string>) {
    && |lines| == |omitted| + |tail| && |omitted| == (if |lines| > 900 then |lines| - 900 else 0)
    && (forall i :: 0 <= i < |tail| ==> tail[i] == lines[|omitted| + i])
    && (forall i :: 0 <= i < |omitted| ==> omitted[i] == lines[i].raw)
  }

  lemma OmittedParts(text: string)
    ensures var lines, omitted := LinesOf(text), OmittedLines(text);
      && |omitted| == (if |lines| > 900 then |lines| - 900 else 0)
      && forall i :: 0 <= i < |omitted| ==> omitted[i] == lines[i].raw
  {
    hide Terminated, Tail, Clean;
  }

  lemma LastParts(lines: seq<Line>, omitted: seq<string>)
    requires |omitted| == (if |lines| > 900 then |lines| - 900 else 0)
    requires forall i :: 0 <= i < |omitted| ==> omitted[i] == lines[i].raw
    ensures Parts(lines, LastOf(lines, RECOVERY_LINE_LIMIT), omitted)
  {
  }

  lemma TextParts(text: string)
    ensures Parts(LinesOf(text), LastOf(LinesOf(text), RECOVERY_LINE_LIMIT), OmittedLines(text))
  {
    OmittedParts(text);
    hide LinesOf, OmittedLines, Parts;
    LastParts(LinesOf(text), OmittedLines(text));
  }

  lemma IdParts(reader: Reader, lines: seq<Line>, tail: seq<Line>, omitted: seq<string>, id: string)
    requires Parts(lines, tail, omitted)
    ensures SomeHasId(reader, RawLines(tail), id) <==> RetainedId(reader, lines, id)
    ensures SomeHasId(reader, omitted, id) <==> DroppedId(reader, lines, id)
  {
    if k :| 0 <= k < |tail| && HasId(reader, RawLines(tail)[k], id) {
      assert Retained(lines, |omitted| + k) && CarriesId(reader, lines[|omitted| + k], id);
    }
    if i :| Retained(lines, i) && CarriesId(reader, lines[i], id) {
      assert HasId(reader, RawLines(tail)[i - |omitted|], id);
    }
    if k :| 0 <= k < |omitted| && HasId(reader, omitted[k], id) {
      assert Dropped(lines, k) && CarriesId(reader, lines[k], id);
    }
    if i :| Dropped(lines, i) && CarriesId(reader, lines[i], id) {
      assert HasId(reader, omitted[i], id);
    }
  }

  lemma MentionParts(reader: Reader, lines: seq<Line>, tail: seq<Line>, omitted: seq<string>, id: string)
    requires Parts(lines, tail, omitted)
    ensures SomeMalformedMatch(reader, RawLines(tail), id) || SomeMalformedMatch(reader, omitted, id) <==>
      Mentioned(reader, lines, id)
  {
    hide MalformedMatch, Mentions;
    forall i | 0 <= i < |lines| { MentionsIs(reader, lines[i], id); }
    if k :| 0 <= k < |tail| && MalformedMatch(reader, RawLines(tail)[k], id) {
      assert Mentions(reader, lines[|omitted| + k], id);
    }
    if k :| 0 <= k < |omitted| && MalformedMatch(reader, omitted[k], id) {
      assert Mentions(reader, lines[k], id);
    }
    if i :| 0 <= i < |lines| && Mentions(reader, lines[i], id) {
      if i < |omitted| {
        assert MalformedMatch(reader, omitted[i], id);
      } else {
        assert MalformedMatch(reader, RawLines(tail)[i - |omitted|], id);
      }
    }
  }

  lemma VerdictParts(reader: Reader, lines: seq<Line>, tail: seq<Line>, omitted: seq<string>, parent: string)
    requires Parts(lines, tail, omitted)
    ensures Verdict(reader, RawLines(tail), omitted, parent) ==
      if parent != "" && DroppedId(reader, lines, parent) then ParentOutsideRetainedTail
      else if parent != "" && Mentioned(reader, lines, parent) then ChainUnverified
      else BrokenChain
  {
    IdParts(reader, lines, tail, omitted, parent);
    MentionParts(reader, lines, tail, omitted, parent);
    hide SomeHasId, SomeMalformedMatch, Mentioned, DroppedId;
  }

  /** The code of a warning about a missing parent. */
  ghost predicate ParentHolds(reader: Reader, lines: seq<Line>, number: int, q: string, code: WarningCode) {
    && Dangling(reader, lines, number - 1, q)
    && match code
       case ParentOutsideRetainedTail => q != "" && DroppedId(reader, lines, q)
       case ChainUnverified => q != "" && !DroppedId(reader, lines, q) && Mentioned(reader, lines, q)
       case BrokenChain => q == "" || (!DroppedId(reader, lines, q) && !Mentioned(reader, lines, q))
       case _ => false
  }

  lemma RefAt(reader: Reader, lines: seq<Line>, tail: seq<Line>, omitted: seq<string>, ref: ParentRef)
    requires Parts(lines, tail, omitted)
    ensures ref in RefsOf(reader, tail, |omitted| + 1) <==>
      Retained(lines, ref.line - 1) && NamesParent(reader, lines[ref.line - 1], ref.parent)
  {
    RefsFound(reader, tail, |omitted| + 1);
    hide RefsOf, NamesParent;
    var k := ref.line - (|omitted| + 1);
    assert Retained(lines, ref.line - 1) <==> 0 <= k < |tail|;
    assert 0 <= k < |tail| ==> tail[k] == lines[ref.line - 1];
  }

  lemma RefHoldsIs(reader: Reader, lines: seq<Line>, tail: seq<Line>, omitted: seq<string>, ref: ParentRef, w: Warning)
    requires Parts(lines, tail, omitted)
    ensures ref in RefsOf(reader, tail, |omitted| + 1) && RefHolds(reader, RawLines(tail), omitted, ref, w) <==>
      ref.line == w.line && ParentHolds(reader, lines, w.line, ref.parent, w.code)
  {
    hide SomeHasId, SomeMalformedMatch, Mentioned, DroppedId, RetainedId, Verdict, RefsOf, Parts, RawLines, NamesParent, Retained;
    RefAt(reader, lines, tail, omitted, ref);
    IdParts(reader, lines, tail, omitted, ref.parent);
    VerdictParts(reader, lines, tail, omitted, ref.parent);
    var member := ref in RefsOf(reader, tail, |omitted| + 1);
    RefCode(reader, lines, ref, w, member, SomeHasId(reader, RawLines(tail), ref.parent),
            Verdict(reader, RawLines(tail), omitted, ref.parent));
  }

  lemma RefCode(
    reader: Reader, lines: seq<Line>, ref: ParentRef, w: Warning, member: bool, kept: bool, verdict: WarningCode)
    requires member <==> Retained(lines, ref.line - 1) && NamesParent(reader, lines[ref.line - 1], ref.parent)
    requires kept <==> RetainedId(reader, lines, ref.parent)
    requires verdict == if ref.parent != "" && DroppedId(reader, lines, ref.parent) then ParentOutsideRetainedTail
                        else if ref.parent != "" && Mentioned(reader, lines, ref.parent) then ChainUnverified
                        else BrokenChain
    ensures member && ref.line == w.line && !kept && w.code == verdict <==>
      ref.line == w.line && ParentHolds(reader, lines, w.line, ref.parent, w.code)
  {
    hide Mentioned, DroppedId, RetainedId, NamesParent;
  }

  lemma ChainReports(reader: Reader, lines: seq<Line>, tail: seq<Line>, omitted: seq<string>)
    requires Parts(lines, tail, omitted)
    ensures var ws := ChainWarnings(reader, RawLines(tail), omitted, RefsOf(reader, tail, |omitted| + 1));
      && (forall w :: w in ws <==> exists q :: ParentHolds(reader, lines, w.line, q, w.code))
      && InOrder(ws) && forall i :: 0 <= i < |ws| ==> Group(ws[i].code) == 2
  {
    var refs := RefsOf(reader, tail, |omitted| + 1);
    RefsFound(reader, tail, |omitted| + 1);
    ChainWarned(reader, RawLines(tail), omitted, refs);
    hide ParentHolds, RefHolds, ChainWarnings, RefsOf, Parts;
    var ws := ChainWarnings(reader, RawLines(tail), omitted, refs);
    forall w ensures w in ws <==> exists q :: ParentHolds(reader, lines, w.line, q, w.code) {
      if w in ws {
        var ref :| ref in refs && RefHolds(reader, RawLines(tail), omitted, ref, w);
        RefHoldsIs(reader, lines, tail, omitted, ref, w);
      }
      if q :| ParentHolds(reader, lines, w.line, q, w.code) {
        RefHoldsIs(reader, lines, tail, omitted, ParentRef(q, w.line), w);
      }
    }
  }

  lemma TailReports(reader: Reader, lines: seq<Line>, tail: seq<Line>, omitted: seq<string>)
    requires Parts(lines, tail, omitted)
    ensures var ws := TailWarnings(reader, tail, |omitted| + 1);
      && (forall w :: w in ws <==> Retained(lines, w.line - 1) && LineHolds(reader, lines[w.line - 1], w.code))
      && InOrder(ws) && forall i :: 0 <= i < |ws| ==> Group(ws[i].code) == 1
  {
    TailWarned(reader, tail, |omitted| + 1);
    hide TailWarnings, LineHolds;
    forall w: Warning ensures Retained(lines, w.line - 1) <==> 0 <= w.line - (|omitted| + 1) < |tail| {
    }
  }

  lemma HoldsIs(reader: Reader, lines: seq<Line>, w: Warning)
    ensures Holds(reader, lines, w) <==>
      || (w == Warning(TruncatedPrefix, 1) && |lines| > 900)
      || (Retained(lines, w.line - 1) && LineHolds(reader, lines[w.line - 1], w.code))
      || exists q :: ParentHolds(reader, lines, w.line, q, w.code)
  {
    hide Dangling, DroppedId, Mentioned;
    forall q | Dangling(reader, lines, w.line - 1, q) && Group(w.code) == 2
      ensures ParentHolds(reader, lines, w.line, q, w.code) ==> Holds(reader, lines, w)
    {
    }
    if Holds(reader, lines, w) && Group(w.code) == 2 {
      var q :| && Dangling(reader, lines, w.line - 1, q)
               && match w.code
                  case ParentOutsideRetainedTail => q != "" && DroppedId(reader, lines, q)
                  case ChainUnverified => q != "" && !DroppedId(reader, lines, q) && Mentioned(reader, lines, q)
                  case _ => q == "" || (!DroppedId(reader, lines, q) && !Mentioned(reader, lines, q));
      assert ParentHolds(reader, lines, w.line, q, w.code);
    }
  }

  lemma JoinedInOrder(a: seq<Warning>, b: seq<Warning>, c: seq<Warning>)
    requires InOrder(a) && InOrder(b) && InOrder(c)
    requires forall i :: 0 <= i < |a| ==> Group(a[i].code) == 0
    requires forall i :: 0 <= i < |b| ==> Group(b[i].code) == 1
    requires forall i :: 0 <= i < |c| ==> Group(c[i].code) == 2
    ensures InOrder(a + (b + c))
  {
    hide Group;
  }

  lemma SnapshotParts(
    reader: Reader, copyOf: string -> string, text: string, labels: Labels, digest: seq<string> -> string)
    ensures var lines, tail := LinesOf(text), LastOf(LinesOf(text), RECOVERY_LINE_LIMIT);
      var s := SnapshotOf(reader, copyOf, text, labels, digest);
      var first := if lines == [] then 0 else |lines| - |tail| + 1;
      && s.records == Copies(copyOf, tail)
      && s.warnings == AllWarnings(|lines| > 900, TailWarnings(reader, tail, first)
           + ChainWarnings(reader, RawLines(tail), OmittedLines(text), RefsOf(reader, tail, first)))
  {
    hide LinesOf, LastOf, OmittedLines, Copies, AllWarnings, TailWarnings, ChainWarnings, RefsOf, RawLines;
  }

  /** The records are the last 900 lines, copied, or all of them. */
  ghost predicate KeepsLast(copyOf: string -> string, lines: seq<Line>, records: seq<string>) {
    && |records| == (if |lines| > 900 then 900 else |lines|)
    && forall k :: 0 <= k < |records| ==> records[k] == copyOf(lines[|lines| - |records| + k].raw)
  }

  /** The warnings are exactly those that hold of the lines. */
  ghost predicate Reports(reader: Reader, lines: seq<Line>, warnings: seq<Warning>) {
    forall w :: w in warnings <==> Holds(reader, lines, w)
  }

  lemma CopiesAre(copyOf: string -> string, lines: seq<Line>, tail: seq<Line>, omitted: seq<string>)
    requires Parts(lines, tail, omitted)
    ensures KeepsLast(copyOf, lines, Copies(copyOf, tail))
  {
  }

  /**
   * The snapshot of a text keeps the last 900 lines, and its warnings are exactly those that hold of the lines, each of them
   * once and in order. Together this says which sequence of warnings a text gets.
   */
  lemma ReportIsExact(
    reader: Reader, copyOf: string -> string, text: string, labels: Labels, digest: seq<string> -> string)
    ensures var s := SnapshotOf(reader, copyOf, text, labels, digest);
      && KeepsLast(copyOf, LinesOf(text), s.records)
      && Reports(reader, LinesOf(text), s.warnings) && InOrder(s.warnings)
  {
    hide LinesOf, LastOf, OmittedLines, Copies, AllWarnings, TailWarnings, ChainWarnings, RefsOf, RawLines, SnapshotOf, Holds,
      InOrder, Parts, KeepsLast, Reports;
    TextParts(text);
    SnapshotParts(reader, copyOf, text, labels, digest);
    var lines, tail, omitted := LinesOf(text), LastOf(LinesOf(text), RECOVERY_LINE_LIMIT), OmittedLines(text);
    CopiesAre(copyOf, lines, tail, omitted);
    PartsCount(lines, tail, omitted);
    ReportOf(reader, lines, tail, omitted, SnapshotOf(reader, copyOf, text, labels, digest).warnings);
  }

  lemma PartsCount(lines: seq<Line>, tail: seq<Line>, omitted: seq<string>)
    requires Parts(lines, tail, omitted)
    ensures |lines| - |tail| == |omitted|
  {
  }

  lemma ReportOf(reader: Reader, lines: seq<Line>, tail: seq<Line>, omitted: seq<string>, warnings: seq<Warning>)
    requires Parts(lines, tail, omitted)
    requires var first := if lines == [] then 0 else |omitted| + 1;
      warnings == AllWarnings(|lines| > 900, TailWarnings(reader, tail, first)
        + ChainWarnings(reader, RawLines(tail), omitted, RefsOf(reader, tail, first)))
    ensures Reports(reader, lines, warnings) && InOrder(warnings)
  {
    TailReports(reader, lines, tail, omitted);
    ChainReports(reader, lines, tail, omitted);
    NothingWarned(reader, omitted);
    hide TailWarnings, ChainWarnings, RefsOf, LineHolds, ParentHolds, InOrder, Holds, Parts;
    var head := if |lines| > 900 then [Warning(TruncatedPrefix, 1)] else [];
    var b := TailWarnings(reader, tail, |omitted| + 1);
    var c := ChainWarnings(reader, RawLines(tail), omitted, RefsOf(reader, tail, |omitted| + 1));
    assert warnings == head + (b + c);
    assert InOrder(head) by { SingleInOrder(head); }
    JoinedInOrder(head, b, c);
    forall w ensures w in warnings <==> Holds(reader, lines, w) {
      HoldsIs(reader, lines, w);
    }
  }

  lemma SingleInOrder(ws: seq<Warning>)
    requires |ws| <= 1
    ensures InOrder(ws)
  {
  }

  lemma NothingWarned(reader: Reader, omitted: seq<string>)
    ensures forall first :: TailWarnings(reader, [], first) == [] && RefsOf(reader, [], first) == []
  {
  }

  // ---- The validator, clause by clause ----

  /** A warning that the validator lets pass. */
  predicate Allowed(s: Snapshot, w: Warning) {
    && 0 < s.sourceLines && 1 <= w.line <= s.sourceLines
    && (w.code == TruncatedPrefix ==> s.truncated && w.line == 1)
    && (w.code != TruncatedPrefix ==> s.retainedFirstLine <= w.line <= s.retainedLastLine)
    && (w.code == ParentOutsideRetainedTail ==> s.truncated)
    && (w.code == PartialFinalRecord ==> w.line == s.retainedLastLine)
  }

  ghost predicate OnlyPrefixed(warnings: seq<Warning>, i: int) {
    && 0 <= i < |warnings| && warnings[i].code == TruncatedPrefix
    && forall j :: 0 <= j < |warnings| && j != i ==> warnings[j].code != TruncatedPrefix
  }

  ghost predicate OncePrefixed(warnings: seq<Warning>) {
    exists i :: OnlyPrefixed(warnings, i)
  }

  ghost predicate NeverPrefixed(warnings: seq<Warning>) {
    forall i :: 0 <= i < |warnings| ==> warnings[i].code != TruncatedPrefix
  }

  lemma PrefixStep(init: seq<Warning>, w: Warning)
    ensures NeverPrefixed(init + [w]) <==> NeverPrefixed(init) && w.code != TruncatedPrefix
    ensures OncePrefixed(init + [w]) <==> if w.code == TruncatedPrefix then NeverPrefixed(init) else OncePrefixed(init)
  {
    var all := init + [w];
    assert all[|init|] == w && forall k :: 0 <= k < |init| ==> all[k] == init[k];
    if i :| OnlyPrefixed(all, i) {
      if i < |init| {
        assert OnlyPrefixed(init, i);
        assert init[i].code == TruncatedPrefix;
      }
    }
    if w.code == TruncatedPrefix && NeverPrefixed(init) { assert OnlyPrefixed(all, |init|); }
    if w.code != TruncatedPrefix && OncePrefixed(init) {
      var i :| OnlyPrefixed(init, i);
      assert OnlyPrefixed(all, i);
    }
  }

  lemma {:induction false} PrefixCount(warnings: seq<Warning>)
    ensures CountPrefixWarnings(warnings) == 0 <==> NeverPrefixed(warnings)
    ensures CountPrefixWarnings(warnings) == 1 <==> OncePrefixed(warnings)
  {
    if warnings != [] {
      var init, last := warnings[..|warnings| - 1], warnings[|warnings| - 1];
      PrefixCount(init);
      PrefixStep(init, last);
      hide OncePrefixed, NeverPrefixed;
      assert warnings == init + [last];
    }
  }

  /**
   * The validator accepts a snapshot exactly when its counts fit each other, the retained lines are the last 900 or all of
   * them, it is marked truncated exactly when there are more, and every warning is in its place, the one about the
   * truncated prefix exactly once when it is due.
   */
  lemma ValidExactly(s: Snapshot)
    ensures ValidSnapshot(s) <==>
      && 0 <= s.sourceLines <= s.sourceBytes <= 128 * 1024 * 1024 && (s.sourceLines == 0 ==> s.sourceBytes == 0)
      && s.copiedLines == |s.records| == (if s.sourceLines > 900 then 900 else s.sourceLines)
      && s.retainedLastLine == s.sourceLines
      && s.retainedFirstLine == (if s.sourceLines == 0 then 0 else s.sourceLines - s.copiedLines + 1)
      && (s.truncated <==> s.sourceLines > 900)
      && (forall i :: 0 <= i < |s.warnings| ==> Allowed(s, s.warnings[i]))
      && (if s.truncated then OncePrefixed(s.warnings) else NeverPrefixed(s.warnings))
  {
    PrefixCount(s.warnings);
    hide OncePrefixed, NeverPrefixed, CountPrefixWarnings;
    forall i | 0 <= i < |s.warnings| && HeaderFits(s) ensures WarningFits(s, s.warnings[i]) <==> Allowed(s, s.warnings[i]) {
    }
  }

  /** What the copy of the tail takes on disk: every record and a newline after it. */
  lemma {:induction false} CopyIs(records: seq<string>)
    ensures CopiedBytes(records) == ByteLength(Unlines(records))
  {
    if records != [] {
      var init, last := records[..|records| - 1], records[|records| - 1];
      CopyIs(init);
      EncodeAppend(Unlines(init), last);
      EncodeAppend(Unlines(init) + last, "\n");
      NewlineByte();
      hide Encode;
    }
  }

  lemma NewlineByte()
    ensures ByteLength("\n") == 1
  {
  }
}
