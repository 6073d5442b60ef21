/** The recovery snapshot: tail records, chain warnings, and the validator every built snapshot passes. */
module RecoverySnapshot {
  import opened Wrappers
  import opened Utf8
  import opened LineRing
  import opened RecoveryScan
  import opened ParentChain

  datatype WarningCode =
    | TruncatedPrefix
    | ParentOutsideRetainedTail
    | PartialFinalRecord
    | MalformedRecord
    | UnknownRecord
    | BrokenChain
    | ChainUnverified

  datatype Warning = Warning(code: WarningCode, line: int)

  datatype ParentRef = ParentRef(parent: string, line: int)

  datatype Snapshot = Snapshot(
    recoveryId: string,
    sourcePath: string,
    sourceSha: string,
    sourceBytes: int,
    sourceLines: int,
    copiedSha: string,
    copiedLines: int,
    retainedFirstLine: int,
    retainedLastLine: int,
    truncated: bool,
    records: seq<string>,
    warnings: seq<Warning>,
    copyPath: string)

  // ---- The tail, line by line ----

  /** What the loop over the tail has gathered. */
  datatype TailReading = TailReading(
    warnings: seq<Warning>,
    records: seq<string>,
    tailIds: set<string>,
    parentRefs: seq<ParentRef>,
    malformed: seq<string>)

  function LineWarnings(reader: Reader, line: Line, number: int): seq<Warning> {
    match reader.parse(line.raw)
    case Malformed => [Warning(if line.unterminated then PartialFinalRecord else MalformedRecord, number)]
    case NotObject => [Warning(UnknownRecord, number)]
    case Record(id, _, typed) => if !typed && id.None? then [Warning(UnknownRecord, number)] else []
  }

  function TailWarnings(reader: Reader, tail: seq<Line>, first: int): seq<Warning> {
    if tail == [] then []
    else
      TailWarnings(reader, tail[..|tail| - 1], first)
      + LineWarnings(reader, tail[|tail| - 1], first + |tail| - 1)
  }

  function RefsOf(reader: Reader, tail: seq<Line>, first: int): seq<ParentRef> {
    if tail == [] then []
    else
      var parsed := reader.parse(tail[|tail| - 1].raw);
      RefsOf(reader, tail[..|tail| - 1], first) +
      if parsed.Record? && parsed.parent.Some? then [ParentRef(parsed.parent.value, first + |tail| - 1)] else []
  }

  function RawLines(tail: seq<Line>): seq<string> {
    seq(|tail|, i requires 0 <= i < |tail| => tail[i].raw)
  }

  function Copies(copyOf: string -> string, tail: seq<Line>): seq<string> {
    seq(|tail|, i requires 0 <= i < |tail| => copyOf(tail[i].raw))
  }

  ghost predicate Gathered(reader: Reader, copyOf: string -> string, tail: seq<Line>, first: int, r: TailReading) {
    && r.warnings == TailWarnings(reader, tail, first)
    && r.parentRefs == RefsOf(reader, tail, first)
    && r.records == Copies(copyOf, tail)
    && IdsGathered(reader, RawLines(tail), r.tailIds)
    && MalformedGathered(reader, RawLines(tail), r.malformed)
  }

  ghost predicate IdsGathered(reader: Reader, raws: seq<string>, ids: set<string>) {
    forall id :: id in ids <==> SomeHasId(reader, raws, id)
  }

  ghost predicate MalformedGathered(reader: Reader, raws: seq<string>, malformed: seq<string>) {
    forall raw :: raw in malformed <==> raw in raws && reader.parse(raw).Malformed?
  }

  function TailStep(reader: Reader, copyOf: string -> string, r: TailReading, line: Line, number: int): TailReading {
    var parsed := reader.parse(line.raw);
    TailReading(
      r.warnings + LineWarnings(reader, line, number),
      r.records + [copyOf(line.raw)],
      r.tailIds + (if parsed.Record? && parsed.id.Some? then {parsed.id.value} else {}),
      r.parentRefs + (if parsed.Record? && parsed.parent.Some? then [ParentRef(parsed.parent.value, number)] else []),
      r.malformed + if parsed.Malformed? then [line.raw] else [])
  }

  lemma IdsStep(reader: Reader, raws: seq<string>, ids: set<string>, raw: string)
    requires IdsGathered(reader, raws, ids)
    ensures var parsed := reader.parse(raw);
      IdsGathered(reader, raws + [raw], ids + if parsed.Record? && parsed.id.Some? then {parsed.id.value} else {})
  {
    hide SomeHasId, SomeMalformedMatch;
    forall id {
      SomeAppend(reader, raws, raw, id);
    }
  }

  lemma MalformedStep(reader: Reader, raws: seq<string>, malformed: seq<string>, raw: string)
    requires MalformedGathered(reader, raws, malformed)
    ensures MalformedGathered(reader, raws + [raw], malformed + if reader.parse(raw).Malformed? then [raw] else [])
  {
  }

  lemma TailStepGathers(reader: Reader, copyOf: string -> string, tail: seq<Line>, first: int, r: TailReading, line: Line)
    requires Gathered(reader, copyOf, tail, first, r)
    ensures Gathered(reader, copyOf, tail + [line], first, TailStep(reader, copyOf, r, line, first + |tail|))
  {
    IdsStep(reader, RawLines(tail), r.tailIds, line.raw);
    MalformedStep(reader, RawLines(tail), r.malformed, line.raw);
    hide LineWarnings, IdsGathered, MalformedGathered;
    assert (tail + [line])[..|tail|] == tail;
    assert RawLines(tail + [line]) == RawLines(tail) + [line.raw];
    assert Copies(copyOf, tail + [line]) == Copies(copyOf, tail) + [copyOf(line.raw)];
  }

  method ReadTail(reader: Reader, copyOf: string -> string, tail: seq<Line>, first: int) returns (r: TailReading)
    ensures Gathered(reader, copyOf, tail, first, r)
  {
    hide Gathered, TailStep;
    r := TailReading([], [], {}, [], []);
    NothingGathered(reader, copyOf, first);
    assert tail[..0] == [];
    for i := 0 to |tail|
      invariant Gathered(reader, copyOf, tail[..i], first, r)
    {
      TailStepGathers(reader, copyOf, tail[..i], first, r, tail[i]);
      assert tail[..i + 1] == tail[..i] + [tail[i]];
      r := TailStep(reader, copyOf, r, tail[i], first + i);
    }
    assert tail[..|tail|] == tail;
  }

  lemma NothingGathered(reader: Reader, copyOf: string -> string, first: int)
    ensures Gathered(reader, copyOf, [], first, TailReading([], [], {}, [], []))
  {
  }

  // ---- Chain warnings ----

  /** Where a parent that no tail record carries went, judged on all the lines there are. */
  ghost function Verdict(reader: Reader, tail: seq<string>, omitted: seq<string>, parent: string): WarningCode {
    if parent != "" && SomeHasId(reader, omitted, parent) then ParentOutsideRetainedTail
    else if parent != "" && (SomeMalformedMatch(reader, tail, parent) || SomeMalformedMatch(reader, omitted, parent)) then
      ChainUnverified
    else BrokenChain
  }

  ghost function ChainWarnings(reader: Reader, tail: seq<string>, omitted: seq<string>, refs: seq<ParentRef>): seq<Warning> {
    if refs == [] then []
    else
      var last := refs[|refs| - 1];
      ChainWarnings(reader, tail, omitted, refs[..|refs| - 1]) +
      if SomeHasId(reader, tail, last.parent) then []
      else [Warning(Verdict(reader, tail, omitted, last.parent), last.line)]
  }

  method MissingParents(refs: seq<ParentRef>, tailIds: set<string>) returns (missing: set<string>)
    ensures forall p :: p in missing <==> p != "" && p !in tailIds && exists i :: 0 <= i < |refs| && refs[i].parent == p
  {
    missing := {};
    for i := 0 to |refs|
      invariant forall p :: p in missing <==> p != "" && p !in tailIds && exists h :: 0 <= h < i && refs[h].parent == p
    {
      if refs[i].parent != "" && refs[i].parent !in tailIds {
        missing := missing + {refs[i].parent};
      }
    }
  }

  /** The malformed retained lines; the search stops once every missing parent has been matched. */
  method MatchMalformedTail(reader: Reader, missing: set<string>, malformed: seq<string>) returns (unverified: set<string>)
    requires "" !in missing && forall i :: 0 <= i < |malformed| ==> reader.parse(malformed[i]).Malformed?
    ensures unverified <= missing
    ensures forall p :: p in missing ==> (p in unverified <==> SomeMalformedMatch(reader, malformed, p))
  {
    hide LineMatchesParent, SearchRegexMatches, HasId, MalformedMatch, SomeHasId, SomeMalformedMatch;
    unverified := {};
    var candidates := missing;
    NoLines(reader);
    assert malformed[..0] == [];
    var k := 0;
    while k < |malformed| && candidates != {}
      invariant k <= |malformed| && unverified <= missing
      invariant forall p :: p in missing ==> (p in unverified <==> SomeMalformedMatch(reader, malformed[..k], p))
      invariant forall p :: p in candidates <==> p in missing && p !in unverified
    {
      var line := malformed[k];
      assert malformed[..k + 1] == malformed[..k] + [line];
      forall p {
        MalformedAppend(reader, malformed[..k], line, p);
      }
      var pass := RegexTest(reader, missing, line);
      if pass {
        var matched := set p | p in candidates && LineMatchesParent(reader, line, p);
        unverified, candidates := unverified + matched, candidates - matched;
      } else {
        forall p | p in missing && LineMatchesParent(reader, line, p) ensures false {
          PrefilterSound(reader, missing, line, p);
        }
      }
      k := k + 1;
    }
    forall p | p in missing ensures p in unverified <==> SomeMalformedMatch(reader, malformed, p) {
      PrefixMatch(reader, malformed, k, p);
    }
  }

  lemma NoLines(reader: Reader)
    ensures forall p :: !SomeHasId(reader, [], p) && !SomeMalformedMatch(reader, [], p)
  {
  }

  lemma MalformedAppend(reader: Reader, lines: seq<string>, line: string, parent: string)
    requires reader.parse(line).Malformed?
    ensures SomeMalformedMatch(reader, lines + [line], parent) <==>
      SomeMalformedMatch(reader, lines, parent) || LineMatchesParent(reader, line, parent)
  {
    hide LineMatchesParent, SomeMalformedMatch;
    SomeAppend(reader, lines, line, parent);
  }

  lemma PrefixMatch(reader: Reader, lines: seq<string>, k: nat, p: string)
    requires k <= |lines|
    ensures SomeMalformedMatch(reader, lines[..k], p) ==> SomeMalformedMatch(reader, lines, p)
    ensures k == |lines| ==> lines[..k] == lines
  {
    hide MalformedMatch;
    if i :| 0 <= i < k && MalformedMatch(reader, lines[..k][i], p) {
      assert lines[i] == lines[..k][i];
    }
  }

  /** A malformed line of the tail is a malformed tail line. */
  lemma MalformedSubset(reader: Reader, raws: seq<string>, malformed: seq<string>, p: string)
    requires forall raw :: raw in malformed <==> raw in raws && reader.parse(raw).Malformed?
    ensures SomeMalformedMatch(reader, malformed, p) <==> SomeMalformedMatch(reader, raws, p)
  {
    hide LineMatchesParent;
    if i :| 0 <= i < |malformed| && MalformedMatch(reader, malformed[i], p) {
      var j :| 0 <= j < |raws| && raws[j] == malformed[i];
    }
    if i :| 0 <= i < |raws| && MalformedMatch(reader, raws[i], p) {
      assert raws[i] in malformed;
      var j :| 0 <= j < |malformed| && malformed[j] == raws[i];
    }
  }

  ghost predicate Judged(reader: Reader, tail: seq<string>, omitted: seq<string>, missing: set<string>,
                         unverifiedInTail: set<string>, prefix: Sets) {
    && "" !in missing
    && Located(reader, missing, omitted, prefix)
    && unverifiedInTail <= missing
    && forall p :: p in missing ==> (p in unverifiedInTail <==> SomeMalformedMatch(reader, tail, p))
  }

  function Classify(unverifiedInTail: set<string>, prefix: Sets, parent: string): WarningCode {
    if parent in prefix.found then ParentOutsideRetainedTail
    else if parent in unverifiedInTail then ChainUnverified
    else if parent in prefix.unverified then ChainUnverified
    else BrokenChain
  }

  lemma ClassifyIsVerdict(reader: Reader, tail: seq<string>, omitted: seq<string>, missing: set<string>,
                          unverifiedInTail: set<string>, prefix: Sets, parent: string)
    requires Judged(reader, tail, omitted, missing, unverifiedInTail, prefix)
    requires parent == "" || parent in missing
    ensures Classify(unverifiedInTail, prefix, parent) == Verdict(reader, tail, omitted, parent)
  {
    hide SomeHasId, SomeMalformedMatch;
  }

  /** A parent is reported outside the tail exactly when it is named, no tail record carries it and an omitted line does. */
  lemma {:induction false} OutsideReportedExactly(reader: Reader, tail: seq<string>, omitted: seq<string>, refs: seq<ParentRef>, line: int)
    ensures Warning(ParentOutsideRetainedTail, line) in ChainWarnings(reader, tail, omitted, refs) <==>
      exists ref :: ref in refs && ref.line == line && ref.parent != ""
        && !SomeHasId(reader, tail, ref.parent) && SomeHasId(reader, omitted, ref.parent)
  {
    hide SomeHasId, SomeMalformedMatch;
    if refs != [] {
      OutsideReportedExactly(reader, tail, omitted, refs[..|refs| - 1], line);
      assert refs == refs[..|refs| - 1] + [refs[|refs| - 1]];
    }
  }

  method ClassifyRefs(reader: Reader, ghost tail: seq<string>, ghost omitted: seq<string>, refs: seq<ParentRef>,
                      tailIds: set<string>, missing: set<string>, unverifiedInTail: set<string>, prefix: Sets)
    returns (warnings: seq<Warning>)
    requires Judged(reader, tail, omitted, missing, unverifiedInTail, prefix)
    requires forall id :: id in tailIds <==> SomeHasId(reader, tail, id)
    requires forall i :: 0 <= i < |refs| && refs[i].parent !in tailIds ==> refs[i].parent == "" || refs[i].parent in missing
    ensures warnings == ChainWarnings(reader, tail, omitted, refs)
  {
    hide Judged, Classify, Verdict, SomeHasId;
    warnings := [];
    assert refs[..0] == [];
    for i := 0 to |refs|
      invariant warnings == ChainWarnings(reader, tail, omitted, refs[..i])
    {
      var ref := refs[i];
      assert refs[..i + 1][..i] == refs[..i];
      if ref.parent !in tailIds {
        ClassifyIsVerdict(reader, tail, omitted, missing, unverifiedInTail, prefix, ref.parent);
        warnings := warnings + [Warning(Classify(unverifiedInTail, prefix, ref.parent), ref.line)];
      }
    }
    assert refs[..|refs|] == refs;
  }

  // ---- The validator ----

  function CountPrefixWarnings(warnings: seq<Warning>): nat {
    if warnings == [] then 0
    else CountPrefixWarnings(warnings[..|warnings| - 1]) + if warnings[|warnings| - 1].code == TruncatedPrefix then 1 else 0
  }

  predicate WarningFits(s: Snapshot, w: Warning) {
    && s.sourceLines > 0 && 1 <= w.line <= s.sourceLines
    && match w.code
       case TruncatedPrefix => s.truncated && w.line == 1
       case ParentOutsideRetainedTail => s.retainedFirstLine <= w.line <= s.retainedLastLine && s.truncated
       case PartialFinalRecord => s.retainedFirstLine <= w.line == s.retainedLastLine
       case _ => s.retainedFirstLine <= w.line <= s.retainedLastLine
  }

  predicate HeaderFits(s: Snapshot) {
    && 0 <= s.sourceBytes <= MAX_SOURCE_BYTES
    && 0 <= s.sourceLines <= s.sourceBytes
    && (s.sourceLines == 0 <==> s.sourceBytes == 0)
    && s.copiedLines == (if s.sourceLines <= RECOVERY_LINE_LIMIT then s.sourceLines else RECOVERY_LINE_LIMIT)
    && s.retainedFirstLine == (if s.sourceLines == 0 then 0 else s.sourceLines - s.copiedLines + 1)
    && s.retainedLastLine == s.sourceLines
    && s.truncated == (s.sourceLines > RECOVERY_LINE_LIMIT)
    && |s.records| == s.copiedLines
  }

  /** What the version 2 validator accepts, apart from the fields it compares with values the caller gives. */
  ghost predicate ValidSnapshot(s: Snapshot) {
    && HeaderFits(s)
    && (forall i :: 0 <= i < |s.warnings| ==> WarningFits(s, s.warnings[i]))
    && CountPrefixWarnings(s.warnings) == if s.truncated then 1 else 0
  }

  method ValidateRecovery(s: Snapshot) returns (ok: bool)
    ensures ok <==> ValidSnapshot(s)
  {
    hide WarningFits, HeaderFits;
    if !HeaderFits(s) {
      return false;
    }
    var truncatedPrefixCount := 0;
    assert s.warnings[..0] == [];
    for i := 0 to |s.warnings|
      invariant truncatedPrefixCount == CountPrefixWarnings(s.warnings[..i])
      invariant forall h :: 0 <= h < i ==> WarningFits(s, s.warnings[h])
    {
      assert s.warnings[..i + 1][..i] == s.warnings[..i];
      if !WarningFits(s, s.warnings[i]) {
        return false;
      }
      if s.warnings[i].code == TruncatedPrefix {
        truncatedPrefixCount := truncatedPrefixCount + 1;
      }
    }
    assert s.warnings[..|s.warnings|] == s.warnings;
    return truncatedPrefixCount == if s.truncated then 1 else 0;
  }

  // ---- Every built snapshot is valid ----

  /** Warnings about retained lines: never about the prefix, and about a partial record only on the last line. */
  ghost predicate RetainedWarnings(warnings: seq<Warning>, first: int, last: int, mayBeOutside: bool) {
    forall i :: 0 <= i < |warnings| ==>
      && first <= warnings[i].line <= last
      && warnings[i].code != TruncatedPrefix
      && (warnings[i].code == PartialFinalRecord ==> warnings[i].line == last)
      && (warnings[i].code == ParentOutsideRetainedTail ==> mayBeOutside)
  }

  lemma {:induction false} TailWarningsRetained(reader: Reader, tail: seq<Line>, first: int, n: nat)
    requires n <= |tail| && forall i :: 0 <= i < |tail| && tail[i].unterminated ==> i == |tail| - 1
    ensures RetainedWarnings(TailWarnings(reader, tail[..n], first), first, first + |tail| - 1, false)
    decreases n
  {
    if n > 0 {
      assert tail[..n][..n - 1] == tail[..n - 1];
      TailWarningsRetained(reader, tail, first, n - 1);
    }
  }

  lemma {:induction false} RefLines(reader: Reader, tail: seq<Line>, first: int)
    ensures forall i :: 0 <= i < |RefsOf(reader, tail, first)| ==>
      first <= RefsOf(reader, tail, first)[i].line <= first + |tail| - 1
  {
    if tail != [] {
      RefLines(reader, tail[..|tail| - 1], first);
    }
  }

  lemma {:induction false} ChainWarningsRetained(reader: Reader, tail: seq<string>, omitted: seq<string>, refs: seq<ParentRef>,
                                                 first: int, last: int)
    requires forall i :: 0 <= i < |refs| ==> first <= refs[i].line <= last
    ensures RetainedWarnings(ChainWarnings(reader, tail, omitted, refs), first, last, omitted != [])
  {
    hide SomeHasId, SomeMalformedMatch;
    if refs != [] {
      ChainWarningsRetained(reader, tail, omitted, refs[..|refs| - 1], first, last);
      OutsideNeedsOmitted(reader, omitted, refs[|refs| - 1].parent);
    }
  }

  lemma OutsideNeedsOmitted(reader: Reader, omitted: seq<string>, parent: string)
    ensures SomeHasId(reader, omitted, parent) ==> omitted != []
  {
  }

  lemma {:induction false} NoPrefixWarnings(warnings: seq<Warning>, first: int, last: int, mayBeOutside: bool)
    requires RetainedWarnings(warnings, first, last, mayBeOutside)
    ensures CountPrefixWarnings(warnings) == 0
  {
    if warnings != [] {
      NoPrefixWarnings(warnings[..|warnings| - 1], first, last, mayBeOutside);
    }
  }

  lemma {:induction false} CountAppend(left: seq<Warning>, right: seq<Warning>)
    ensures CountPrefixWarnings(left + right) == CountPrefixWarnings(left) + CountPrefixWarnings(right)
  {
    if right == [] {
      assert left + right == left;
    } else {
      assert (left + right)[..|left + right| - 1] == left + right[..|right| - 1];
      CountAppend(left, right[..|right| - 1]);
    }
  }

  function AllWarnings(truncated: bool, retained: seq<Warning>): seq<Warning> {
    (if truncated then [Warning(TruncatedPrefix, 1)] else []) + retained
  }

  /** The warning about the prefix, if there is one. */
  lemma HeadWarning(s: Snapshot)
    requires HeaderFits(s)
    ensures var head := AllWarnings(s.truncated, []);
      && CountPrefixWarnings(head) == (if s.truncated then 1 else 0)
      && forall i :: 0 <= i < |head| ==> WarningFits(s, head[i])
  {
    var head := AllWarnings(s.truncated, []);
    if s.truncated {
      assert head == [Warning(TruncatedPrefix, 1)];
      assert head[..0] == [] && CountPrefixWarnings(head[..0]) == 0;
    } else {
      assert head == [];
    }
  }

  /** A warning about a retained line. */
  lemma RetainedWarningFits(s: Snapshot, w: Warning)
    requires HeaderFits(s) && s.sourceLines != 0
    requires s.retainedFirstLine <= w.line <= s.retainedLastLine && w.code != TruncatedPrefix
    requires w.code == PartialFinalRecord ==> w.line == s.retainedLastLine
    requires w.code == ParentOutsideRetainedTail ==> s.truncated
    ensures WarningFits(s, w)
  {
  }

  lemma BuiltIsValid(s: Snapshot, retained: seq<Warning>)
    requires HeaderFits(s) && s.warnings == AllWarnings(s.truncated, retained)
    requires RetainedWarnings(retained, s.retainedFirstLine, s.retainedLastLine, s.truncated)
    requires s.sourceLines == 0 ==> retained == []
    ensures ValidSnapshot(s)
  {
    hide WarningFits, HeaderFits, CountPrefixWarnings;
    var head := AllWarnings(s.truncated, []);
    assert s.warnings == head + retained;
    HeadWarning(s);
    NoPrefixWarnings(retained, s.retainedFirstLine, s.retainedLastLine, s.truncated);
    CountAppend(head, retained);
    forall i | 0 <= i < |s.warnings| ensures WarningFits(s, s.warnings[i]) {
      if i < |head| {
        assert s.warnings[i] == head[i];
      } else {
        assert s.warnings[i] == retained[i - |head|];
        RetainedWarningFits(s, retained[i - |head|]);
      }
    }
  }

  /** A source has no more lines than bytes, and none only when it is empty. */
  lemma {:induction false} LinesWithinBytes(text: string)
    ensures |LinesOf(text)| <= |text| <= ByteLength(text)
    ensures |LinesOf(text)| == 0 <==> text == ""
    ensures text == "" <==> ByteLength(text) == 0
  {
    hide Clean;
    LinesWithinCharacters(text, |text|);
    assert text[..|text|] == text;
    CharactersWithinBytes(text);
  }

  lemma {:induction false} LinesWithinCharacters(text: string, n: nat)
    requires n <= |text|
    ensures |Terminated(text[..n])| + (if Tail(text[..n]) == "" then 0 else 1) <= n
    ensures n > 0 ==> |Terminated(text[..n])| + |Tail(text[..n])| > 0
    decreases n
  {
    hide Terminated, Tail;
    if n == 0 {
      EmptyText();
      assert text[..0] == "";
    } else {
      LinesWithinCharacters(text, n - 1);
      assert text[..n] == text[..n - 1] + [text[n - 1]];
      AppendChar(text[..n - 1], text[n - 1]);
    }
  }

  lemma EmptyText()
    ensures Terminated("") == [] && Tail("") == ""
  {
  }

  lemma {:induction false} CharactersWithinBytes(text: string)
    ensures |text| <= ByteLength(text)
  {
    if text != "" {
      CharactersWithinBytes(text[1..]);
    }
  }

  /** Only the last line of a text can be unterminated. */
  lemma UnterminatedIsLast(text: string, tail: seq<Line>)
    requires tail == LastOf(LinesOf(text), RECOVERY_LINE_LIMIT)
    ensures forall i :: 0 <= i < |tail| && tail[i].unterminated ==> i == |tail| - 1
  {
    hide Terminated, Tail, Clean;
    var lines := LinesOf(text);
    forall i | 0 <= i < |lines| && lines[i].unterminated ensures i == |lines| - 1 {
    }
    forall i | 0 <= i < |tail| ensures tail[i] == lines[|lines| - |tail| + i] {
    }
  }

  // ---- The whole recovery ----

  function CopiedBytes(records: seq<string>): nat {
    if records == [] then 0 else CopiedBytes(records[..|records| - 1]) + ByteLength(records[|records| - 1]) + 1
  }

  /** The lines before the retained tail. */
  function OmittedLines(text: string): seq<string> {
    var n := |LinesOf(text)|;
    if n > RECOVERY_LINE_LIMIT then Omitted(text, n - RECOVERY_LINE_LIMIT) else []
  }

  /** What the recovery of a text reports: the kept lines, and a verdict for every parent outside them. */
  ghost predicate Recovered(reader: Reader, copyOf: string -> string, text: string, s: Snapshot) {
    var tail := LastOf(LinesOf(text), RECOVERY_LINE_LIMIT);
    && s.sourceBytes == ByteLength(text)
    && s.sourceLines == |LinesOf(text)|
    && s.copiedLines == |tail|
    && s.records == Copies(copyOf, tail)
    && s.warnings == AllWarnings(s.truncated,
         TailWarnings(reader, tail, s.retainedFirstLine)
         + ChainWarnings(reader, RawLines(tail), OmittedLines(text), RefsOf(reader, tail, s.retainedFirstLine)))
  }

  method Analyse(reader: Reader, copyOf: string -> string, tail: seq<Line>, first: int, truncated: bool, count: nat,
                 prefixChunks: seq<seq<byte>>, ghost text: string)
    returns (reading: TailReading, chain: seq<Warning>)
    requires Flatten(prefixChunks) == Encode(text) && count <= |Terminated(text)| && (!truncated ==> count == 0)
    ensures Gathered(reader, copyOf, tail, first, reading) && reading.records == Copies(copyOf, tail)
    ensures chain == ChainWarnings(reader, RawLines(tail), Omitted(text, count), reading.parentRefs)
  {
    hide Terminated, Tail, Clean, Encode, SomeHasId, SomeMalformedMatch, TailWarnings, RefsOf;
    reading := ReadTail(reader, copyOf, tail, first);
    var missing := MissingParents(reading.parentRefs, reading.tailIds);
    var unverifiedInTail := {};
    if missing != {} && reading.malformed != [] {
      unverifiedInTail := MatchMalformedTail(reader, missing, reading.malformed);
    } else {
      NoLines(reader);
    }
    forall p {
      MalformedSubset(reader, RawLines(tail), reading.malformed, p);
    }
    var prefix := Sets({}, {}, {});
    if missing != {} && truncated {
      prefix := ScanPrefix(reader, missing, prefixChunks, count, text);
    } else {
      NoLines(reader);
      assert !truncated ==> Omitted(text, count) == [];
    }
    chain := ClassifyRefs(reader, RawLines(tail), Omitted(text, count), reading.parentRefs, reading.tailIds, missing,
                          unverifiedInTail, prefix);
  }

  const MAX_SNAPSHOT_BYTES := 48 * 1024 * 1024

  datatype RecoveryError = Refused(error: ScanError) | SnapshotTooLarge

  /** What identifies a recovery and its files, and the digest of the source. */
  datatype Labels = Labels(recoveryId: string, sourcePath: string, copyPath: string, sourceSha: string)

  /** The one snapshot that a text is recovered to. */
  ghost function SnapshotOf(
    reader: Reader, copyOf: string -> string, text: string, labels: Labels, digest: seq<string> -> string): Snapshot
  {
    var count := |LinesOf(text)|;
    var tail := LastOf(LinesOf(text), RECOVERY_LINE_LIMIT);
    var first := if count == 0 then 0 else count - |tail| + 1;
    var truncated := count > RECOVERY_LINE_LIMIT;
    Snapshot(labels.recoveryId, labels.sourcePath, labels.sourceSha, ByteLength(text), count, digest(Copies(copyOf, tail)),
             |tail|, first, count, truncated, Copies(copyOf, tail),
             AllWarnings(truncated, TailWarnings(reader, tail, first)
               + ChainWarnings(reader, RawLines(tail), OmittedLines(text), RefsOf(reader, tail, first))),
             labels.copyPath)
  }

  /**
   * Recover from a first read of the source and, when needed, a second one cut into other chunks. Writing the snapshot is
   * refused when it is too large.
   */
  method RecoverSession(
    reader: Reader, copyOf: string -> string, chunks: seq<seq<byte>>, prefixChunks: seq<seq<byte>>, labels: Labels,
    digest: seq<string> -> string, snapshotBytes: Snapshot -> nat, ghost text: string)
    returns (r: Result<Snapshot, RecoveryError>)
    requires Flatten(chunks) == Encode(text) == Flatten(prefixChunks)
    requires forall k :: 0 <= k < |chunks| ==> chunks[k] != []
    ensures r.Ok? ==> ValidSnapshot(r.value) && Recovered(reader, copyOf, text, r.value)
    ensures r.Ok? ==> r.value == SnapshotOf(reader, copyOf, text, labels, digest)
    ensures r.Err? <==>
      || ByteLength(text) > MAX_SOURCE_BYTES
      || BytesOf(LastOf(LinesOf(text), RECOVERY_LINE_LIMIT)) > MAX_TAIL_BYTES
      || CopiedBytes(Copies(copyOf, LastOf(LinesOf(text), RECOVERY_LINE_LIMIT))) > MAX_TAIL_BYTES
      || snapshotBytes(SnapshotOf(reader, copyOf, text, labels, digest)) > MAX_SNAPSHOT_BYTES
  {
    hide Encode, Terminated, Tail, Clean, BytesOf, ChainWarnings, CopiedBytes, Gathered, Omitted, OmittedLines, ValidSnapshot,
         Recovered, AllWarnings, LinesOf, LastOf, SnapshotOf;
    var scanned := Scan(chunks, text);
    if scanned.Err? {
      assert scanned.error == SourceTooLarge || scanned.error == TailTooLarge;
      return Err(Refused(scanned.error));
    }
    var sourceLines, tail := scanned.value.sourceLines, scanned.value.lines;
    var truncated := sourceLines > RECOVERY_LINE_LIMIT;
    var firstLine := if sourceLines == 0 then 0 else sourceLines - |tail| + 1;
    OmittedAre(text, tail);
    var reading, chain := Analyse(reader, copyOf, tail, firstLine, truncated, sourceLines - |tail|, prefixChunks, text);
    if CopiedBytes(reading.records) > MAX_TAIL_BYTES {
      return Err(Refused(TailTooLarge));
    }
    var snapshot := Snapshot(labels.recoveryId, labels.sourcePath, labels.sourceSha, |Flatten(chunks)|, sourceLines,
                             digest(reading.records), |tail|, firstLine, sourceLines, truncated, reading.records,
                             AllWarnings(truncated, reading.warnings + chain), labels.copyPath);
    SnapshotIsRecovered(reader, copyOf, text, snapshot, reading, tail);
    SnapshotIsTheOne(reader, copyOf, text, labels, digest, snapshot, reading, tail);
    if snapshotBytes(snapshot) > MAX_SNAPSHOT_BYTES {
      return Err(SnapshotTooLarge);
    }
    return Ok(snapshot);
  }

  /** The numbers of the snapshot are those of the scan. */
  ghost predicate Measures(s: Snapshot, text: string, tail: seq<Line>) {
    && tail == LastOf(LinesOf(text), RECOVERY_LINE_LIMIT)
    && s.sourceBytes == ByteLength(text) <= MAX_SOURCE_BYTES
    && s.sourceLines == s.retainedLastLine == |LinesOf(text)|
    && s.copiedLines == |tail|
    && s.retainedFirstLine == (if s.sourceLines == 0 then 0 else s.sourceLines - |tail| + 1)
    && s.truncated == (s.sourceLines > RECOVERY_LINE_LIMIT)
  }

  lemma SnapshotIsRecovered(reader: Reader, copyOf: string -> string, text: string, s: Snapshot, reading: TailReading, tail: seq<Line>)
    requires Measures(s, text, tail) && s.records == reading.records
    requires Gathered(reader, copyOf, tail, s.retainedFirstLine, reading)
    requires s.warnings == AllWarnings(s.truncated,
      reading.warnings + ChainWarnings(reader, RawLines(tail), OmittedLines(text), reading.parentRefs))
    ensures ValidSnapshot(s) && Recovered(reader, copyOf, text, s)
  {
    hide Terminated, Tail, Clean, Encode, ChainWarnings, TailWarnings, RefsOf, OmittedLines, ValidSnapshot, AllWarnings;
    LinesWithinBytes(text);
    SnapshotIsValid(reader, copyOf, text, s, reading, tail);
  }

  lemma SnapshotIsTheOne(
    reader: Reader, copyOf: string -> string, text: string, labels: Labels, digest: seq<string> -> string, s: Snapshot,
    reading: TailReading, tail: seq<Line>)
    requires Measures(s, text, tail) && s.records == reading.records && s.copiedSha == digest(reading.records)
    requires Gathered(reader, copyOf, tail, s.retainedFirstLine, reading)
    requires s.warnings == AllWarnings(s.truncated,
      reading.warnings + ChainWarnings(reader, RawLines(tail), OmittedLines(text), reading.parentRefs))
    requires Labels(s.recoveryId, s.sourcePath, s.copyPath, s.sourceSha) == labels
    ensures s == SnapshotOf(reader, copyOf, text, labels, digest)
  {
    hide ChainWarnings, TailWarnings, RefsOf, OmittedLines, AllWarnings, LinesOf, LastOf, ByteLength;
  }

  lemma OmittedAre(text: string, tail: seq<Line>)
    requires tail == LastOf(LinesOf(text), RECOVERY_LINE_LIMIT)
    ensures |tail| <= |LinesOf(text)| && (|LinesOf(text)| <= RECOVERY_LINE_LIMIT ==> |tail| == |LinesOf(text)|)
    ensures |LinesOf(text)| - |tail| <= |Terminated(text)|
    ensures Omitted(text, |LinesOf(text)| - |tail|) == OmittedLines(text)
  {
    hide Terminated, Tail, Clean;
  }

  lemma SnapshotIsValid(reader: Reader, copyOf: string -> string, text: string, s: Snapshot, reading: TailReading, tail: seq<Line>)
    requires tail == LastOf(LinesOf(text), RECOVERY_LINE_LIMIT) && HeaderFits(s) && s.sourceLines == |LinesOf(text)|
    requires Gathered(reader, copyOf, tail, s.retainedFirstLine, reading)
    requires s.warnings == AllWarnings(s.truncated,
      reading.warnings + ChainWarnings(reader, RawLines(tail), OmittedLines(text), reading.parentRefs))
    ensures ValidSnapshot(s)
  {
    hide Terminated, Tail, Clean, HeaderFits, Gathered, LinesOf, RetainedWarnings, ChainWarnings, TailWarnings, RefsOf, AllWarnings, ValidSnapshot;
    var omitted := OmittedLines(text);
    var chain := ChainWarnings(reader, RawLines(tail), omitted, reading.parentRefs);
    GatheredWarnings(reader, copyOf, tail, s.retainedFirstLine, reading);
    UnterminatedIsLast(text, tail);
    TailWarningsRetained(reader, tail, s.retainedFirstLine, |tail|);
    assert tail[..|tail|] == tail;
    RefLines(reader, tail, s.retainedFirstLine);
    HeaderLines(s);
    ChainWarningsRetained(reader, RawLines(tail), omitted, reading.parentRefs, s.retainedFirstLine, s.retainedLastLine);
    OmittedOnlyWhenLong(text);
    RetainedWeaker(chain, s.retainedFirstLine, s.retainedLastLine, omitted != [], s.truncated);
    NothingToReport(reader, RawLines(tail), omitted);
    TailLength(text);
    RetainedBoth(reading.warnings, chain, s.retainedFirstLine, s.retainedLastLine, s.truncated);
    BuiltIsValid(s, reading.warnings + chain);
  }

  lemma TailLength(text: string)
    ensures |LastOf(LinesOf(text), RECOVERY_LINE_LIMIT)| ==
      if |LinesOf(text)| <= RECOVERY_LINE_LIMIT then |LinesOf(text)| else RECOVERY_LINE_LIMIT
  {
    hide LinesOf;
  }

  lemma NothingToReport(reader: Reader, tail: seq<string>, omitted: seq<string>)
    ensures ChainWarnings(reader, tail, omitted, []) == []
  {
  }

  lemma OmittedOnlyWhenLong(text: string)
    ensures OmittedLines(text) != [] ==> |LinesOf(text)| > RECOVERY_LINE_LIMIT
  {
    hide Terminated, Tail, Clean;
  }

  lemma RetainedBoth(left: seq<Warning>, right: seq<Warning>, first: int, last: int, truncated: bool)
    requires RetainedWarnings(left, first, last, false)
    requires RetainedWarnings(right, first, last, truncated)
    ensures RetainedWarnings(left + right, first, last, truncated)
  {
  }

  lemma RetainedWeaker(warnings: seq<Warning>, first: int, last: int, mayBeOutside: bool, truncated: bool)
    requires RetainedWarnings(warnings, first, last, mayBeOutside) && (mayBeOutside ==> truncated)
    ensures RetainedWarnings(warnings, first, last, truncated)
  {
  }

  lemma GatheredWarnings(reader: Reader, copyOf: string -> string, tail: seq<Line>, first: int, r: TailReading)
    requires Gathered(reader, copyOf, tail, first, r)
    ensures r.warnings == TailWarnings(reader, tail, first) && r.parentRefs == RefsOf(reader, tail, first)
    ensures tail == [] ==> r.warnings == [] && r.parentRefs == []
  {
  }

  lemma HeaderLines(s: Snapshot)
    requires HeaderFits(s)
    ensures s.sourceLines > 0 ==> s.retainedLastLine == s.retainedFirstLine + s.copiedLines - 1
    ensures s.sourceLines >= 0 && s.copiedLines == if s.sourceLines <= RECOVERY_LINE_LIMIT then s.sourceLines else RECOVERY_LINE_LIMIT
    ensures s.truncated <==> s.sourceLines > RECOVERY_LINE_LIMIT
  {
  }
}
