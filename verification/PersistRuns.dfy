/** What a persist loop does between two starts, whatever turns, stops and completions come. */
module PersistRuns {
  import opened PersistLoop
  import opened PersistRecord
  import opened Wrappers

  datatype Op = Execute(input: Json, now: int) | End(done: bool)

  datatype Answer = Granted(loop: int, revision: int, now: int) | NotGranted

  datatype Setting = Setting(digest: Digest, decimal: int -> string)

  function Apply(g: Setting, file: File, op: Op): (File, Answer) {
    match op
    case Execute(input, now) =>
      var (after, r) := AfterDecision(g.digest, g.decimal, file, input, now);
      (after, if r.Ok? && r.value.Continue? then Granted(r.value.loop, r.value.next.revision, now) else NotGranted)
    case End(done) => (AfterEnd(file, done).0, NotGranted)
  }

  function Run(g: Setting, file: File, ops: seq<Op>): (File, seq<Answer>) {
    if ops == [] then (file, [])
    else
      var (before, answers) := Run(g, file, ops[..|ops| - 1]);
      var (after, answer) := Apply(g, before, ops[|ops| - 1]);
      (after, answers + [answer])
  }

  /** The host counters of the granted turns, in order. */
  function Counters(answers: seq<Answer>): seq<int> {
    if answers == [] then []
    else
      Counters(answers[..|answers| - 1])
      + if answers[|answers| - 1].Granted? then [answers[|answers| - 1].loop] else []
  }

  /** A read of the file gives this record. */
  predicate Shows(file: File, s: State) {
    ReadState(file) == Ok(Some(s))
  }

  predicate Dead(file: File) {
    ReadState(file).Err?
  }

  /** What a grant from a record means, and the record it leaves unless that can no longer be read. */
  ghost predicate GrantFrom(s: State, answer: Answer, now: int, after: File) {
    && answer.Granted? && s.active && !s.done && now < s.deadline && 0 <= answer.loop < s.maxLoops && answer.now == now
    && (s.lastHost.Some? ==> answer.loop > s.lastHost.value) && s.consumed < s.maxLoops
    && answer.revision == s.revision + 1
    && (Dead(after)
        || exists t :: Shows(after, t) && t.consumed == s.consumed + 1 && t.lastHost == Some(answer.loop)
                       && t.maxLoops == s.maxLoops && t.deadline == s.deadline && t.revision == s.revision + 1)
  }

  lemma Executed(g: Setting, file: File, s: State, input: Json, now: int)
    requires Shows(file, s)
    ensures Plausible(s)
    ensures var d := DecideOn(g.digest, g.decimal, s.(legacy := false), input, now);
      Apply(g, file, Execute(input, now)) ==
      if InLimits(s) && d.Continue? then (Present(ToJson(d.next)), Granted(d.loop, d.next.revision, now)) else (file, NotGranted)
  {
    ReadIsPlausible(file.json);
    ReadBackIff(s);
    hide Normalize, ToJson, InLimits, DecideOn, Plausible;
  }

  /** A decision grants only from an active record within the limits. */
  lemma DecisionStep(g: Setting, file: File, s: State, input: Json, now: int)
    requires Shows(file, s) && Short(g.digest)
    ensures var (after, answer) := Apply(g, file, Execute(input, now));
      if answer.NotGranted? then after == file else GrantFrom(s, answer, now, after)
  {
    Executed(g, file, s, input, now);
    var clean := s.(legacy := false);
    var d := DecideOn(g.digest, g.decimal, clean, input, now);
    if InLimits(s) && d.Continue? {
      GrantFacts(g.digest, g.decimal, clean, input, now);
      ReadBackIff(d.next);
      assert d.next.(legacy := false) == d.next;
      hide Normalize, ToJson, InLimits, DecideOn, Plausible, Apply;
      if !Dead(Present(ToJson(d.next))) {
        assert Shows(Present(ToJson(d.next)), d.next);
      }
    }
  }

  /** A stop or a completion leaves an inactive record, or one that cannot be read any more. */
  lemma EndStep(g: Setting, file: File, s: State, done: bool)
    requires Shows(file, s)
    ensures var after := Apply(g, file, End(done)).0;
      Dead(after) || (Shows(after, Ended(s, done)) && after == Present(ToJson(Ended(s, done))))
  {
    ReadBackIff(Ended(s, done));
    assert Ended(s, done).(legacy := false) == Ended(s, done);
    hide Normalize, ToJson, InLimits;
  }

  lemma DeadStays(g: Setting, file: File, op: Op)
    requires Dead(file)
    ensures Apply(g, file, op) == (file, NotGranted)
  {
  }

  /** What the grants so far were, given the record the run began with. */
  ghost predicate GrantsFit(s: State, answers: seq<Answer>) {
    var counters := Counters(answers);
    && (forall k :: 0 <= k < |counters| ==> 0 <= counters[k] < s.maxLoops && (s.lastHost.Some? ==> counters[k] > s.lastHost.value))
    && (forall i, j :: 0 <= i < j < |counters| ==> counters[i] < counters[j])
    && (counters != [] ==> s.consumed + |counters| <= s.maxLoops)
  }

  ghost predicate OnTime(s: State, answers: seq<Answer>) {
    forall k :: 0 <= k < |answers| && answers[k].Granted? ==> answers[k].now < s.deadline
  }

  /** The record continues s after these answers. */
  ghost predicate Continues(s: State, answers: seq<Answer>, t: State) {
    var counters := Counters(answers);
    && t.maxLoops == s.maxLoops && t.deadline == s.deadline && t.consumed == s.consumed + |counters|
    && t.lastHost == (if counters == [] then s.lastHost else Some(counters[|counters| - 1]))
  }

  lemma CountersGrow(answers: seq<Answer>, a: Answer)
    ensures Counters(answers + [a]) == Counters(answers) + if a.Granted? then [a.loop] else []
  {
    assert (answers + [a])[..|answers|] == answers;
  }

  /** One more grant fits after those before. */
  lemma GrantFits(s: State, answers: seq<Answer>, t: State, a: Answer, u: State)
    requires GrantsFit(s, answers) && Continues(s, answers, t) && a.Granted?
    requires 0 <= a.loop < t.maxLoops && (t.lastHost.Some? ==> a.loop > t.lastHost.value) && t.consumed < t.maxLoops
    ensures GrantsFit(s, answers + [a])
    ensures u.consumed == t.consumed + 1 && u.lastHost == Some(a.loop) && u.maxLoops == t.maxLoops && u.deadline == t.deadline
      ==> Continues(s, answers + [a], u)
  {
    CountersGrow(answers, a);
  }

  lemma GrantOnTime(s: State, answers: seq<Answer>, t: State, a: Answer)
    requires OnTime(s, answers) && Continues(s, answers, t) && a.Granted? && a.now < t.deadline
    ensures OnTime(s, answers + [a])
  {
  }

  /** The answers fit, and the file holds the record they lead to unless it can no longer be read. */
  ghost predicate Tracks(s: State, file: File, answers: seq<Answer>) {
    GrantsFit(s, answers) && OnTime(s, answers) && (Dead(file) || exists t :: Shows(file, t) && Continues(s, answers, t))
  }

  lemma NoGrantFits(s: State, answers: seq<Answer>, t: State)
    requires GrantsFit(s, answers) && OnTime(s, answers)
    ensures GrantsFit(s, answers + [NotGranted]) && OnTime(s, answers + [NotGranted])
    ensures Continues(s, answers, t) ==> Continues(s, answers + [NotGranted], t)
  {
    CountersGrow(answers, NotGranted);
  }

  lemma EndTracks(g: Setting, file: File, s: State, answers: seq<Answer>, done: bool)
    requires Tracks(s, file, answers)
    ensures Tracks(s, Apply(g, file, End(done)).0, answers + [NotGranted])
  {
    if Dead(file) {
      DeadStays(g, file, End(done));
      NoGrantFits(s, answers, s);
    } else {
      var t :| Shows(file, t) && Continues(s, answers, t);
      EndStep(g, file, t, done);
      NoGrantFits(s, answers, Ended(t, done));
      hide Apply, Shows, Dead, GrantsFit, OnTime;
    }
  }

  lemma ExecuteTracks(g: Setting, file: File, s: State, answers: seq<Answer>, input: Json, now: int)
    requires Tracks(s, file, answers) && Short(g.digest)
    ensures var (after, answer) := Apply(g, file, Execute(input, now)); Tracks(s, after, answers + [answer])
  {
    var (after, answer) := Apply(g, file, Execute(input, now));
    if Dead(file) {
      DeadStays(g, file, Execute(input, now));
      NoGrantFits(s, answers, s);
    } else {
      var t :| Shows(file, t) && Continues(s, answers, t);
      DecisionStep(g, file, t, input, now);
      hide Apply, Shows, Dead, GrantsFit, Continues, OnTime;
      if answer.NotGranted? {
        NoGrantFits(s, answers, t);
      } else {
        GrantFits(s, answers, t, answer, t);
        GrantOnTime(s, answers, t, answer);
        if !Dead(after) {
          var u :| Shows(after, u) && u.consumed == t.consumed + 1 && u.lastHost == Some(answer.loop)
            && u.maxLoops == t.maxLoops && u.deadline == t.deadline;
          GrantFits(s, answers, t, answer, u);
        }
      }
    }
  }

  lemma {:induction false} RunFits(g: Setting, file: File, s: State, ops: seq<Op>)
    requires Shows(file, s) && Short(g.digest)
    ensures Tracks(s, Run(g, file, ops).0, Run(g, file, ops).1)
  {
    if ops == [] {
      assert Continues(s, [], s);
    } else {
      var init, op := ops[..|ops| - 1], ops[|ops| - 1];
      RunFits(g, file, s, init);
      var (before, answers) := Run(g, file, init);
      match op {
        case End(done) =>
          NoGrantAtEnd(g, before, done);
          EndTracks(g, before, s, answers, done);
        case Execute(input, now) => ExecuteTracks(g, before, s, answers, input, now);
      }
      hide Apply, Shows, Tracks;
    }
  }

  lemma NoGrantAtEnd(g: Setting, file: File, done: bool)
    ensures Apply(g, file, End(done)).1 == NotGranted
  {
  }

  /**
   * Between two starts: at most maxLoops grants, with strictly increasing host counters below maxLoops, each before the
   * deadline. This holds whether or not what the start wrote can be read back.
   */
  lemma BetweenStarts(
    g: Setting, redact: string -> string, input: StartInput, previous: Option<State>, ops: seq<Op>)
    requires StartValid(input) && Short(g.digest)
    ensures var answers := Run(g, Present(ToJson(StartedState(redact, input, previous))), ops).1;
      var counters := Counters(answers);
      && |counters| <= input.maxLoops
      && (forall k :: 0 <= k < |counters| ==> 0 <= counters[k] < input.maxLoops)
      && (forall i, j :: 0 <= i < j < |counters| ==> counters[i] < counters[j])
      && (forall k :: 0 <= k < |answers| && answers[k].Granted? ==> answers[k].now < input.now + input.minutes * 60000)
  {
    var s := StartedState(redact, input, previous);
    var file := Present(ToJson(s));
    ReadBackIff(s);
    if Normalize(ToJson(s)).Some? {
      assert s.(legacy := false) == s;
      hide ToJson, Normalize, InLimits;
      RunFits(g, file, s, ops);
    } else {
      hide ToJson, Normalize, InLimits;
      DeadRun(g, file, ops);
    }
  }

  lemma {:induction false} DeadRun(g: Setting, file: File, ops: seq<Op>)
    requires Dead(file)
    ensures Run(g, file, ops).0 == file && Counters(Run(g, file, ops).1) == []
    ensures forall k :: 0 <= k < |Run(g, file, ops).1| ==> Run(g, file, ops).1[k] == NotGranted
  {
    if ops != [] {
      DeadRun(g, file, ops[..|ops| - 1]);
      DeadStays(g, Run(g, file, ops[..|ops| - 1]).0, ops[|ops| - 1]);
      CountersGrow(Run(g, file, ops[..|ops| - 1]).1, NotGranted);
    }
  }

  /** The record is inactive, or cannot be read. */
  ghost predicate Halted(file: File) {
    Dead(file) || exists s :: Shows(file, s) && !s.active
  }

  lemma HaltedStays(g: Setting, file: File, op: Op)
    requires Halted(file) && Short(g.digest)
    ensures Halted(Apply(g, file, op).0) && Apply(g, file, op).1 == NotGranted
  {
    if Dead(file) {
      DeadStays(g, file, op);
    } else {
      var s :| Shows(file, s) && !s.active;
      match op
      case End(done) =>
        EndStep(g, file, s, done);
        hide Shows, Dead;
      case Execute(input, now) =>
        DecisionStep(g, file, s, input, now);
        hide Shows, Dead, Apply;
    }
  }

  /** After a stop or a completion nothing is granted any more. */
  lemma {:induction false} NothingAfterEnd(g: Setting, file: File, s: State, done: bool, ops: seq<Op>)
    requires Shows(file, s) && Short(g.digest)
    ensures Counters(Run(g, Apply(g, file, End(done)).0, ops).1) == []
  {
    EndStep(g, file, s, done);
    HaltedRun(g, Apply(g, file, End(done)).0, ops);
  }

  lemma {:induction false} HaltedRun(g: Setting, file: File, ops: seq<Op>)
    requires Halted(file) && Short(g.digest)
    ensures Halted(Run(g, file, ops).0) && Counters(Run(g, file, ops).1) == []
  {
    if ops != [] {
      HaltedRun(g, file, ops[..|ops| - 1]);
      HaltedStays(g, Run(g, file, ops[..|ops| - 1]).0, ops[|ops| - 1]);
      CountersGrow(Run(g, file, ops[..|ops| - 1]).1, NotGranted);
      hide Halted, Apply;
    }
  }

  /** Every operation that changes the file writes a record whose revision is one more than the one it read. */
  lemma WritesRaiseRevision(g: Setting, file: File, op: Op)
    requires Short(g.digest)
    ensures var after := Apply(g, file, op).0;
      after == file || exists s, t :: Shows(file, s) && after == Present(ToJson(t)) && t.revision == s.revision + 1
  {
    if Apply(g, file, op).0 != file {
      var s := ReadState(file).value.value;
      assert Shows(file, s);
      match op
      case End(done) =>
        assert Ended(s, done).revision == s.revision + 1;
      case Execute(input, now) =>
        ReadIsPlausible(file.json);
        ReadBackIff(s);
        GrantFacts(g.digest, g.decimal, s.(legacy := false), input, now);
        hide Normalize, ToJson, InLimits, Plausible;
    }
  }

  /**
   * decidePersist counts the host's turns of a version 1 record against the budget, but only when it is given the raw
   * record: executePersistDecision gives it the record it read, which passes for version 2.
   */
  lemma MigrationBaselineLost(g: Setting, raw: Json, input: Json, now: int)
    requires Normalize(raw).Some? && Normalize(raw).value.legacy && InLimits(Normalize(raw).value) && Short(g.digest)
    requires DecidePersist(g.digest, g.decimal, raw, input, now).Continue?
    ensures var s := Normalize(raw).value;
      var direct := DecidePersist(g.digest, g.decimal, raw, input, now);
      var executed := AfterDecision(g.digest, g.decimal, Present(raw), input, now).1;
      && executed.Ok? && executed.value.Continue? && executed.value.loop == direct.loop
      && executed.value.next.consumed == s.consumed + 1
      && direct.next.consumed == (if direct.loop > s.consumed then direct.loop else s.consumed) + 1
  {
    var s := Normalize(raw).value;
    ReadBackIff(s);
    hide Normalize, ToJson, InLimits, DeriveEventId;
  }

  /** A version 1 record that reads well, with the given number of loops counted. */
  function OldRecord(consumed: int): Json {
    Obj(map[
      SchemaVersion := Int(1), Active := Bool(true), Goal := Str("g"), MaxLoops := Int(25), DeadlineMs := Int(1000),
      CreatedAtMs := Int(1), Done := Bool(false), ConsumedLoops := Int(consumed)])
  }

  lemma OldFields(consumed: int)
    requires Safe(consumed)
    ensures var j := OldRecord(consumed);
      && j.Obj? && Get(j, SchemaVersion) == Some(Int(1)) && BoolAt(j, Active) == Some(true) && StrAt(j, Goal) == Some("g")
      && IntAt(j, MaxLoops) == Some(25) && IntAt(j, DeadlineMs) == Some(1000) && IntAt(j, CreatedAtMs) == Some(1)
      && BoolAt(j, Done) == Some(false) && IntAt(j, ConsumedLoops) == Some(consumed)
      && IntAt(j, LastHostLoopCount) == None && IntAt(j, Revision) == None && StrAt(j, LastEventId) == None
      && IntAt(j, LastDecisionAtMs) == None && StrAt(j, LastDecisionReason) == None
  {
  }

  lemma OldRecordReads(consumed: nat)
    requires Safe(consumed)
    ensures Normalize(OldRecord(consumed)) ==
      Some(State(true, "g", 25, consumed, None, 0, 1000, 1, false, None, None, None, true))
  {
    OldFields(consumed);
    assert "g"[0] == 'g' && !IsSpace('g');
    hide OldRecord, Get, IntAt, StrAt, BoolAt;
  }

  /** The hook's input after a turn that completed. */
  function TurnDone(loop: int): Json {
    Obj(map[Status := Str("completed"), LoopCount := Int(loop)])
  }

  lemma TurnFields(loop: int)
    requires Safe(loop)
    ensures IntAt(TurnDone(loop), LoopCount) == Some(loop) && StrAt(TurnDone(loop), Status) == Some("completed")
  {
  }

  /**
   * With nothing counted yet and a host loop count of five, the two disagree: judged raw, the record has used six
   * slots after the grant, judged as the code does, one.
   */
  lemma MigrationBaselineDiffers(g: Setting)
    requires Short(g.digest)
    ensures var raw, input := OldRecord(0), TurnDone(5);
      var direct := DecidePersist(g.digest, g.decimal, raw, input, 500);
      var executed := AfterDecision(g.digest, g.decimal, Present(raw), input, 500).1;
      && direct.Continue? && direct.next.consumed == 6
      && executed.Ok? && executed.value.Continue? && executed.value.next.consumed == 1
  {
    OldRecordReads(0);
    TurnFields(5);
    var s := Normalize(OldRecord(0)).value;
    assert "g"[0] == 'g' && !IsSpace('g');
    assert InLimits(s) && DecidePersist(g.digest, g.decimal, OldRecord(0), TurnDone(5), 500).Continue? by {
      hide Normalize, DeriveEventId, TurnDone, IntAt, StrAt;
    }
    MigrationBaselineLost(g, OldRecord(0), TurnDone(5), 500);
    hide Normalize, AfterDecision, DeriveEventId, TurnDone, OldRecord;
  }

  /** Stopping a record with more loops than version 2 allows leaves a file that can no longer be read. */
  lemma StopCanMakeUnreadable()
    ensures ReadState(Present(OldRecord(501))).Ok? && Dead(AfterEnd(Present(OldRecord(501)), false).0)
  {
    OldRecordReads(501);
    var s := Normalize(OldRecord(501)).value;
    ReadBackIff(Ended(s, false));
    hide ToJson, Normalize;
  }
}
