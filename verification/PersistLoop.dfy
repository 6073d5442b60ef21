/** The persist loop: the decision on a stopped turn, the operations on its record, and what holds between two starts. */
module PersistLoop {
  import opened PersistRecord
  import opened Wrappers

  datatype Halt =
    | NoActiveState | StatusNotCompleted | GoalMarkedDone | DeadlineReached | LoopCountInvalid | LoopCountDecreased
    | BudgetExhausted | DuplicateEvent

  datatype Decision = Stop(reason: Halt) | Continue(loop: int, next: State)

  // ---- Event ids ----

  function DropBlank(s: string): string {
    if s != [] && IsSpace(s[0]) then DropBlank(s[1..]) else s
  }

  function DropBlankEnd(s: string): string {
    if s != [] && IsSpace(s[|s| - 1]) then DropBlankEnd(s[..|s| - 1]) else s
  }

  function Trim(s: string): string {
    DropBlankEnd(DropBlank(s))
  }

  /** A digest of 16 characters. */
  type Digest = string -> string

  ghost predicate Short(digest: Digest) {
    forall s :: |digest(s)| == 16
  }

  /** The trimmed id, cut and marked with its digest when it is too long. */
  function BoundId(digest: Digest, value: string, limit: int): string
    requires limit >= 17
  {
    var trimmed := Trim(value);
    if |trimmed| <= limit then trimmed else trimmed[..limit - 17] + "_" + digest(trimmed)
  }

  lemma BoundIdFits(digest: Digest, value: string, limit: int)
    requires Short(digest) && limit >= 17
    ensures |BoundId(digest, value, limit)| <= limit
  {
    if |Trim(value)| > limit { assert |digest(Trim(value))| == 16; }
  }

  /** A text property that is not blank. */
  function Filled(input: Json, key: Key): Option<string> {
    var s := StrAt(input, key);
    if s.Some? && !Blank(s.value) then s else None
  }

  function Either(a: Option<string>, b: Option<string>): Option<string> {
    if a.Some? then a else b
  }

  function Part(prefix: string, digest: Digest, id: Option<string>): string {
    if id.Some? then prefix + BoundId(digest, id.value, 64) + ":" else ""
  }

  function DeriveEventId(digest: Digest, decimal: int -> string, input: Json, loop: int): string {
    var given := Either(Filled(input, EventId), Filled(input, EventIdCamel));
    if given.Some? then BoundId(digest, given.value, 128)
    else
      var session := Part("session:", digest, Either(Filled(input, SessionId), Filled(input, SessionIdCamel)));
      var turn := Part("turn:", digest, Either(Filled(input, TurnId), Filled(input, TurnIdCamel)));
      BoundId(digest, session + turn + "loop:" + decimal(loop), 128)
  }

  lemma EventIdFits(digest: Digest, decimal: int -> string, input: Json, loop: int)
    requires Short(digest)
    ensures |DeriveEventId(digest, decimal, input, loop)| <= 128
  {
    var given := Either(Filled(input, EventId), Filled(input, EventIdCamel));
    if given.Some? {
      BoundIdFits(digest, given.value, 128);
    } else {
      var session := Part("session:", digest, Either(Filled(input, SessionId), Filled(input, SessionIdCamel)));
      var turn := Part("turn:", digest, Either(Filled(input, TurnId), Filled(input, TurnIdCamel)));
      BoundIdFits(digest, session + turn + "loop:" + decimal(loop), 128);
    }
  }

  // ---- The decision ----

  /** The slots taken so far; a record that has just been migrated also counts the host's own turns. */
  function Baseline(s: State, loop: int): int {
    if s.legacy && loop > s.consumed then loop else s.consumed
  }

  /** The record after a grant. */
  function Advanced(s: State, loop: int, event: string, now: int): State {
    var earliest := if s.lastDecisionAt.Some? then s.lastDecisionAt.value else s.createdAt;
    s.(active := true, consumed := Baseline(s, loop) + 1, lastHost := Some(loop), revision := s.revision + 1, done := false,
       lastEvent := Some(event), lastDecisionAt := Some(if now > earliest then now else earliest),
       lastReason := Some("persist_active"), legacy := false)
  }

  /** Whether a stopped turn may go on. Any doubt stops it. */
  function DecideOn(digest: Digest, decimal: int -> string, s: State, input: Json, now: int): Decision {
    var loop := IntAt(input, LoopCount);
    if !s.active && !s.done then Stop(NoActiveState)
    else if StrAt(input, Status) != Some("completed") then Stop(StatusNotCompleted)
    else if s.done then Stop(GoalMarkedDone)
    else if !Safe(now) || now <= 0 || now >= s.deadline then Stop(DeadlineReached)
    else if !Within(loop, 0, MAX_PERSIST_LOOPS) then Stop(LoopCountInvalid)
    else if s.lastHost.Some? && loop.value < s.lastHost.value then Stop(LoopCountDecreased)
    else if Baseline(s, loop.value) >= s.maxLoops || loop.value >= s.maxLoops then Stop(BudgetExhausted)
    else
      var event := DeriveEventId(digest, decimal, input, loop.value);
      if s.lastEvent == Some(event) || s.lastHost == loop then Stop(DuplicateEvent)
      else Continue(loop.value, Advanced(s, loop.value, event, now))
  }

  function DecidePersist(digest: Digest, decimal: int -> string, raw: Json, input: Json, now: int): Decision {
    var s := Normalize(raw);
    if s.None? then Stop(NoActiveState) else DecideOn(digest, decimal, s.value, input, now)
  }

  /** What a grant presupposes, and what it leaves. */
  lemma GrantFacts(digest: Digest, decimal: int -> string, s: State, input: Json, now: int)
    requires Plausible(s) && DecideOn(digest, decimal, s, input, now).Continue? && Short(digest)
    ensures var d := DecideOn(digest, decimal, s, input, now);
      && s.active && !s.done && 0 < now < s.deadline && 0 <= d.loop < s.maxLoops
      && (s.lastHost.Some? ==> d.loop > s.lastHost.value)
      && s.consumed < d.next.consumed <= s.maxLoops && (!s.legacy ==> d.next.consumed == s.consumed + 1)
      && d.next.lastHost == Some(d.loop) && d.next.revision == s.revision + 1
      && d.next.active && !d.next.done && d.next.maxLoops == s.maxLoops && d.next.deadline == s.deadline
      && d.next.goal == s.goal && d.next.createdAt == s.createdAt && !d.next.legacy
      && d.next.lastEvent.Some? && |d.next.lastEvent.value| <= 128
      && d.next.lastDecisionAt.Some? && 0 <= d.next.lastDecisionAt.value <= MAX_SAFE_INTEGER
  {
    var loop := IntAt(input, LoopCount);
    if loop.Some? { EventIdFits(digest, decimal, input, loop.value); }
    hide DeriveEventId, Blank, StrAt, IntAt;
  }

  /** A granted record is read back unchanged exactly while its revision is a safe integer. */
  lemma GrantReadsBackIff(digest: Digest, decimal: int -> string, s: State, input: Json, now: int)
    requires Plausible(s) && Short(digest) && DecideOn(digest, decimal, s, input, now).Continue?
    ensures var next := DecideOn(digest, decimal, s, input, now).next;
      Normalize(ToJson(next)) == Some(next) <==> s.revision < MAX_SAFE_INTEGER
  {
    GrantFacts(digest, decimal, s, input, now);
    var next := DecideOn(digest, decimal, s, input, now).next;
    ReadBackIff(next);
    hide Normalize, ToJson, Blank, DecideOn;
    assert next.(legacy := false) == next;
  }

  // ---- The record file and its operations ----

  datatype File = Absent | Corrupt | Present(json: Json)

  /** Reading the file: nothing, a record, or an error. */
  function ReadState(file: File): Result<Option<State>, ()> {
    match file
    case Absent => Ok(None)
    case Corrupt => Err(())
    case Present(j) => if Normalize(j).Some? then Ok(Normalize(j)) else Err(())
  }

  datatype StartInput = StartInput(goal: string, maxLoops: int, minutes: int, now: int)

  const MAX_DEADLINE_MINUTES := 1440

  predicate StartValid(input: StartInput) {
    && Trim(input.goal) != "" && |Trim(input.goal)| <= MAX_GOAL_LENGTH
    && 1 <= input.maxLoops <= MAX_PERSIST_LOOPS && 1 <= input.minutes <= MAX_DEADLINE_MINUTES
    && 0 < input.now <= MAX_SAFE_INTEGER
  }

  function StartedState(redact: string -> string, input: StartInput, previous: Option<State>): State {
    State(true, redact(Trim(input.goal)), input.maxLoops, 0, None,
          (if previous.Some? then previous.value.revision else 0) + 1,
          input.now + input.minutes * 60000, input.now, false, None, None, None, false)
  }

  function Ended(s: State, done: bool): State {
    s.(active := false, done := done || s.done, revision := s.revision + 1, legacy := false,
       lastReason := Some(if done then "completed_by_operator" else "stopped_by_operator"))
  }

  /** The state startPersist writes can be read back exactly when redaction left a goal of allowed length, and the times fit. */
  lemma StartReadsBackIff(redact: string -> string, input: StartInput, previous: Option<State>)
    requires StartValid(input) && (previous.Some? ==> Plausible(previous.value))
    ensures var s := StartedState(redact, input, previous);
      Normalize(ToJson(s)) == Some(s) <==>
      && !Blank(redact(Trim(input.goal))) && |redact(Trim(input.goal))| <= MAX_GOAL_LENGTH
      && input.now + input.minutes * 60000 <= MAX_SAFE_INTEGER
      && (previous.Some? ==> previous.value.revision < MAX_SAFE_INTEGER)
  {
    ReadBackIff(StartedState(redact, input, previous));
    hide Normalize, ToJson, Blank, Trim;
  }

  /** The state stopPersist or completePersist writes can be read back exactly when its counters fit version 2. */
  lemma EndReadsBackIff(s: State, done: bool)
    requires Plausible(s)
    ensures Normalize(ToJson(Ended(s, done))) == Some(Ended(s, done)) <==>
      && s.consumed <= MAX_PERSIST_LOOPS && Bounded(s.lastHost, MAX_PERSIST_LOOPS) && s.revision < MAX_SAFE_INTEGER
  {
    ReadBackIff(Ended(s, done));
    hide Normalize, ToJson, Blank;
  }

  class PersistStore {
    var file: File
    const digest: Digest
    const decimal: int -> string
    const redact: string -> string

    constructor (digest: Digest, decimal: int -> string, redact: string -> string)
      ensures file == Absent && this.digest == digest && this.decimal == decimal && this.redact == redact
    {
      this.digest, this.decimal, this.redact := digest, decimal, redact;
      file := Absent;
    }

    /** Arm the loop anew. An unreadable file makes that fail. */
    method StartPersist(input: StartInput) returns (r: Option<State>)
      modifies `file
      ensures r.Some? <==> StartValid(input) && ReadState(old(file)).Ok?
      ensures r.None? ==> file == old(file)
      ensures r.Some? ==>
        r.value == StartedState(redact, input, ReadState(old(file)).value) && file == Present(ToJson(r.value))
    {
      if !StartValid(input) { return None; }
      var current := ReadState(file);
      if current.Err? { return None; }
      var s := StartedState(redact, input, current.value);
      file := Present(ToJson(s));
      return Some(s);
    }

    /** Stop the loop, or mark its goal done. */
    method EndPersist(done: bool) returns (r: Result<Option<State>, ()>)
      modifies `file
      ensures (file, r) == AfterEnd(old(file), done)
    {
      if file == Absent { return Ok(None); }
      var current := ReadState(file);
      if current.Err? { return Err(()); }
      var next := Ended(current.value.value, done);
      file := Present(ToJson(next));
      return Ok(Some(next));
    }

    /** Decide on a stopped turn, and write the record if it may go on. */
    method ExecutePersistDecision(input: Json, now: int) returns (r: Result<Decision, ()>)
      modifies `file
      ensures (file, r) == AfterDecision(digest, decimal, old(file), input, now)
    {
      if file == Absent { return Ok(Stop(NoActiveState)); }
      var current := ReadState(file);
      if current.Err? { return Err(()); }
      var decision := DecidePersist(digest, decimal, ToJson(current.value.value), input, now);
      if decision.Continue? { file := Present(ToJson(decision.next)); }
      return Ok(decision);
    }
  }

  function AfterEnd(file: File, done: bool): (File, Result<Option<State>, ()>) {
    match ReadState(file)
    case Err(_) => (file, Err(()))
    case Ok(None) => (file, Ok(None))
    case Ok(Some(s)) => (Present(ToJson(Ended(s, done))), Ok(Some(Ended(s, done))))
  }

  /** The decision is taken on the record that was read, so a migrated one is judged as a version 2 record. */
  function AfterDecision(digest: Digest, decimal: int -> string, file: File, input: Json, now: int)
    : (File, Result<Decision, ()>)
  {
    match ReadState(file)
    case Err(_) => (file, Err(()))
    case Ok(None) => (file, Ok(Stop(NoActiveState)))
    case Ok(Some(s)) =>
      var decision := DecidePersist(digest, decimal, ToJson(s), input, now);
      (if decision.Continue? then Present(ToJson(decision.next)) else file, Ok(decision))
  }
}
