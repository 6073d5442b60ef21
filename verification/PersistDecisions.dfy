/** When a stopped turn may go on, which reason each stop gives, and how the fields of a record file are read. */
module PersistDecisions {
  import opened PersistLoop
  import opened PersistRecord
  import opened Wrappers

  // ---- The guards, on the fields of input and record ----

  ghost predicate Has(j: Json, key: Key, value: Json) {
    j.Obj? && key in j.fields && j.fields[key] == value
  }

  /** The hook reports a turn that completed. */
  ghost predicate TurnCompleted(input: Json) {
    Has(input, Status, Str("completed"))
  }

  /** The host's loop counter, which is at most 500. */
  ghost predicate Counts(input: Json, n: int) {
    Has(input, LoopCount, Int(n)) && 0 <= n <= 500
  }

  ghost predicate Armed(s: State) {
    s.active && !s.done
  }

  ghost predicate InTime(s: State, now: int) {
    0 < now <= 9007199254740991 && now < s.deadline
  }

  ghost predicate SlotLeft(s: State, n: int) {
    n < s.maxLoops && s.consumed < s.maxLoops
  }

  ghost predicate WentBack(s: State, n: int) {
    s.lastHost.Some? && n < s.lastHost.value
  }

  ghost predicate SeenBefore(digest: Digest, decimal: int -> string, s: State, input: Json, n: int) {
    s.lastHost == Some(n) || s.lastEvent == Some(DeriveEventId(digest, decimal, input, n))
  }

  lemma CounterIs(input: Json, n: int)
    requires Counts(input, n)
    ensures IntAt(input, LoopCount) == Some(n)
  {
  }

  lemma ReadsInput(input: Json)
    ensures StrAt(input, Status) == Some("completed") <==> TurnCompleted(input)
    ensures Within(IntAt(input, LoopCount), 0, MAX_PERSIST_LOOPS) ==> Counts(input, IntAt(input, LoopCount).value)
    ensures forall n :: Counts(input, n) ==> IntAt(input, LoopCount) == Some(n) && 0 <= n <= MAX_PERSIST_LOOPS
  {
    forall n | Counts(input, n) ensures IntAt(input, LoopCount) == Some(n) {
      CounterIs(input, n);
    }
  }

  // ---- The decision ----

  /**
   * A stopped turn goes on exactly when the record is armed, the turn completed, the clock is sound and before the deadline,
   * and the host's counter is valid, has risen, leaves a slot, and comes with another event than the last one granted.
   */
  lemma ContinuesIff(digest: Digest, decimal: int -> string, s: State, input: Json, now: int)
    ensures DecideOn(digest, decimal, s, input, now).Continue? <==>
      && Armed(s) && TurnCompleted(input) && InTime(s, now)
      && exists n :: Counts(input, n) && SlotLeft(s, n) && (s.lastHost.Some? ==> n > s.lastHost.value)
                     && s.lastEvent != Some(DeriveEventId(digest, decimal, input, n))
  {
    ReadsInput(input);
    hide Counts, TurnCompleted, DeriveEventId, IntAt, StrAt;
  }

  /** The reason of every stop: the first guard that fails, in this order. */
  lemma StopsBecause(digest: Digest, decimal: int -> string, s: State, input: Json, now: int)
    ensures var d := DecideOn(digest, decimal, s, input, now);
      var open := Armed(s) && TurnCompleted(input) && InTime(s, now);
      && (d == Stop(NoActiveState) <==> !s.active && !s.done)
      && (d == Stop(StatusNotCompleted) <==> (s.active || s.done) && !TurnCompleted(input))
      && (d == Stop(GoalMarkedDone) <==> s.done && TurnCompleted(input))
      && (d == Stop(DeadlineReached) <==> Armed(s) && TurnCompleted(input) && !InTime(s, now))
      && (d == Stop(LoopCountInvalid) <==> open && forall n :: !Counts(input, n))
      && (d == Stop(LoopCountDecreased) <==> open && exists n :: Counts(input, n) && WentBack(s, n))
      && (d == Stop(BudgetExhausted) <==>
            open && exists n :: Counts(input, n) && !WentBack(s, n) && !SlotLeft(s, n))
      && (d == Stop(DuplicateEvent) <==>
            open && exists n :: Counts(input, n) && !WentBack(s, n) && SlotLeft(s, n)
                                && SeenBefore(digest, decimal, s, input, n))
  {
    ReadsInput(input);
    hide Counts, TurnCompleted, DeriveEventId, IntAt, StrAt;
  }

  /** A grant counts one slot more, or one more than the host's own turns of a migrated record, and remembers turn and time. */
  lemma GrantStores(digest: Digest, decimal: int -> string, s: State, input: Json, now: int)
    requires DecideOn(digest, decimal, s, input, now).Continue?
    ensures var d := DecideOn(digest, decimal, s, input, now);
      && Counts(input, d.loop)
      && d.next.consumed == (if s.legacy && d.loop > s.consumed then d.loop else s.consumed) + 1
      && d.next == State(true, s.goal, s.maxLoops, d.next.consumed, Some(d.loop), s.revision + 1, s.deadline, s.createdAt,
                         false, Some(DeriveEventId(digest, decimal, input, d.loop)), d.next.lastDecisionAt,
                         Some("persist_active"), false)
      && d.next.lastDecisionAt.Some?
      && var last := if s.lastDecisionAt.Some? then s.lastDecisionAt.value else s.createdAt;
         && d.next.lastDecisionAt.value in {now, last} && d.next.lastDecisionAt.value >= now
         && d.next.lastDecisionAt.value >= last
  {
    ReadsInput(input);
    hide Counts, TurnCompleted, DeriveEventId, IntAt, StrAt;
  }

  /**
   * On the record file: a missing one stops, an unreadable one is an error, and a readable one is decided on as it reads. A
   * migrated record beyond the limits of version 2 stops too. Only a grant writes, and it writes the advanced record.
   */
  lemma ExecutedIff(digest: Digest, decimal: int -> string, file: File, input: Json, now: int)
    ensures var (after, r) := AfterDecision(digest, decimal, file, input, now);
      && (file == Absent ==> r == Ok(Stop(NoActiveState)))
      && (r.Err? <==> ReadState(file).Err?)
      && (!(r.Ok? && r.value.Continue?) ==> after == file)
      && (r.Ok? && r.value.Continue? ==> after == Present(ToJson(r.value.next)))
    ensures ReadState(file).Ok? && ReadState(file).value.Some? ==>
      var s := ReadState(file).value.value; var r := AfterDecision(digest, decimal, file, input, now).1;
      && (r.value.Continue? <==>
            && InLimits(s) && Armed(s) && TurnCompleted(input) && InTime(s, now)
            && exists n :: Counts(input, n) && SlotLeft(s, n) && (s.lastHost.Some? ==> n > s.lastHost.value)
                           && s.lastEvent != Some(DeriveEventId(digest, decimal, input, n)))
      && (r.value.Continue? ==> r.value == DecideOn(digest, decimal, s.(legacy := false), input, now))
  {
    if ReadState(file).Ok? && ReadState(file).value.Some? {
      var s := ReadState(file).value.value;
      ReadBackIff(s);
      ContinuesIff(digest, decimal, s.(legacy := false), input, now);
    }
    hide Normalize, ToJson, InLimits, DecideOn, TurnCompleted, Counts, DeriveEventId;
  }

  // ---- After a start, a stop or a completion ----

  /** A start is valid exactly for a goal of allowed length that is more than blanks, and numbers in their ranges. */
  lemma StartValidIff(input: StartInput)
    ensures StartValid(input) <==>
      && (exists k :: 0 <= k < |input.goal| && !IsSpace(input.goal[k])) && |Trim(input.goal)| <= 8192
      && 1 <= input.maxLoops <= 500 && 1 <= input.minutes <= 1440 && 0 < input.now <= 9007199254740991
  {
    var i, j := TrimIs(input.goal);
    hide Trim, IsSpace;
    forall k | 0 <= k < i ensures IsSpace(input.goal[k]) {
      assert input.goal[..i][k] == input.goal[k];
    }
    forall k | j <= k < |input.goal| ensures IsSpace(input.goal[k]) {
      assert input.goal[j..][k - j] == input.goal[k];
    }
  }

  /** What a start writes lets the first completed turn go on within its minutes and loops, and no other. */
  lemma FirstTurn(
    digest: Digest, decimal: int -> string, redact: string -> string, start: StartInput, previous: Option<State>,
    input: Json, now: int)
    requires var s := StartedState(redact, start, previous); Normalize(ToJson(s)) == Some(s)
    ensures var s := StartedState(redact, start, previous);
      var r := AfterDecision(digest, decimal, Present(ToJson(s)), input, now).1;
      && s.goal == redact(Trim(start.goal)) && s.createdAt == start.now
      && s.revision == (if previous.Some? then previous.value.revision + 1 else 1)
      && r.Ok?
      && (r.value.Continue? <==>
            && TurnCompleted(input) && 0 < now <= 9007199254740991 && now < start.now + start.minutes * 60 * 1000
            && exists n :: Counts(input, n) && n < start.maxLoops)
      && (r.value.Continue? ==> r.value.next.consumed == 1)
  {
    var s := StartedState(redact, start, previous);
    ReadBackIff(s);
    ExecutedIff(digest, decimal, Present(ToJson(s)), input, now);
    assert s.(legacy := false) == s && s.lastEvent.None? && s.lastHost.None? && 0 < s.maxLoops;
    if DecideOn(digest, decimal, s, input, now).Continue? { GrantStores(digest, decimal, s, input, now); }
    hide Normalize, ToJson, DecideOn, TurnCompleted, Counts, DeriveEventId, AfterDecision, Blank, Trim;
  }

  /** A stop or a completion keeps everything else of the record, and makes every later turn stop. */
  lemma EndStores(digest: Digest, decimal: int -> string, s: State, done: bool, input: Json, now: int)
    ensures var e := Ended(s, done);
      && e == s.(active := false, done := e.done, revision := s.revision + 1, legacy := false, lastReason := e.lastReason)
      && (e.done <==> done || s.done)
      && e.lastReason == Some(if done then "completed_by_operator" else "stopped_by_operator")
      && DecideOn(digest, decimal, e, input, now) ==
           Stop(if !e.done then NoActiveState else if TurnCompleted(input) then GoalMarkedDone else StatusNotCompleted)
  {
    StopsBecause(digest, decimal, Ended(s, done), input, now);
    hide DecideOn, TurnCompleted, Counts;
  }

  // ---- Event ids ----

  lemma {:induction false} DropBlankIs(s: string) returns (k: nat)
    ensures k <= |s| && Blank(s[..k]) && DropBlank(s) == s[k..]
    ensures k < |s| ==> !IsSpace(s[k])
  {
    hide IsSpace;
    k := 0;
    if s != [] && IsSpace(s[0]) {
      k := DropBlankIs(s[1..]);
      assert s[..k + 1] == [s[0]] + s[1..][..k] && s[k + 1..] == s[1..][k..];
      k := k + 1;
    }
  }

  lemma {:induction false} DropBlankEndIs(s: string) returns (k: nat)
    ensures k <= |s| && Blank(s[k..]) && DropBlankEnd(s) == s[..k]
    ensures k > 0 ==> !IsSpace(s[k - 1])
  {
    hide IsSpace;
    k := |s|;
    if s != [] && IsSpace(s[|s| - 1]) {
      var init := s[..|s| - 1];
      k := DropBlankEndIs(init);
      assert s[k..] == init[k..] + [s[|s| - 1]] && s[..k] == init[..k];
    }
  }

  /** Trimming takes blanks off both ends, and all of them. */
  lemma TrimIs(s: string) returns (i: nat, j: nat)
    ensures i <= j <= |s| && Trim(s) == s[i..j] && Blank(s[..i]) && Blank(s[j..])
    ensures i < j ==> !IsSpace(s[i]) && !IsSpace(s[j - 1])
  {
    i := DropBlankIs(s);
    var k := DropBlankEndIs(s[i..]);
    hide IsSpace, DropBlank, DropBlankEnd, Blank;
    j := i + k;
    assert s[i..][..k] == s[i..j] && s[i..][k..] == s[j..];
  }

  /** A text under the key that is more than blanks. */
  ghost predicate Given(input: Json, key: Key, value: string) {
    Has(input, key, Str(value)) && exists k :: 0 <= k < |value| && !IsSpace(value[k])
  }

  ghost predicate NotGiven(input: Json, key: Key) {
    forall value :: !Given(input, key, value)
  }

  /** The text under the first key that gives one. */
  ghost predicate GivenBy(input: Json, key: Key, other: Key, value: string) {
    Given(input, key, value) || (NotGiven(input, key) && Given(input, other, value))
  }

  lemma FilledIs(input: Json, key: Key)
    ensures forall value :: Filled(input, key) == Some(value) <==> Given(input, key, value)
    ensures Filled(input, key).None? <==> NotGiven(input, key)
  {
    hide IsSpace;
    forall value ensures Filled(input, key) == Some(value) <==> Given(input, key, value) {
    }
    if Filled(input, key).Some? { assert Given(input, key, Filled(input, key).value); }
  }

  lemma EitherIs(input: Json, key: Key, other: Key)
    ensures var e := Either(Filled(input, key), Filled(input, other));
      && (forall value :: e == Some(value) <==> GivenBy(input, key, other, value))
      && (e.None? <==> NotGiven(input, key) && NotGiven(input, other))
  {
    FilledIs(input, key);
    FilledIs(input, other);
    hide Filled, Given;
    if Filled(input, key).Some? { assert Given(input, key, Filled(input, key).value); }
  }

  /** An id within the limit is kept; a longer one keeps its beginning and gets the digest of all of it. */
  ghost predicate Bounds(digest: Digest, value: string, limit: int, id: string) {
    var t := Trim(value);
    if |t| <= limit then id == t else 17 <= limit && id == t[..limit - 17] + "_" + digest(t)
  }

  /** The part of an event id that names a session or turn, if the input gives one. */
  ghost predicate Names(digest: Digest, input: Json, key: Key, other: Key, prefix: string, part: string) {
    if NotGiven(input, key) && NotGiven(input, other) then part == ""
    else exists value, id :: GivenBy(input, key, other, value) && Bounds(digest, value, 64, id) && part == prefix + id + ":"
  }

  lemma PartNames(digest: Digest, input: Json, key: Key, other: Key, prefix: string)
    ensures Names(digest, input, key, other, prefix, Part(prefix, digest, Either(Filled(input, key), Filled(input, other))))
  {
    EitherIs(input, key, other);
    hide Filled, Given, NotGiven, GivenBy, Trim;
    var e := Either(Filled(input, key), Filled(input, other));
    if e.Some? { assert Bounds(digest, e.value, 64, BoundId(digest, e.value, 64)); }
  }

  /** An event id is the one the input gives, or else made of session, turn and loop counter. */
  lemma EventIdIs(digest: Digest, decimal: int -> string, input: Json, loop: int)
    ensures var id := DeriveEventId(digest, decimal, input, loop);
      && (forall value :: GivenBy(input, EventId, EventIdCamel, value) ==> Bounds(digest, value, 128, id))
      && (NotGiven(input, EventId) && NotGiven(input, EventIdCamel) ==>
            exists session, turn ::
              && Names(digest, input, SessionId, SessionIdCamel, "session:", session)
              && Names(digest, input, TurnId, TurnIdCamel, "turn:", turn)
              && Bounds(digest, session + turn + "loop:" + decimal(loop), 128, id))
  {
    EitherIs(input, EventId, EventIdCamel);
    PartNames(digest, input, SessionId, SessionIdCamel, "session:");
    PartNames(digest, input, TurnId, TurnIdCamel, "turn:");
    hide Filled, Given, NotGiven, GivenBy, Trim, Names, Either, Part;
  }

  // ---- Reading a record, field by field ----

  ghost predicate SafeAt(j: Json, key: Key, n: int, low: int, high: int) {
    Has(j, key, Int(n)) && low <= n <= high
  }

  /** What both versions demand. */
  ghost predicate ReadsCommon(j: Json, s: State) {
    && Has(j, Active, Bool(s.active)) && Has(j, Done, Bool(s.done))
    && Has(j, Goal, Str(s.goal)) && |s.goal| <= 8192 && (exists k :: 0 <= k < |s.goal| && !IsSpace(s.goal[k]))
    && SafeAt(j, MaxLoops, s.maxLoops, 1, 500)
    && SafeAt(j, DeadlineMs, s.deadline, 1, 9007199254740991) && SafeAt(j, CreatedAtMs, s.createdAt, 1, 9007199254740991)
  }

  /** A number in range, or null. */
  ghost predicate NumberOrNull(j: Json, key: Key, n: Option<int>, high: int) {
    if n.Some? then SafeAt(j, key, n.value, 0, high) else Has(j, key, Null)
  }

  /** CommonValid but for the version. */
  ghost predicate CommonFieldsOk(j: Json) {
    && BoolAt(j, Active).Some?
    && StrAt(j, Goal).Some? && !Blank(StrAt(j, Goal).value) && |StrAt(j, Goal).value| <= MAX_GOAL_LENGTH
    && Within(IntAt(j, MaxLoops), 1, MAX_PERSIST_LOOPS)
    && Within(IntAt(j, DeadlineMs), 1, MAX_SAFE_INTEGER)
    && Within(IntAt(j, CreatedAtMs), 1, MAX_SAFE_INTEGER)
    && BoolAt(j, Done).Some?
  }

  ghost predicate ReadsVersion2(j: Json, s: State) {
    && Has(j, SchemaVersion, Int(2)) && ReadsCommon(j, s) && !s.legacy
    && SafeAt(j, ConsumedLoops, s.consumed, 0, 500) && SafeAt(j, Revision, s.revision, 0, 9007199254740991)
    && NumberOrNull(j, LastHostLoopCount, s.lastHost, 500)
    && NumberOrNull(j, LastDecisionAtMs, s.lastDecisionAt, 9007199254740991)
    && Event2Fits(j, s) && Reason2Fits(j, s)
  }

  ghost predicate Event2Fits(j: Json, s: State) {
    if s.lastEvent.Some? then Has(j, LastEventId, Str(s.lastEvent.value)) && |s.lastEvent.value| <= 256
    else Has(j, LastEventId, Null)
  }

  /** Unlike the event, a missing reason passes for null. */
  ghost predicate Reason2Fits(j: Json, s: State) {
    if s.lastReason.Some? then Has(j, LastDecisionReason, Str(s.lastReason.value))
    else Has(j, LastDecisionReason, Null) || (j.Obj? && LastDecisionReason !in j.fields)
  }

  /** A counter as it stands, or a default when it is no safe integer from 0 on. */
  ghost predicate NumberOr(j: Json, key: Key, n: int, default: int) {
    SafeAt(j, key, n, 0, 9007199254740991) || (n == default && forall m :: !SafeAt(j, key, m, 0, 9007199254740991))
  }

  ghost predicate NumberOrNone(j: Json, key: Key, n: Option<int>) {
    if n.Some? then SafeAt(j, key, n.value, 0, 9007199254740991) else forall m :: !SafeAt(j, key, m, 0, 9007199254740991)
  }

  ghost predicate ReadsVersion1(j: Json, s: State) {
    && Has(j, SchemaVersion, Int(1)) && ReadsCommon(j, s) && s.legacy
    && NumberOr(j, ConsumedLoops, s.consumed, 0) && NumberOr(j, Revision, s.revision, 0)
    && NumberOrNone(j, LastHostLoopCount, s.lastHost) && NumberOrNone(j, LastDecisionAtMs, s.lastDecisionAt)
    && Event1Fits(j, s) && Reason1Fits(j, s)
  }

  /** A text is kept, cut at 256. */
  ghost predicate Event1Fits(j: Json, s: State) {
    if s.lastEvent.Some? then
      exists e :: Has(j, LastEventId, Str(e)) && s.lastEvent.value == (if |e| <= 256 then e else e[..256])
    else forall e :: !Has(j, LastEventId, Str(e))
  }

  ghost predicate Reason1Fits(j: Json, s: State) {
    if s.lastReason.Some? then Has(j, LastDecisionReason, Str(s.lastReason.value))
    else forall e :: !Has(j, LastDecisionReason, Str(e))
  }

  lemma IntAtIs(j: Json, key: Key)
    ensures forall n :: IntAt(j, key) == Some(n) <==> Has(j, key, Int(n)) && Safe(n)
    ensures IntAt(j, key).None? <==> forall n :: Has(j, key, Int(n)) ==> !Safe(n)
  {
    if IntAt(j, key).Some? { assert Has(j, key, Int(IntAt(j, key).value)); }
  }

  lemma TextsAre(j: Json, key: Key)
    ensures forall e :: StrAt(j, key) == Some(e) <==> Has(j, key, Str(e))
    ensures StrAt(j, key).None? <==> forall e :: !Has(j, key, Str(e))
    ensures forall b :: BoolAt(j, key) == Some(b) <==> Has(j, key, Bool(b))
    ensures forall value :: Get(j, key) == Some(value) <==> Has(j, key, value)
  {
    if StrAt(j, key).Some? { assert Has(j, key, Str(StrAt(j, key).value)); }
  }

  lemma CommonIs(j: Json, s: State)
    ensures ReadsCommon(j, s) <==>
      && CommonFieldsOk(j)
      && BoolAt(j, Active) == Some(s.active) && BoolAt(j, Done) == Some(s.done) && StrAt(j, Goal) == Some(s.goal)
      && IntAt(j, MaxLoops) == Some(s.maxLoops) && IntAt(j, DeadlineMs) == Some(s.deadline)
      && IntAt(j, CreatedAtMs) == Some(s.createdAt)
  {
    TextsAre(j, Active);
    TextsAre(j, Done);
    TextsAre(j, Goal);
    IntAtIs(j, MaxLoops);
    IntAtIs(j, DeadlineMs);
    IntAtIs(j, CreatedAtMs);
    hide Has, IntAt, StrAt, BoolAt, Get, IsSpace;
  }

  lemma SafeAtIs(j: Json, key: Key, n: int, low: int, high: int)
    requires 0 <= low && high <= MAX_SAFE_INTEGER
    ensures SafeAt(j, key, n, low, high) <==> Within(IntAt(j, key), low, high) && n == IntAt(j, key).value
  {
    IntAtIs(j, key);
    hide Has, IntAt;
  }

  lemma NumberOrNullIs(j: Json, key: Key, n: Option<int>, high: int)
    requires high <= MAX_SAFE_INTEGER
    ensures NumberOrNull(j, key, n, high) <==>
      NullOr(j, key, Within(IntAt(j, key), 0, high)) && n == IntAt(j, key)
  {
    if n.Some? { SafeAtIs(j, key, n.value, 0, high); }
  }

  lemma NumberOrIs(j: Json, key: Key, n: int)
    ensures NumberOr(j, key, n, 0) <==>
      n == if Within(IntAt(j, key), 0, MAX_SAFE_INTEGER) then IntAt(j, key).value else 0
  {
    forall m { SafeAtIs(j, key, m, 0, MAX_SAFE_INTEGER); }
    hide SafeAt, IntAt;
    if Within(IntAt(j, key), 0, MAX_SAFE_INTEGER) { assert SafeAt(j, key, IntAt(j, key).value, 0, 9007199254740991); }
  }

  lemma NumberOrNoneIs(j: Json, key: Key, n: Option<int>)
    ensures NumberOrNone(j, key, n) <==>
      n == if Within(IntAt(j, key), 0, MAX_SAFE_INTEGER) then IntAt(j, key) else None
  {
    forall m { SafeAtIs(j, key, m, 0, MAX_SAFE_INTEGER); }
    hide SafeAt, IntAt;
    if Within(IntAt(j, key), 0, MAX_SAFE_INTEGER) { assert SafeAt(j, key, IntAt(j, key).value, 0, 9007199254740991); }
  }

  lemma TextsFit(j: Json, s: State)
    ensures Event1Fits(j, s) <==>
      var e := StrAt(j, LastEventId);
      s.lastEvent == if e.Some? && |e.value| > MAX_EVENT_ID_LENGTH then Some(e.value[..MAX_EVENT_ID_LENGTH]) else e
    ensures Reason1Fits(j, s) <==> s.lastReason == StrAt(j, LastDecisionReason)
    ensures j.Obj? ==> (Event2Fits(j, s) <==>
      && NullOr(j, LastEventId, StrAt(j, LastEventId).Some? && |StrAt(j, LastEventId).value| <= MAX_EVENT_ID_LENGTH)
      && s.lastEvent == StrAt(j, LastEventId))
    ensures j.Obj? ==> (Reason2Fits(j, s) <==>
      && NullOr(j, LastDecisionReason, Get(j, LastDecisionReason).None? || StrAt(j, LastDecisionReason).Some?)
      && s.lastReason == StrAt(j, LastDecisionReason))
  {
    TextsAre(j, LastEventId);
    TextsAre(j, LastDecisionReason);
  }

  lemma Version2Is(j: Json, s: State)
    requires j.Obj? && Get(j, SchemaVersion) == Some(Int(2))
    ensures ReadsVersion2(j, s) <==> Normalize(j) == Some(s)
  {
    CommonIs(j, s);
    SafeAtIs(j, ConsumedLoops, s.consumed, 0, 500);
    SafeAtIs(j, Revision, s.revision, 0, MAX_SAFE_INTEGER);
    NumberOrNullIs(j, LastHostLoopCount, s.lastHost, 500);
    NumberOrNullIs(j, LastDecisionAtMs, s.lastDecisionAt, MAX_SAFE_INTEGER);
    TextsFit(j, s);
    TextsAre(j, SchemaVersion);
    hide IntAt, StrAt, BoolAt, ReadsCommon, Blank, SafeAt, NumberOrNull, Event2Fits, Reason2Fits, NullOr;
  }

  lemma Version1Is(j: Json, s: State)
    requires j.Obj? && Get(j, SchemaVersion) == Some(Int(1))
    ensures ReadsVersion1(j, s) <==> Normalize(j) == Some(s)
  {
    CommonIs(j, s);
    NumberOrIs(j, ConsumedLoops, s.consumed);
    NumberOrIs(j, Revision, s.revision);
    NumberOrNoneIs(j, LastHostLoopCount, s.lastHost);
    NumberOrNoneIs(j, LastDecisionAtMs, s.lastDecisionAt);
    TextsFit(j, s);
    TextsAre(j, SchemaVersion);
    hide IntAt, StrAt, BoolAt, ReadsCommon, Blank, NumberOr, NumberOrNone, Event1Fits, Reason1Fits;
  }

  /** A JSON value is read as a record exactly when its fields say so, by the rules of version 1 or of version 2. */
  lemma ReadsExactly(j: Json, s: State)
    ensures Normalize(j) == Some(s) <==> ReadsVersion1(j, s) || ReadsVersion2(j, s)
  {
    TextsAre(j, SchemaVersion);
    if j.Obj? && Get(j, SchemaVersion) == Some(Int(2)) { Version2Is(j, s); }
    if j.Obj? && Get(j, SchemaVersion) == Some(Int(1)) { Version1Is(j, s); }
    hide IntAt, StrAt, BoolAt, ReadsCommon, FromVersion1, FromVersion2, Version2Valid, Blank;
  }
}
