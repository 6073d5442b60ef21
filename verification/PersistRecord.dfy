/** The persisted loop record: how any JSON is read as one, and when a written one is read back. */
module PersistRecord {
  import opened Wrappers

  /** The property names that the loop reads or writes, of its record and of the hook's input. */
  datatype Key =
    | SchemaVersion | Active | Goal | MaxLoops | DeadlineMs | CreatedAtMs | Done | ConsumedLoops | LastHostLoopCount
    | Revision | LastEventId | LastDecisionAtMs | LastDecisionReason | LegacyV1
    | Status | LoopCount | EventId | EventIdCamel | SessionId | SessionIdCamel | TurnId | TurnIdCamel
    | OtherKey(name: string)

  /** A JSON value. Fraction stands for every number that is no integer; integers may be unsafe. */
  datatype Json = Null | Bool(b: bool) | Int(n: int) | Fraction | Str(s: string) | Arr | Obj(fields: map<Key, Json>)

  const MAX_SAFE_INTEGER := 9007199254740991
  const MAX_PERSIST_LOOPS := 500
  const MAX_GOAL_LENGTH := 8192
  const MAX_EVENT_ID_LENGTH := 256

  datatype State = State(
    active: bool, goal: string, maxLoops: int, consumed: int, lastHost: Option<int>, revision: int,
    deadline: int, createdAt: int, done: bool, lastEvent: Option<string>, lastDecisionAt: Option<int>,
    lastReason: Option<string>, legacy: bool)

  predicate Safe(n: int) {
    -MAX_SAFE_INTEGER <= n <= MAX_SAFE_INTEGER
  }

  /** What String.prototype.trim removes. */
  predicate IsSpace(c: char) {
    || c in "\t\n\r \U{000B}\U{000C}\U{00A0}\U{1680}\U{2028}\U{2029}\U{202F}\U{205F}\U{3000}\U{FEFF}"
    || '\U{2000}' <= c <= '\U{200A}'
  }

  predicate Blank(s: string) {
    forall k :: 0 <= k < |s| ==> IsSpace(s[k])
  }

  /** A property of an object; None where JavaScript has undefined. */
  function Get(j: Json, key: Key): Option<Json> {
    if j.Obj? && key in j.fields then Some(j.fields[key]) else None
  }

  function IntAt(j: Json, key: Key): Option<int> {
    match Get(j, key)
    case Some(Int(n)) => if Safe(n) then Some(n) else None
    case _ => None
  }

  function Within(n: Option<int>, low: int, high: int): bool {
    n.Some? && low <= n.value <= high
  }

  function StrAt(j: Json, key: Key): Option<string> {
    match Get(j, key)
    case Some(Str(s)) => Some(s)
    case _ => None
  }

  function BoolAt(j: Json, key: Key): Option<bool> {
    match Get(j, key)
    case Some(Bool(b)) => Some(b)
    case _ => None
  }

  /** The checks that both versions share. */
  predicate CommonValid(j: Json) {
    && j.Obj? && Get(j, SchemaVersion) in {Some(Int(1)), Some(Int(2))}
    && BoolAt(j, Active).Some?
    && StrAt(j, Goal).Some? && !Blank(StrAt(j, Goal).value) && |StrAt(j, Goal).value| <= MAX_GOAL_LENGTH
    && Within(IntAt(j, MaxLoops), 1, MAX_PERSIST_LOOPS)
    && Within(IntAt(j, DeadlineMs), 1, MAX_SAFE_INTEGER)
    && Within(IntAt(j, CreatedAtMs), 1, MAX_SAFE_INTEGER)
    && BoolAt(j, Done).Some?
  }

  /** Version 1 repairs what it cannot read. */
  function FromVersion1(j: Json): State
    requires CommonValid(j)
  {
    var event := StrAt(j, LastEventId);
    State(
      BoolAt(j, Active).value, StrAt(j, Goal).value, IntAt(j, MaxLoops).value,
      if Within(IntAt(j, ConsumedLoops), 0, MAX_SAFE_INTEGER) then IntAt(j, ConsumedLoops).value else 0,
      if Within(IntAt(j, LastHostLoopCount), 0, MAX_SAFE_INTEGER) then IntAt(j, LastHostLoopCount) else None,
      if Within(IntAt(j, Revision), 0, MAX_SAFE_INTEGER) then IntAt(j, Revision).value else 0,
      IntAt(j, DeadlineMs).value, IntAt(j, CreatedAtMs).value, BoolAt(j, Done).value,
      if event.Some? && |event.value| > MAX_EVENT_ID_LENGTH then Some(event.value[..MAX_EVENT_ID_LENGTH]) else event,
      if Within(IntAt(j, LastDecisionAtMs), 0, MAX_SAFE_INTEGER) then IntAt(j, LastDecisionAtMs) else None,
      StrAt(j, LastDecisionReason), true)
  }

  predicate NullOr(j: Json, key: Key, ok: bool) {
    Get(j, key) == Some(Null) || ok
  }

  /** Version 2 refuses what it cannot read. */
  predicate Version2Valid(j: Json) {
    && Within(IntAt(j, ConsumedLoops), 0, MAX_PERSIST_LOOPS)
    && NullOr(j, LastHostLoopCount, Within(IntAt(j, LastHostLoopCount), 0, MAX_PERSIST_LOOPS))
    && Within(IntAt(j, Revision), 0, MAX_SAFE_INTEGER)
    && NullOr(j, LastEventId, StrAt(j, LastEventId).Some? && |StrAt(j, LastEventId).value| <= MAX_EVENT_ID_LENGTH)
    && NullOr(j, LastDecisionAtMs, Within(IntAt(j, LastDecisionAtMs), 0, MAX_SAFE_INTEGER))
    && NullOr(j, LastDecisionReason, Get(j, LastDecisionReason).None? || StrAt(j, LastDecisionReason).Some?)
  }

  function FromVersion2(j: Json): State
    requires CommonValid(j) && Version2Valid(j)
  {
    State(
      BoolAt(j, Active).value, StrAt(j, Goal).value, IntAt(j, MaxLoops).value, IntAt(j, ConsumedLoops).value,
      IntAt(j, LastHostLoopCount), IntAt(j, Revision).value, IntAt(j, DeadlineMs).value,
      IntAt(j, CreatedAtMs).value, BoolAt(j, Done).value, StrAt(j, LastEventId), IntAt(j, LastDecisionAtMs),
      StrAt(j, LastDecisionReason), false)
  }

  function Normalize(j: Json): Option<State> {
    if !CommonValid(j) then None
    else if Get(j, SchemaVersion) == Some(Int(1)) then Some(FromVersion1(j))
    else if !Version2Valid(j) then None
    else Some(FromVersion2(j))
  }

  function IntOrNull(n: Option<int>): Json {
    if n.Some? then Int(n.value) else Null
  }

  function StrOrNull(s: Option<string>): Json {
    if s.Some? then Str(s.value) else Null
  }

  /** The record as it is written, always in version 2; the migration mark is an extra field that no reader looks at. */
  function ToJson(s: State): Json {
    var fields := map[
      SchemaVersion := Int(2), Active := Bool(s.active), Goal := Str(s.goal), MaxLoops := Int(s.maxLoops),
      ConsumedLoops := Int(s.consumed), LastHostLoopCount := IntOrNull(s.lastHost), Revision := Int(s.revision),
      DeadlineMs := Int(s.deadline), CreatedAtMs := Int(s.createdAt), Done := Bool(s.done),
      LastEventId := StrOrNull(s.lastEvent), LastDecisionAtMs := IntOrNull(s.lastDecisionAt),
      LastDecisionReason := StrOrNull(s.lastReason)];
    Obj(if s.legacy then fields[LegacyV1 := Bool(true)] else fields)
  }

  function Bounded(n: Option<int>, high: int): bool {
    n.Some? ==> 0 <= n.value <= high
  }

  /** The limits of a version 2 record. */
  predicate InLimits(s: State) {
    && !Blank(s.goal) && |s.goal| <= MAX_GOAL_LENGTH
    && 1 <= s.maxLoops <= MAX_PERSIST_LOOPS && 0 <= s.consumed <= MAX_PERSIST_LOOPS
    && Bounded(s.lastHost, MAX_PERSIST_LOOPS)
    && 0 <= s.revision <= MAX_SAFE_INTEGER && 1 <= s.deadline <= MAX_SAFE_INTEGER && 1 <= s.createdAt <= MAX_SAFE_INTEGER
    && (s.lastEvent.Some? ==> |s.lastEvent.value| <= MAX_EVENT_ID_LENGTH)
    && Bounded(s.lastDecisionAt, MAX_SAFE_INTEGER)
  }

  function SafeOnly(n: Option<int>): Option<int> {
    if n.Some? && Safe(n.value) then n else None
  }

  lemma WrittenNumbers(s: State)
    ensures var j := ToJson(s);
      && j.Obj? && Get(j, SchemaVersion) == Some(Int(2))
      && IntAt(j, MaxLoops) == SafeOnly(Some(s.maxLoops)) && IntAt(j, ConsumedLoops) == SafeOnly(Some(s.consumed))
      && IntAt(j, Revision) == SafeOnly(Some(s.revision)) && IntAt(j, DeadlineMs) == SafeOnly(Some(s.deadline))
      && IntAt(j, CreatedAtMs) == SafeOnly(Some(s.createdAt))
  {
  }

  lemma WrittenOptions(s: State)
    ensures var j := ToJson(s);
      && IntAt(j, LastHostLoopCount) == SafeOnly(s.lastHost) && (Get(j, LastHostLoopCount) == Some(Null) <==> s.lastHost.None?)
      && IntAt(j, LastDecisionAtMs) == SafeOnly(s.lastDecisionAt)
      && (Get(j, LastDecisionAtMs) == Some(Null) <==> s.lastDecisionAt.None?)
  {
  }

  lemma WrittenTexts(s: State)
    ensures var j := ToJson(s);
      && BoolAt(j, Active) == Some(s.active) && BoolAt(j, Done) == Some(s.done) && StrAt(j, Goal) == Some(s.goal)
      && StrAt(j, LastEventId) == s.lastEvent && (Get(j, LastEventId) == Some(Null) <==> s.lastEvent.None?)
      && StrAt(j, LastDecisionReason) == s.lastReason
      && (Get(j, LastDecisionReason) == Some(Null) <==> s.lastReason.None?)
  {
  }

  /** A written record is read back, unchanged but for the migration mark, exactly when it is within the limits. */
  lemma ReadBackIff(s: State)
    ensures Normalize(ToJson(s)) == if InLimits(s) then Some(s.(legacy := false)) else None
  {
    WrittenNumbers(s);
    WrittenOptions(s);
    WrittenTexts(s);
    hide ToJson, Get, IntAt, StrAt, BoolAt, Blank;
  }

  /** What reading promises of a record of either version. */
  predicate Plausible(s: State) {
    && !Blank(s.goal) && |s.goal| <= MAX_GOAL_LENGTH
    && 1 <= s.maxLoops <= MAX_PERSIST_LOOPS && 0 <= s.consumed <= MAX_SAFE_INTEGER
    && Bounded(s.lastHost, MAX_SAFE_INTEGER)
    && 0 <= s.revision <= MAX_SAFE_INTEGER && 1 <= s.deadline <= MAX_SAFE_INTEGER && 1 <= s.createdAt <= MAX_SAFE_INTEGER
    && (s.lastEvent.Some? ==> |s.lastEvent.value| <= MAX_EVENT_ID_LENGTH)
    && Bounded(s.lastDecisionAt, MAX_SAFE_INTEGER)
  }

  lemma ReadIsPlausible(j: Json)
    requires Normalize(j).Some?
    ensures Plausible(Normalize(j).value) && (!Normalize(j).value.legacy ==> InLimits(Normalize(j).value))
  {
    hide Blank;
  }
}
