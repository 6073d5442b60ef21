/** The continuation transaction and the resume over one stored workflow, and what holds over every serial run of both. */
module Continuation {
  import opened Wrappers

  datatype Status = Active | Completed | Failed | Cancelled | Blocked

  datatype WorkStatus = Pending | InProgress | Done | Dropped

  datatype Todo = Todo(completed: bool, cancelled: bool)

  datatype HandoffRef = HandoffRef(id: string, epoch: int)

  /** The stored workflow, as far as transactions and resumes look at it. A deadline that does not parse is None. */
  datatype Projection = Projection(
    runId: string, agentId: string, cursorRunId: Option<string>, profile: string,
    epoch: int, revision: int, status: Status, phase: string,
    deadline: Option<int>, maxContinuations: int, consumed: int,
    goals: seq<WorkStatus>, stories: seq<WorkStatus>, todos: seq<Todo>, handoffs: seq<HandoffRef>,
    fingerprint: Option<string>, cancelRequested: bool, verified: bool,
    lastEvent: Option<string>, consecutiveFailures: int)

  datatype Route = Rework | Replan | Specialist | HumanBlocker | TerminalFailure

  datatype Profile = Profile(
    phases: seq<string>, terminalPhases: seq<string>, transitions: seq<(string, string)>, maxFailures: int, route: Route)

  /** What went wrong in a turn: reported by the caller or the turn, or only by the hook's status. */
  datatype FailureInput = Reported(text: string) | HookFailure(status: string, output: string)

  /** The catalog of profiles and the fingerprint of a failure. */
  datatype Catalog = Catalog(profileOf: string -> Option<Profile>, derive: FailureInput -> string)

  datatype Request = Request(
    runId: string, agentId: string, cursorRunId: Option<string>, epoch: int, eventId: string, hook: string,
    observed: Option<FailureInput>, turnError: Option<FailureInput>, turnText: string, ambiguous: bool, now: int)

  datatype Reason =
    | WorkflowNotFound | MismatchedAgent | MismatchedRun | MismatchedRunId | MismatchedEpoch | DuplicateEvent
    | CancelRequested | NotActive | DeadlineExhausted | BudgetExhausted | AmbiguousSideEffect
    | RepeatedFailure(route: Route) | AllGoalsSatisfied | TerminalPhase | NoNextAction

  datatype Outcome =
    | Refused(reason: Reason)
    | Granted(slot: int, remaining: int, failure: Option<string>, directive: Option<Route>)
    | Resumed(epoch: int)
    | ResumeRefused

  // ---- Failure progress ----

  datatype Progress = Progress(consecutive: int, repeated: bool, action: Route)

  /** The verdict on a failure against the last one. */
  function EvaluateFailureProgress(profile: Profile, current: string, previous: Option<string>, consecutive: int): Progress {
    var count := if previous == Some(current) then consecutive + 1 else 1;
    if count >= profile.maxFailures then Progress(count, true, profile.route) else Progress(count, false, Rework)
  }

  /** The failure a request reports, if any. */
  function ObservedFailure(req: Request): Option<FailureInput> {
    if req.observed.Some? then req.observed
    else if req.turnError.Some? then req.turnError
    else if req.hook in {"timeout", "error", "failed"} then Some(HookFailure(req.hook, req.turnText))
    else None
  }

  function Fingerprint(catalog: Catalog, req: Request): Option<string> {
    var failure := ObservedFailure(req);
    if failure.Some? then Some(catalog.derive(failure.value)) else None
  }

  /** How a repeated failure is routed; None while it does not count as repeated. */
  function Routing(catalog: Catalog, p: Projection, req: Request): Option<Route> {
    var failure := Fingerprint(catalog, req);
    if failure.None? then None
    else
      match catalog.profileOf(p.profile)
      case None => if p.fingerprint == failure && p.consecutiveFailures >= 2 then Some(Rework) else None
      case Some(profile) =>
        var progress := EvaluateFailureProgress(profile, failure.value, p.fingerprint, p.consecutiveFailures);
        if progress.repeated then Some(progress.action) else None
  }

  // ---- Work left ----

  predicate Open(s: WorkStatus) {
    s.Pending? || s.InProgress?
  }

  predicate OpenTodo(t: Todo) {
    !t.completed && !t.cancelled
  }

  predicate OpenWork(p: Projection) {
    || (exists k :: 0 <= k < |p.goals| && Open(p.goals[k]))
    || (exists k :: 0 <= k < |p.stories| && Open(p.stories[k]))
    || (exists k :: 0 <= k < |p.todos| && OpenTodo(p.todos[k]))
  }

  /** There are goals, and they and every story and todo are done. */
  predicate AllDone(p: Projection) {
    && p.goals != [] && (forall k :: 0 <= k < |p.goals| ==> p.goals[k].Done?)
    && (forall k :: 0 <= k < |p.stories| ==> p.stories[k].Done?)
    && (forall k :: 0 <= k < |p.todos| ==> !OpenTodo(p.todos[k]))
  }

  const ITERATIVE_PHASES := {"loop", "momentum_loop", "ulw_work_loop", "parallel_work", "test", "fix", "execute", "implement"}

  predicate NextPhaseAvailable(profile: Profile, phase: string) {
    exists k :: 0 <= k < |profile.transitions| &&
      profile.transitions[k].0 == phase && profile.transitions[k].1 !in profile.terminalPhases
  }

  predicate NoWayOn(catalog: Catalog, p: Projection) {
    && !OpenWork(p)
    && (p.goals != [] || p.stories != [] || p.todos != []
        || (p.phase !in ITERATIVE_PHASES
            && (catalog.profileOf(p.profile).Some? ==> !NextPhaseAvailable(catalog.profileOf(p.profile).value, p.phase))))
  }

  // ---- The specification: the first ground for refusal, and what each answer does to the workflow ----

  predicate Stops(route: Option<Route>) {
    route == Some(TerminalFailure) || route == Some(HumanBlocker)
  }

  /** The request is not for this workflow as it now runs, or was granted last. */
  function Mismatch(p: Projection, req: Request): Option<Reason> {
    if p.agentId != req.agentId then Some(MismatchedAgent)
    else if Named(p.cursorRunId) && Named(req.cursorRunId) && p.cursorRunId != req.cursorRunId then Some(MismatchedRun)
    else if p.runId != req.runId then Some(MismatchedRunId)
    else if p.epoch != req.epoch then Some(MismatchedEpoch)
    else if p.lastEvent == Some(req.eventId) then Some(DuplicateEvent)
    else None
  }

  /** The ground on which a request is refused; None when it is granted. */
  function Ground(catalog: Catalog, p: Projection, req: Request): Option<Reason> {
    if Mismatch(p, req).Some? then Mismatch(p, req)
    else if p.cancelRequested || req.hook in {"cancelled", "abort"} then Some(CancelRequested)
    else if p.status != Active then Some(NotActive)
    else if p.deadline.Some? && req.now >= p.deadline.value then Some(DeadlineExhausted)
    else if p.consumed >= p.maxContinuations then Some(BudgetExhausted)
    else if req.ambiguous || req.hook == "ambiguous" then Some(AmbiguousSideEffect)
    else if Stops(Routing(catalog, p, req)) then Some(RepeatedFailure(Routing(catalog, p, req).value))
    else if AllDone(p) then Some(AllGoalsSatisfied)
    else if catalog.profileOf(p.profile).Some? && p.phase in catalog.profileOf(p.profile).value.terminalPhases then
      Some(TerminalPhase)
    else if NoWayOn(catalog, p) then Some(NoNextAction)
    else None
  }

  /** A run id that is neither missing nor empty. */
  predicate Named(id: Option<string>) {
    id.Some? && id.value != ""
  }

  function Marked(p: Projection, status: Status): Projection {
    p.(status := status, revision := p.revision + 1)
  }

  /** The workflow after a refusal. */
  function AfterRefusal(catalog: Catalog, p: Projection, req: Request, reason: Reason): Projection {
    match reason
    case CancelRequested => Marked(p, Cancelled)
    case DeadlineExhausted => Marked(p, Failed)
    case BudgetExhausted => Marked(p, Failed)
    case AmbiguousSideEffect => Marked(p, Blocked)
    case RepeatedFailure(route) =>
      Marked(p, if route == TerminalFailure then Failed else Blocked).(fingerprint := Fingerprint(catalog, req))
    case AllGoalsSatisfied =>
      var terminal := catalog.profileOf(p.profile).Some? && "completed" in catalog.profileOf(p.profile).value.terminalPhases;
      Marked(p, Completed).(phase := if terminal then "completed" else p.phase, verified := false)
    case _ => p
  }

  /** The workflow after a grant: one slot consumed, and the event and the failure remembered. */
  function AfterGrant(catalog: Catalog, p: Projection, req: Request): Projection {
    var failure := Fingerprint(catalog, req);
    var replans := Routing(catalog, p, req) == Some(Replan) && catalog.profileOf(p.profile).Some?
      && "plan" in catalog.profileOf(p.profile).value.phases;
    p.(revision := p.revision + 1, phase := if replans then "plan" else p.phase, consumed := p.consumed + 1,
       fingerprint := if failure.Some? then failure else p.fingerprint, lastEvent := Some(req.eventId),
       consecutiveFailures :=
         if failure.None? then 0 else if failure == p.fingerprint then p.consecutiveFailures + 1 else 1)
  }

  function Transacted(catalog: Catalog, p: Projection, req: Request): (Projection, Outcome) {
    match Ground(catalog, p, req)
    case Some(reason) => (AfterRefusal(catalog, p, req, reason), Refused(reason))
    case None =>
      (AfterGrant(catalog, p, req),
       Granted(p.consumed + 1, if p.maxContinuations > p.consumed + 1 then p.maxContinuations - (p.consumed + 1) else 0,
               Fingerprint(catalog, req), Routing(catalog, p, req)))
  }

  /** A handoff artifact as loaded; whole tells whether its checksum matches. */
  datatype Handoff = Handoff(id: string, runId: string, agentId: string, epoch: int, whole: bool)

  /** A resume: the handoffs on disk, the one asked for if any, and whether the native agent resumes. */
  datatype ResumeRequest = ResumeRequest(
    agentId: string, handoffId: Option<string>, artifacts: map<string, Handoff>, agentResumes: bool)

  /** The handoff to check: the one asked for, which must exist, or the latest one recorded, which need not. */
  function HandoffFor(p: Projection, req: ResumeRequest): Result<Option<Handoff>, ()> {
    if req.handoffId.Some? && req.handoffId.value != "" then
      if req.handoffId.value in req.artifacts then Ok(Some(req.artifacts[req.handoffId.value])) else Err(())
    else if p.handoffs != [] && p.handoffs[|p.handoffs| - 1].id in req.artifacts then
      Ok(Some(req.artifacts[p.handoffs[|p.handoffs| - 1].id]))
    else Ok(None)
  }

  predicate HandoffFits(p: Projection, h: Option<Handoff>) {
    h.Some? ==> h.value.runId == p.runId && h.value.agentId == p.agentId && h.value.whole
  }

  predicate MayResume(p: Projection, req: ResumeRequest) {
    && p.status != Cancelled && p.agentId == req.agentId
    && HandoffFor(p, req).Ok? && HandoffFits(p, HandoffFor(p, req).value)
    && req.agentResumes
  }

  function AfterResume(p: Projection, req: ResumeRequest): Projection
    requires MayResume(p, req)
  {
    var h := HandoffFor(p, req).value;
    var recorded := h.Some? && exists k :: 0 <= k < |p.handoffs| && p.handoffs[k].id == h.value.id;
    p.(epoch := p.epoch + 1, revision := p.revision + 1, status := Active,
       handoffs := if h.Some? && !recorded then p.handoffs + [HandoffRef(h.value.id, h.value.epoch)] else p.handoffs)
  }

  function ResumedFrom(p: Projection, req: ResumeRequest): (Projection, Outcome) {
    if MayResume(p, req) then (AfterResume(p, req), Resumed(p.epoch + 1)) else (p, ResumeRefused)
  }

  // ---- Runs ----

  datatype Event = Turn(req: Request) | Resume(resume: ResumeRequest)

  function Happen(catalog: Catalog, p: Projection, e: Event): (Projection, Outcome) {
    match e
    case Turn(req) => Transacted(catalog, p, req)
    case Resume(req) => ResumedFrom(p, req)
  }

  /** The workflow after a run, and the answers given. */
  function Run(catalog: Catalog, p: Projection, events: seq<Event>): (Projection, seq<Outcome>)
    ensures |Run(catalog, p, events).1| == |events|
  {
    if events == [] then (p, [])
    else
      var (q, outcomes) := Run(catalog, p, events[..|events| - 1]);
      var (r, outcome) := Happen(catalog, q, events[|events| - 1]);
      (r, outcomes + [outcome])
  }

  function Grants(outcomes: seq<Outcome>): nat {
    if outcomes == [] then 0
    else Grants(outcomes[..|outcomes| - 1]) + if outcomes[|outcomes| - 1].Granted? then 1 else 0
  }

  function Resumes(outcomes: seq<Outcome>): nat {
    if outcomes == [] then 0
    else Resumes(outcomes[..|outcomes| - 1]) + if outcomes[|outcomes| - 1].Resumed? then 1 else 0
  }

  /** What no transaction or resume ever changes. */
  predicate SameWorkflow(p: Projection, q: Projection) {
    && q.runId == p.runId && q.agentId == p.agentId && q.profile == p.profile && (q.verified ==> p.verified)
    && q.maxContinuations == p.maxContinuations
  }

  /** A refusal consumes nothing, moves no epoch, and does not forget the last granted event or a cancellation. */
  lemma RefusalKeeps(catalog: Catalog, p: Projection, req: Request, reason: Reason)
    ensures var q := AfterRefusal(catalog, p, req, reason);
      && SameWorkflow(p, q) && q.consumed == p.consumed && q.epoch == p.epoch && q.lastEvent == p.lastEvent
      && q.consecutiveFailures == p.consecutiveFailures
      && (p.status == Cancelled && Ground(catalog, p, req) == Some(reason) ==> q.status == Cancelled)
  {
    hide Routing, Fingerprint, AllDone, NoWayOn, Named;
  }

  lemma GrantKeeps(catalog: Catalog, p: Projection, req: Request)
    requires Ground(catalog, p, req).None?
    ensures var q := AfterGrant(catalog, p, req);
      && SameWorkflow(p, q) && q.consumed == p.consumed + 1 <= p.maxContinuations && q.epoch == p.epoch
      && p.status == q.status == Active
  {
    hide Routing, Fingerprint, AllDone, NoWayOn, Named;
  }

  /** What a single transaction or resume does to the budget, the epoch and the status. */
  lemma HappenKeeps(catalog: Catalog, p: Projection, e: Event)
    ensures var (q, outcome) := Happen(catalog, p, e);
      && SameWorkflow(p, q)
      && (if outcome.Granted? then q.consumed == p.consumed + 1 <= p.maxContinuations else q.consumed == p.consumed)
      && q.epoch == p.epoch + (if outcome.Resumed? then 1 else 0)
      && (p.status == Cancelled ==> q.status == Cancelled && !outcome.Granted? && !outcome.Resumed?)
      && (!outcome.Granted? ==> q.lastEvent == p.lastEvent)
  {
    match e
    case Turn(req) =>
      var ground := Ground(catalog, p, req);
      if ground.Some? { RefusalKeeps(catalog, p, req, ground.value); } else { GrantKeeps(catalog, p, req); }
      hide Ground, AfterRefusal, AfterGrant, SameWorkflow;
    case Resume(req) =>
      hide HandoffFor, HandoffFits;
  }

  /** Over every run each grant takes one slot of the budget, and there are never more grants than slots were left. */
  lemma {:induction false} GrantsWithinBudget(catalog: Catalog, p: Projection, events: seq<Event>)
    ensures var (q, outcomes) := Run(catalog, p, events);
      && q.consumed == p.consumed + Grants(outcomes) && q.maxContinuations == p.maxContinuations
      && Grants(outcomes) <= if p.maxContinuations > p.consumed then p.maxContinuations - p.consumed else 0
  {
    if events == [] {
    } else {
      GrantsWithinBudget(catalog, p, events[..|events| - 1]);
      HappenKeeps(catalog, Run(catalog, p, events[..|events| - 1]).0, events[|events| - 1]);
      hide Happen;
    }
  }

  /** Only a resume changes the epoch, by one. */
  lemma {:induction false} EpochCountsResumes(catalog: Catalog, p: Projection, events: seq<Event>)
    ensures var (q, outcomes) := Run(catalog, p, events); q.epoch == p.epoch + Resumes(outcomes)
  {
    if events == [] {
    } else {
      EpochCountsResumes(catalog, p, events[..|events| - 1]);
      HappenKeeps(catalog, Run(catalog, p, events[..|events| - 1]).0, events[|events| - 1]);
      hide Happen;
    }
  }

  /** A request that carries another epoch than the workflow's is refused and changes nothing. */
  lemma StaleEpochChangesNothing(catalog: Catalog, p: Projection, req: Request)
    requires req.epoch != p.epoch
    ensures Transacted(catalog, p, req).0 == p && Transacted(catalog, p, req).1.Refused?
  {
  }

  /** After a resume, whatever else happens, no request of an earlier epoch is granted or changes anything. */
  lemma EarlierEpochsAreStale(catalog: Catalog, p: Projection, events: seq<Event>, resume: ResumeRequest, req: Request)
    requires MayResume(p, resume) && req.epoch <= p.epoch
    ensures var q := Run(catalog, AfterResume(p, resume), events).0;
      Transacted(catalog, q, req).0 == q && Transacted(catalog, q, req).1.Refused?
  {
    EpochCountsResumes(catalog, AfterResume(p, resume), events);
    StaleEpochChangesNothing(catalog, Run(catalog, AfterResume(p, resume), events).0, req);
  }

  /** Once cancelled, a workflow stays cancelled, and nothing is granted or resumed any more. */
  lemma {:induction false} CancelledIsFinal(catalog: Catalog, p: Projection, events: seq<Event>)
    requires p.status == Cancelled
    ensures var (q, outcomes) := Run(catalog, p, events);
      q.status == Cancelled && Grants(outcomes) == 0 && Resumes(outcomes) == 0
  {
    if events == [] {
    } else {
      CancelledIsFinal(catalog, p, events[..|events| - 1]);
      HappenKeeps(catalog, Run(catalog, p, events[..|events| - 1]).0, events[|events| - 1]);
      hide Happen;
    }
  }

  /** Neither transactions nor resumes ever set the verified mark, and the identity of the workflow never changes. */
  lemma {:induction false} VerifiedNeverRises(catalog: Catalog, p: Projection, events: seq<Event>)
    ensures var q := Run(catalog, p, events).0;
      (q.verified ==> p.verified) && q.runId == p.runId && q.agentId == p.agentId && q.profile == p.profile
  {
    if events == [] {
    } else {
      VerifiedNeverRises(catalog, p, events[..|events| - 1]);
      HappenKeeps(catalog, Run(catalog, p, events[..|events| - 1]).0, events[|events| - 1]);
      hide Happen;
    }
  }

  /** The grants in a row, counted from the last one back, that went to turns failing with this fingerprint. */
  function Streak(outcomes: seq<Outcome>, fingerprint: string): nat {
    if outcomes == [] then 0
    else
      var last, rest := outcomes[|outcomes| - 1], outcomes[..|outcomes| - 1];
      if !last.Granted? then Streak(rest, fingerprint)
      else if last.failure == Some(fingerprint) then Streak(rest, fingerprint) + 1
      else 0
  }

  ghost predicate StreakBounded(profile: Profile, q: Projection, streak: nat, fingerprint: string) {
    streak > 0 ==> q.fingerprint == Some(fingerprint) && streak <= q.consecutiveFailures < profile.maxFailures
  }

  lemma StreakStep(
    catalog: Catalog, profile: Profile, q: Projection, e: Event, streak: nat, fingerprint: string)
    requires catalog.profileOf(q.profile) == Some(profile) && profile.route in {TerminalFailure, HumanBlocker}
    requires q.consecutiveFailures >= 0 && StreakBounded(profile, q, streak, fingerprint)
    ensures var (r, outcome) := Happen(catalog, q, e);
      && r.consecutiveFailures >= 0
      && StreakBounded(profile, r,
           if !outcome.Granted? then streak else if outcome.failure == Some(fingerprint) then streak + 1 else 0, fingerprint)
  {
  }

  lemma {:induction false} StreakStays(catalog: Catalog, profile: Profile, p: Projection, events: seq<Event>, fingerprint: string)
    requires catalog.profileOf(p.profile) == Some(profile) && profile.route in {TerminalFailure, HumanBlocker}
    requires p.consecutiveFailures >= 0
    ensures var (q, outcomes) := Run(catalog, p, events);
      q.consecutiveFailures >= 0 && StreakBounded(profile, q, Streak(outcomes, fingerprint), fingerprint)
  {
    if events == [] {
    } else {
      var init := events[..|events| - 1];
      StreakStays(catalog, profile, p, init, fingerprint);
      VerifiedNeverRises(catalog, p, init);
      var (q, outcomes) := Run(catalog, p, init);
      StreakStep(catalog, profile, q, events[|events| - 1], Streak(outcomes, fingerprint), fingerprint);
      hide Happen;
      assert Run(catalog, p, events).1[..|outcomes|] == outcomes;
    }
  }

  /**
   * Under a profile that stops on repeated failure, over every run of transactions and resumes, fewer than maxFailures
   * grants in a row go to turns that fail with the same fingerprint; with a limit of one or less, none does.
   */
  lemma RepeatedFailureStops(catalog: Catalog, profile: Profile, p: Projection, events: seq<Event>, fingerprint: string)
    requires catalog.profileOf(p.profile) == Some(profile) && profile.route in {TerminalFailure, HumanBlocker}
    requires p.consecutiveFailures >= 0
    ensures var streak := Streak(Run(catalog, p, events).1, fingerprint); streak == 0 || streak < profile.maxFailures
  {
    StreakStays(catalog, profile, p, events, fingerprint);
  }

  /** A granted event that is delivered again is refused and changes nothing, as long as no other was granted in between. */
  lemma {:induction false} RepeatedDeliveryRefused(catalog: Catalog, p: Projection, req: Request, events: seq<Event>, again: Request)
    requires Transacted(catalog, p, req).1.Granted? && again.eventId == req.eventId
    requires Grants(Run(catalog, Transacted(catalog, p, req).0, events).1) == 0
    ensures var q := Run(catalog, Transacted(catalog, p, req).0, events).0;
      Transacted(catalog, q, again).0 == q && Transacted(catalog, q, again).1.Refused?
  {
    LastEventStays(catalog, Transacted(catalog, p, req).0, events);
  }

  lemma {:induction false} LastEventStays(catalog: Catalog, p: Projection, events: seq<Event>)
    requires Grants(Run(catalog, p, events).1) == 0
    ensures Run(catalog, p, events).0.lastEvent == p.lastEvent
  {
    if events == [] {
    } else {
      var init := events[..|events| - 1];
      assert Run(catalog, p, events).1[..|init|] == Run(catalog, p, init).1;
      LastEventStays(catalog, p, init);
      HappenKeeps(catalog, Run(catalog, p, init).0, events[|events| - 1]);
      hide Happen;
    }
  }

  // ---- The operations on the store ----

  class WorkflowProjectionStore {
    // the one file of the run id, locked by every transaction
    var stored: Option<Projection>
    const catalog: Catalog

    method Save(p: Projection)
      modifies this
      ensures stored == Some(p)
    {
      stored := Some(p);
    }

    /** Identity, epoch and idempotency, in that order. */
    method CheckIdentity(current: Projection, req: Request) returns (mismatch: Option<Reason>)
      ensures mismatch == Mismatch(current, req)
    {
      if current.agentId != req.agentId { return Some(MismatchedAgent); }
      if Named(current.cursorRunId) && Named(req.cursorRunId) && current.cursorRunId != req.cursorRunId {
        return Some(MismatchedRun);
      }
      if current.runId != req.runId { return Some(MismatchedRunId); }
      if current.epoch != req.epoch { return Some(MismatchedEpoch); }
      if current.lastEvent == Some(req.eventId) { return Some(DuplicateEvent); }
      return None;
    }

    lemma MismatchChangesNothing(current: Projection, req: Request)
      requires Mismatch(current, req).Some?
      ensures Transacted(catalog, current, req) == (current, Refused(Mismatch(current, req).value))
    {
    }

    /** The failure a turn reports and how it is routed, judged against the last one. */
    method ObserveFailure(current: Projection, req: Request) returns (failure: Option<string>, directive: Option<Route>)
      ensures failure == Fingerprint(catalog, req) && directive == Routing(catalog, current, req)
    {
      failure, directive := None, None;
      var observed := req.observed;
      if observed.None? && req.turnError.Some? {
        observed := req.turnError;
      } else if observed.None? && (req.hook == "timeout" || req.hook == "error" || req.hook == "failed") {
        observed := Some(HookFailure(req.hook, req.turnText));
      }
      if observed.Some? {
        failure := Some(catalog.derive(observed.value));
        var profile := catalog.profileOf(current.profile);
        var progress :=
          if profile.Some? then
            EvaluateFailureProgress(profile.value, failure.value, current.fingerprint, current.consecutiveFailures)
          else
            Progress(current.consecutiveFailures + 1, failure == current.fingerprint && current.consecutiveFailures >= 2, Rework);
        if progress.repeated { directive := Some(progress.action); }
      }
    }

    /** Nothing is left to be done, and no phase to go to. */
    method StuckNow(current: Projection) returns (stuck: bool)
      ensures stuck <==> NoWayOn(catalog, current)
    {
      var profile := catalog.profileOf(current.profile);
      var openWork := OpenWork(current);
      var entities := current.goals != [] || current.stories != [] || current.todos != [];
      if entities && !openWork { return true; }
      var onward := profile.Some? && NextPhaseAvailable(profile.value, current.phase);
      stuck := !openWork && !onward && current.phase !in ITERATIVE_PHASES;
    }

    /** Take one slot of the budget, and remember the event and the failure. */
    method Consume(current: Projection, req: Request, failure: Option<string>, directive: Option<Route>) returns (r: Outcome)
      requires failure == Fingerprint(catalog, req) && directive == Routing(catalog, current, req)
      modifies this
      ensures stored == Some(AfterGrant(catalog, current, req))
      ensures r.Granted? && r.slot == current.consumed + 1 && r.failure == failure && r.directive == directive
      ensures r.remaining == if current.maxContinuations > r.slot then current.maxContinuations - r.slot else 0
    {
      hide Fingerprint, Routing;
      var profile := catalog.profileOf(current.profile);
      var slot := current.consumed + 1;
      var remaining := if current.maxContinuations - slot > 0 then current.maxContinuations - slot else 0;
      var phase := current.phase;
      if directive == Some(Replan) && profile.Some? && "plan" in profile.value.phases { phase := "plan"; }
      var consecutive := 0;
      if failure.Some? {
        consecutive := if failure == current.fingerprint then current.consecutiveFailures + 1 else 1;
      }
      Save(current.(revision := current.revision + 1, phase := phase, consumed := slot,
                    fingerprint := if failure.Some? then failure else current.fingerprint,
                    lastEvent := Some(req.eventId), consecutiveFailures := consecutive));
      return Granted(slot, remaining, failure, directive);
    }

    /** Whether a stop hook's turn may go on. */
    method ExecuteContinuationTransaction(req: Request) returns (r: Outcome)
      modifies this
      ensures old(stored).None? ==> stored == None && r == Refused(WorkflowNotFound)
      ensures old(stored).Some? ==>
        && stored == Some(Transacted(catalog, old(stored).value, req).0)
        && r == Transacted(catalog, old(stored).value, req).1
    {
      hide Fingerprint, Routing, AllDone, NoWayOn, AfterGrant, Mismatch;
      if stored.None? { return Refused(WorkflowNotFound); }
      var current := stored.value;
      var mismatch := CheckIdentity(current, req);
      if mismatch.Some? {
        MismatchChangesNothing(current, req);
        return Refused(mismatch.value);
      }
      if current.cancelRequested || req.hook == "cancelled" || req.hook == "abort" {
        Save(Marked(current, Cancelled));
        return Refused(CancelRequested);
      }
      if current.status != Active { return Refused(NotActive); }
      if current.deadline.Some? && req.now >= current.deadline.value {
        Save(Marked(current, Failed));
        return Refused(DeadlineExhausted);
      }
      var consumed := current.consumed;
      if consumed >= current.maxContinuations {
        Save(Marked(current, Failed));
        return Refused(BudgetExhausted);
      }
      if req.ambiguous || req.hook == "ambiguous" {
        Save(Marked(current, Blocked));
        return Refused(AmbiguousSideEffect);
      }

      var failure, directive := ObserveFailure(current, req);
      if directive == Some(TerminalFailure) {
        Save(Marked(current, Failed).(fingerprint := failure));
        return Refused(RepeatedFailure(TerminalFailure));
      }
      if directive == Some(HumanBlocker) {
        Save(Marked(current, Blocked).(fingerprint := failure));
        return Refused(RepeatedFailure(HumanBlocker));
      }

      var profile := catalog.profileOf(current.profile);
      if AllDone(current) {
        var terminal := profile.Some? && "completed" in profile.value.terminalPhases;
        Save(Marked(current, Completed).(phase := if terminal then "completed" else current.phase, verified := false));
        return Refused(AllGoalsSatisfied);
      }
      if profile.Some? && current.phase in profile.value.terminalPhases { return Refused(TerminalPhase); }
      var lost := StuckNow(current);
      if lost { return Refused(NoNextAction); }
      r := Consume(current, req, failure, directive);
    }

    /** Take the workflow up again in a new process, under the next epoch. */
    method ResumeWorkflowFromHandoff(req: ResumeRequest) returns (r: Outcome)
      modifies this
      ensures old(stored).None? ==> stored == None && r == ResumeRefused
      ensures old(stored).Some? ==>
        && stored == Some(ResumedFrom(old(stored).value, req).0)
        && r == ResumedFrom(old(stored).value, req).1
    {
      if stored.None? { return ResumeRefused; }
      var projection := stored.value;
      if projection.status == Cancelled { return ResumeRefused; }
      if projection.agentId != req.agentId { return ResumeRefused; }
      var handoff: Option<Handoff> := None;
      if req.handoffId.Some? && req.handoffId.value != "" {
        if req.handoffId.value !in req.artifacts { return ResumeRefused; }
        handoff := Some(req.artifacts[req.handoffId.value]);
      } else if projection.handoffs != [] {
        var latest := projection.handoffs[|projection.handoffs| - 1];
        if latest.id in req.artifacts { handoff := Some(req.artifacts[latest.id]); }
      }
      var handoffs := projection.handoffs;
      if handoff.Some? {
        var h := handoff.value;
        if h.runId != projection.runId || h.agentId != projection.agentId { return ResumeRefused; }
        if !h.whole { return ResumeRefused; }
        if forall k :: 0 <= k < |projection.handoffs| ==> projection.handoffs[k].id != h.id {
          handoffs := handoffs + [HandoffRef(h.id, h.epoch)];
        }
      }
      if !req.agentResumes { return ResumeRefused; }
      var next := projection.epoch + 1;
      Save(projection.(epoch := next, revision := projection.revision + 1, status := Active, handoffs := handoffs));
      return Resumed(next);
    }
  }
}
