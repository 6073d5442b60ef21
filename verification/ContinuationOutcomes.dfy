/** When a continuation is granted, on which ground each refusal is given and what it stores, and when a resume succeeds. */
module ContinuationOutcomes {
  import opened Continuation
  import opened Wrappers

  // ---- The guards, on the fields of workflow and request ----

  /** The request names this workflow, its agent, its run and its epoch; a run id that is missing or empty fits any. */
  ghost predicate Addressed(p: Projection, req: Request) {
    && p.agentId == req.agentId && p.runId == req.runId && p.epoch == req.epoch
    && SameCursor(p, req)
  }

  ghost predicate SameCursor(p: Projection, req: Request) {
    || p.cursorRunId in {None, Some("")} || req.cursorRunId in {None, Some("")} || p.cursorRunId == req.cursorRunId
  }

  /** Addressed, and not the event granted last. */
  ghost predicate Current(p: Projection, req: Request) {
    Addressed(p, req) && p.lastEvent != Some(req.eventId)
  }

  ghost predicate CancelAsked(p: Projection, req: Request) {
    p.cancelRequested || req.hook == "cancelled" || req.hook == "abort"
  }

  ghost predicate InTime(p: Projection, req: Request) {
    p.deadline.None? || req.now < p.deadline.value
  }

  ghost predicate Doubtful(req: Request) {
    req.ambiguous || req.hook == "ambiguous"
  }

  /** The turn failed, with this fingerprint: what the caller observed, or else the turn's error, or else the hook. */
  ghost predicate FailsWith(catalog: Catalog, req: Request, f: string) {
    || (req.observed.Some? && f == catalog.derive(req.observed.value))
    || (req.observed.None? && req.turnError.Some? && f == catalog.derive(req.turnError.value))
    || (&& req.observed.None? && req.turnError.None? && (req.hook == "timeout" || req.hook == "error" || req.hook == "failed")
        && f == catalog.derive(HookFailure(req.hook, req.turnText)))
  }

  ghost predicate FailsAgain(catalog: Catalog, p: Projection, req: Request) {
    p.fingerprint.Some? && FailsWith(catalog, req, p.fingerprint.value)
  }

  ghost predicate Fails(catalog: Catalog, req: Request) {
    exists f :: FailsWith(catalog, req, f)
  }

  /** The turn fails, and at least as often in a row as the profile bears. */
  ghost predicate WornOut(catalog: Catalog, p: Projection, req: Request, profile: Profile) {
    && catalog.profileOf(p.profile) == Some(profile) && Fails(catalog, req)
    && profile.maxFailures <= if FailsAgain(catalog, p, req) then p.consecutiveFailures + 1 else 1
  }

  /** Repeated failure is routed to a human or to the end. */
  ghost predicate StoppedBy(catalog: Catalog, p: Projection, req: Request, route: Route) {
    && (route == TerminalFailure || route == HumanBlocker)
    && exists profile :: WornOut(catalog, p, req, profile) && profile.route == route
  }

  ghost predicate Finished(p: Projection) {
    && p.goals != [] && (forall g :: g in p.goals ==> g == Done) && (forall s :: s in p.stories ==> s == Done)
    && forall t :: t in p.todos ==> t.completed || t.cancelled
  }

  ghost predicate WorkLeft(p: Projection) {
    || (exists g :: g in p.goals && (g == Pending || g == InProgress))
    || (exists s :: s in p.stories && (s == Pending || s == InProgress))
    || (exists t :: t in p.todos && !t.completed && !t.cancelled)
  }

  ghost predicate AtTerminalPhase(catalog: Catalog, p: Projection) {
    catalog.profileOf(p.profile).Some? && p.phase in catalog.profileOf(p.profile).value.terminalPhases
  }

  /** Work is left, or, where no work is recorded at all, the phase iterates or another one that is not terminal follows it. */
  ghost predicate WayOn(catalog: Catalog, p: Projection) {
    || WorkLeft(p)
    || (&& p.goals == [] && p.stories == [] && p.todos == []
        && (|| p.phase in {"loop", "momentum_loop", "ulw_work_loop", "parallel_work", "test", "fix", "execute", "implement"}
            || (&& catalog.profileOf(p.profile).Some?
                && exists to :: (p.phase, to) in catalog.profileOf(p.profile).value.transitions
                     && to !in catalog.profileOf(p.profile).value.terminalPhases)))
  }

  /** Everything that can end the workflow for good or for now is out of the way, up to the failure. */
  ghost predicate MayRun(p: Projection, req: Request) {
    Current(p, req) && !CancelAsked(p, req) && p.status == Active && InTime(p, req)
  }

  ghost predicate MayTakeSlot(p: Projection, req: Request) {
    MayRun(p, req) && p.consumed < p.maxContinuations && !Doubtful(req)
  }

  ghost predicate Stopped(catalog: Catalog, p: Projection, req: Request) {
    StoppedBy(catalog, p, req, TerminalFailure) || StoppedBy(catalog, p, req, HumanBlocker)
  }

  // ---- The guards are those of the operation ----

  lemma MismatchIff(p: Projection, req: Request)
    ensures Mismatch(p, req).None? <==> Current(p, req)
    ensures Mismatch(p, req) == Some(MismatchedAgent) <==> p.agentId != req.agentId
    ensures Mismatch(p, req) == Some(MismatchedRun) <==> p.agentId == req.agentId && !SameCursor(p, req)
    ensures Mismatch(p, req) == Some(MismatchedRunId) <==>
      p.agentId == req.agentId && SameCursor(p, req) && p.runId != req.runId
    ensures Mismatch(p, req) == Some(MismatchedEpoch) <==>
      p.agentId == req.agentId && SameCursor(p, req) && p.runId == req.runId && p.epoch != req.epoch
    ensures Mismatch(p, req) == Some(DuplicateEvent) <==> Addressed(p, req) && p.lastEvent == Some(req.eventId)
    ensures Mismatch(p, req).Some? ==>
      Mismatch(p, req).value in {MismatchedAgent, MismatchedRun, MismatchedRunId, MismatchedEpoch, DuplicateEvent}
  {
  }

  lemma FailureIff(catalog: Catalog, req: Request)
    ensures Fingerprint(catalog, req).Some? ==> FailsWith(catalog, req, Fingerprint(catalog, req).value)
    ensures forall f :: FailsWith(catalog, req, f) ==> Fingerprint(catalog, req) == Some(f)
    ensures Fingerprint(catalog, req).Some? <==> Fails(catalog, req)
  {
  }

  lemma RoutingIff(catalog: Catalog, p: Projection, req: Request)
    ensures catalog.profileOf(p.profile).Some? ==>
      var profile := catalog.profileOf(p.profile).value;
      Routing(catalog, p, req) == if WornOut(catalog, p, req, profile) then Some(profile.route) else None
    ensures catalog.profileOf(p.profile).None? ==>
      Routing(catalog, p, req) ==
        if FailsAgain(catalog, p, req) && p.consecutiveFailures >= 2 then Some(Rework) else None
  {
    FailureIff(catalog, req);
    hide Fingerprint, FailsWith;
  }

  lemma StoppedIff(catalog: Catalog, p: Projection, req: Request, route: Route)
    requires route == TerminalFailure || route == HumanBlocker
    ensures Routing(catalog, p, req) == Some(route) <==> StoppedBy(catalog, p, req, route)
    ensures Stops(Routing(catalog, p, req)) <==> Stopped(catalog, p, req)
  {
    RoutingIff(catalog, p, req);
    hide Routing, Fails, FailsAgain;
    if catalog.profileOf(p.profile).Some? && WornOut(catalog, p, req, catalog.profileOf(p.profile).value) {
      assert exists profile :: WornOut(catalog, p, req, profile);
    }
  }

  lemma FinishedIff(p: Projection)
    ensures AllDone(p) <==> Finished(p)
  {
    forall k | 0 <= k < |p.goals| ensures p.goals[k] in p.goals {}
    forall k | 0 <= k < |p.stories| ensures p.stories[k] in p.stories {}
    forall k | 0 <= k < |p.todos| ensures p.todos[k] in p.todos {}
  }

  lemma WorkLeftIff(p: Projection)
    ensures OpenWork(p) <==> WorkLeft(p)
  {
    forall k | 0 <= k < |p.goals| ensures p.goals[k] in p.goals {}
    forall k | 0 <= k < |p.stories| ensures p.stories[k] in p.stories {}
    forall k | 0 <= k < |p.todos| ensures p.todos[k] in p.todos {}
  }

  lemma NextPhaseIff(profile: Profile, phase: string)
    ensures NextPhaseAvailable(profile, phase) <==>
      exists to :: (phase, to) in profile.transitions && to !in profile.terminalPhases
  {
    if NextPhaseAvailable(profile, phase) {
      var k :| && 0 <= k < |profile.transitions|
               && profile.transitions[k].0 == phase && profile.transitions[k].1 !in profile.terminalPhases;
      assert (phase, profile.transitions[k].1) == profile.transitions[k];
    }
  }

  lemma WayOnIff(catalog: Catalog, p: Projection)
    ensures NoWayOn(catalog, p) <==> !WayOn(catalog, p)
  {
    WorkLeftIff(p);
    if catalog.profileOf(p.profile).Some? { NextPhaseIff(catalog.profileOf(p.profile).value, p.phase); }
    hide OpenWork, WorkLeft, NextPhaseAvailable;
  }

  lemma GuardsAre(catalog: Catalog, p: Projection, req: Request)
    ensures Mismatch(p, req).None? <==> Current(p, req)
    ensures Stops(Routing(catalog, p, req)) <==> Stopped(catalog, p, req)
    ensures AllDone(p) <==> Finished(p)
    ensures NoWayOn(catalog, p) <==> !WayOn(catalog, p)
  {
    hide Mismatch, Routing, AllDone, NoWayOn, Current, Finished, WayOn;
    MismatchIff(p, req);
    StoppedIff(catalog, p, req, TerminalFailure);
    FinishedIff(p);
    WayOnIff(catalog, p);
  }

  // ---- What a transaction answers ----

  /**
   * A turn may go on exactly when the request fits the workflow as it now runs and is new, nobody asked to cancel, the
   * workflow is active and in time, a slot is left, the turn is unambiguous, no repeated failure stops it, the work is not
   * finished, the phase is not terminal, and there is a way on.
   */
  lemma GrantedIff(catalog: Catalog, p: Projection, req: Request)
    ensures Transacted(catalog, p, req).1.Granted? <==>
      && Current(p, req) && !CancelAsked(p, req) && p.status == Active && InTime(p, req)
      && p.consumed < p.maxContinuations && !Doubtful(req)
      && !StoppedBy(catalog, p, req, TerminalFailure) && !StoppedBy(catalog, p, req, HumanBlocker)
      && !Finished(p) && !AtTerminalPhase(catalog, p) && WayOn(catalog, p)
  {
    GuardsAre(catalog, p, req);
    hide Mismatch, Routing, Fingerprint, AllDone, NoWayOn, AfterRefusal, AfterGrant, Stops, Current, StoppedBy, Finished, WayOn;
  }

  /** Each way a request can fail to fit leaves the workflow alone. */
  lemma MismatchAnswers(catalog: Catalog, p: Projection, req: Request)
    ensures var (q, r) := Transacted(catalog, p, req);
      && (r == Refused(MismatchedAgent) <==> p.agentId != req.agentId)
      && (r == Refused(MismatchedRun) <==> p.agentId == req.agentId && !SameCursor(p, req))
      && (r == Refused(MismatchedRunId) <==> p.agentId == req.agentId && SameCursor(p, req) && p.runId != req.runId)
      && (r == Refused(MismatchedEpoch) <==>
            p.agentId == req.agentId && SameCursor(p, req) && p.runId == req.runId && p.epoch != req.epoch)
      && (r == Refused(DuplicateEvent) <==> Addressed(p, req) && p.lastEvent == Some(req.eventId))
      && (!Current(p, req) ==> q == p && r.Refused?)
  {
    MismatchIff(p, req);
    hide Mismatch, Routing, Fingerprint, AllDone, NoWayOn, AfterGrant, Stops, SameCursor;
  }

  /** A cancellation is stored, whatever else holds of the workflow; an inactive workflow otherwise stays as it is. */
  lemma CancelAnswers(catalog: Catalog, p: Projection, req: Request)
    ensures var (q, r) := Transacted(catalog, p, req);
      && (r == Refused(CancelRequested) <==> Current(p, req) && CancelAsked(p, req))
      && (r == Refused(CancelRequested) ==> q == p.(status := Cancelled, revision := p.revision + 1))
      && (r == Refused(NotActive) <==> Current(p, req) && !CancelAsked(p, req) && p.status != Active)
      && (r == Refused(NotActive) ==> q == p)
  {
    MismatchIff(p, req);
    hide Mismatch, Routing, Fingerprint, AllDone, NoWayOn, AfterGrant, Stops, Current;
  }

  /** Out of time or out of slots the workflow has failed; in doubt it is blocked. */
  lemma LimitAnswers(catalog: Catalog, p: Projection, req: Request)
    ensures var (q, r) := Transacted(catalog, p, req);
      && (r == Refused(DeadlineExhausted) <==>
            Current(p, req) && !CancelAsked(p, req) && p.status == Active && !InTime(p, req))
      && (r == Refused(BudgetExhausted) <==> MayRun(p, req) && p.consumed >= p.maxContinuations)
      && (r == Refused(AmbiguousSideEffect) <==> MayRun(p, req) && p.consumed < p.maxContinuations && Doubtful(req))
      && (r == Refused(DeadlineExhausted) || r == Refused(BudgetExhausted) ==>
            q == p.(status := Failed, revision := p.revision + 1))
      && (r == Refused(AmbiguousSideEffect) ==> q == p.(status := Blocked, revision := p.revision + 1))
  {
    MismatchIff(p, req);
    hide Mismatch, Routing, Fingerprint, AllDone, NoWayOn, AfterGrant, Stops, Current;
  }

  /** A failure repeated too often ends the workflow or blocks it, as the profile says, and is remembered. */
  lemma FailureAnswers(catalog: Catalog, p: Projection, req: Request, route: Route)
    ensures var (q, r) := Transacted(catalog, p, req);
      && (r == Refused(RepeatedFailure(route)) <==> MayTakeSlot(p, req) && StoppedBy(catalog, p, req, route))
      && (r == Refused(RepeatedFailure(route)) ==>
            && q == p.(status := if route == TerminalFailure then Failed else Blocked, revision := p.revision + 1,
                       fingerprint := q.fingerprint)
            && q.fingerprint.Some? && FailsWith(catalog, req, q.fingerprint.value))
  {
    GuardsAre(catalog, p, req);
    if route == TerminalFailure || route == HumanBlocker { StoppedIff(catalog, p, req, route); }
    FailureIff(catalog, req);
    StopsNeedFailure(catalog, p, req);
    MismatchIff(p, req);
    hide Mismatch, Routing, Fingerprint, AllDone, NoWayOn, AfterGrant, Current, FailsWith, Fails, FailsAgain, WornOut, StoppedBy,
      Stopped, Finished, WayOn;
  }

  lemma StopsNeedFailure(catalog: Catalog, p: Projection, req: Request)
    ensures Routing(catalog, p, req).Some? ==> Fingerprint(catalog, req).Some?
  {
  }

  /** Finished work completes the workflow; a terminal phase, or no way on, leaves it as it is. */
  lemma EndAnswers(catalog: Catalog, p: Projection, req: Request)
    ensures var (q, r) := Transacted(catalog, p, req);
      var open := MayTakeSlot(p, req) && !Stopped(catalog, p, req);
      && (r == Refused(AllGoalsSatisfied) <==> open && Finished(p))
      && (r == Refused(TerminalPhase) <==> open && !Finished(p) && AtTerminalPhase(catalog, p))
      && (r == Refused(NoNextAction) <==> open && !Finished(p) && !AtTerminalPhase(catalog, p) && !WayOn(catalog, p))
      && (r == Refused(TerminalPhase) || r == Refused(NoNextAction) ==> q == p)
      && (r == Refused(AllGoalsSatisfied) ==>
            && q == p.(status := Completed, revision := p.revision + 1, verified := false, phase := q.phase)
            && q.phase == if catalog.profileOf(p.profile).Some?
                            && "completed" in catalog.profileOf(p.profile).value.terminalPhases
                          then "completed" else p.phase)
  {
    GuardsAre(catalog, p, req);
    MismatchIff(p, req);
    hide Mismatch, Routing, Fingerprint, AllDone, NoWayOn, AfterGrant, Stops, Current, Stopped, Finished, WayOn;
  }

  /**
   * A grant takes exactly one slot and says how many are left; it remembers the event and the failure, counts failures in a
   * row, and moves to planning exactly when the profile routes this repetition there. Nothing else changes.
   */
  lemma GrantStores(catalog: Catalog, p: Projection, req: Request)
    requires Transacted(catalog, p, req).1.Granted?
    ensures var (q, r) := Transacted(catalog, p, req);
      && r.slot == p.consumed + 1 && r.remaining == p.maxContinuations - r.slot
      && (r.failure.Some? ==> FailsWith(catalog, req, r.failure.value)) && (r.failure.None? ==> !Fails(catalog, req))
      && q == p.(revision := p.revision + 1, consumed := r.slot, lastEvent := Some(req.eventId), phase := q.phase,
                 fingerprint := if r.failure.Some? then r.failure else p.fingerprint,
                 consecutiveFailures := if !Fails(catalog, req) then 0
                                        else if FailsAgain(catalog, p, req) then p.consecutiveFailures + 1 else 1)
      && q.phase == if r.directive == Some(Replan) && "plan" in catalog.profileOf(p.profile).value.phases
                    then "plan" else p.phase
  {
    GrantedIff(catalog, p, req);
    FailureIff(catalog, req);
    GrantDirects(catalog, p, req);
    hide Mismatch, Routing, Fingerprint, AllDone, NoWayOn, Stops, Current, FailsWith, StoppedBy, Finished, WayOn, Fails;
  }

  /** How a grant directs the next turn: by the profile's route when failures wore it out, without a profile by rework. */
  lemma GrantDirects(catalog: Catalog, p: Projection, req: Request)
    requires Transacted(catalog, p, req).1.Granted?
    ensures var r := Transacted(catalog, p, req).1;
      && (catalog.profileOf(p.profile).Some? ==>
            var profile := catalog.profileOf(p.profile).value;
            r.directive == if WornOut(catalog, p, req, profile) then Some(profile.route) else None)
      && (catalog.profileOf(p.profile).None? ==>
            r.directive == if FailsAgain(catalog, p, req) && p.consecutiveFailures >= 2 then Some(Rework) else None)
  {
    RoutingIff(catalog, p, req);
    hide Mismatch, Routing, Fingerprint, AllDone, NoWayOn, Stops, FailsAgain, WornOut, AfterGrant, AfterRefusal;
  }

  // ---- What a resume answers ----

  /** The handoff is of this run and agent, and undamaged. */
  ghost predicate Fitting(p: Projection, h: Handoff) {
    h.runId == p.runId && h.agentId == p.agentId && h.whole
  }

  ghost predicate AsksFor(req: ResumeRequest, id: string) {
    id != "" && req.handoffId == Some(id)
  }

  ghost predicate AsksForNone(req: ResumeRequest) {
    req.handoffId == None || req.handoffId == Some("")
  }

  /** The id of the handoff recorded last. */
  ghost predicate Latest(p: Projection, id: string) {
    p.handoffs != [] && p.handoffs[|p.handoffs| - 1].id == id
  }

  /** The handoff that the resume looks at: the one asked for, or else the one recorded last, if its artifact is there. */
  ghost predicate LooksAt(p: Projection, req: ResumeRequest, h: Handoff) {
    exists id :: id in req.artifacts && req.artifacts[id] == h && (AsksFor(req, id) || (AsksForNone(req) && Latest(p, id)))
  }

  lemma HandoffIff(p: Projection, req: ResumeRequest)
    ensures HandoffFor(p, req).Err? <==> exists id :: AsksFor(req, id) && id !in req.artifacts
    ensures forall h :: HandoffFor(p, req) == Ok(Some(h)) <==> LooksAt(p, req, h)
  {
    if req.handoffId.Some? && req.handoffId.value != "" { assert AsksFor(req, req.handoffId.value); }
    if p.handoffs != [] { assert Latest(p, p.handoffs[|p.handoffs| - 1].id); }
    forall h ensures HandoffFor(p, req) == Ok(Some(h)) <==> LooksAt(p, req, h) {
      if HandoffFor(p, req) == Ok(Some(h)) {
        var id := if AsksForNone(req) then p.handoffs[|p.handoffs| - 1].id else req.handoffId.value;
        assert id in req.artifacts && req.artifacts[id] == h;
      }
    }
  }

  /**
   * A resume succeeds exactly when the workflow is not cancelled, the agent is its own and resumes, a handoff that is asked
   * for exists, and the handoff looked at fits. It then makes the workflow active again under the next epoch and records the
   * handoff if it is new; otherwise nothing changes.
   */
  lemma ResumedIff(p: Projection, req: ResumeRequest)
    ensures var (q, r) := ResumedFrom(p, req);
      && (r.Resumed? <==>
            && p.status != Cancelled && p.agentId == req.agentId && req.agentResumes
            && (forall id :: AsksFor(req, id) ==> id in req.artifacts)
            && forall h :: LooksAt(p, req, h) ==> Fitting(p, h))
      && (!r.Resumed? ==> r == ResumeRefused && q == p)
      && (r.Resumed? ==>
            && r == Resumed(p.epoch + 1)
            && q == p.(status := Active, epoch := p.epoch + 1, revision := p.revision + 1, handoffs := q.handoffs)
            && (forall h :: LooksAt(p, req, h) ==>
                  q.handoffs == if exists ref :: ref in p.handoffs && ref.id == h.id then p.handoffs
                                else p.handoffs + [HandoffRef(h.id, h.epoch)])
            && ((forall h :: !LooksAt(p, req, h)) ==> q.handoffs == p.handoffs))
  {
    HandoffIff(p, req);
    hide HandoffFor, LooksAt, AsksFor;
    forall k | 0 <= k < |p.handoffs| ensures p.handoffs[k] in p.handoffs {}
  }
}
