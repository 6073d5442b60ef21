/** What a run of the task runner answers, what an abort does to it, and that an undisturbed run completes. */
module DagOutcomes {
  import opened DagOwnership
  import opened DagRunner
  import opened DagValidator

  ghost predicate AllCompleted(records: map<string, Status>) {
    forall id :: id in records ==> records[id] == Completed
  }

  ghost predicate SomeCancelled(records: map<string, Status>) {
    exists id :: id in records && records[id] == Cancelled
  }

  // ---- The answer of a settled run ----

  /** The answer, read off the records and the abort flag; an abort leaves nothing open, and is one that was asked for. */
  ghost predicate Answered(s: State, status: Overall) {
    && (status == OverallCompleted <==> !s.dagAborted && Conclusive(s.records))
    && (status == OverallCancelled <==> s.dagAborted || SomeCancelled(s.records))
    && (s.dagAborted ==> forall id :: id in s.records ==> s.records[id] != Pending && s.records[id] != Running)
  }

  ghost predicate Truthful(s: State) {
    && (s.dagAborted ==> s.signalAborted)
    && (s.phase.Settled? ==> Answered(s, s.phase.status))
  }

  lemma StatusAnswers(records: map<string, Status>, aborted: bool)
    ensures StatusAfter(records, aborted) == OverallCompleted <==> !aborted && Conclusive(records)
    ensures StatusAfter(records, aborted) == OverallCancelled <==> aborted || SomeCancelled(records)
  {
    forall id | id in records ensures records[id] in records.Values {}
    if Conclusive(records) {
      forall status | status in records.Values ensures status == Completed || status == Skipped {
        var id :| id in records && records[id] == status;
      }
    }
    if Cancelled in records.Values {
      var id :| id in records && records[id] == Cancelled;
    }
  }

  lemma SettleAnswers(s: State)
    requires s.dagAborted ==> s.signalAborted
    ensures Truthful(Settle(s))
  {
    StatusAnswers(Settle(s).records, s.dagAborted);
    hide StatusAfter, Conclusive, SomeCancelled;
  }

  lemma StepTruthful(c: Config, s: State, a: Action)
    requires Enabled(c, s, a) && Truthful(s)
    ensures Truthful(Apply(c, s, a))
  {
    hide Settle, DependenciesCompleted, Answered;
    SettleAnswers(s);
    if s.signalAborted { SettleAnswers(s.(dagAborted := true)); }
    if a.AbortSignal? { AbortTruthful(s); }
  }

  lemma AbortTruthful(s: State)
    requires Truthful(s)
    ensures Truthful(s.(signalAborted := true))
  {
  }

  lemma {:induction false} RunTruthful(c: Config, run: seq<State>, k: nat)
    requires IsRun(c, run) && k < |run|
    ensures Truthful(run[k])
    decreases k
  {
    hide Answered;
    if k > 0 {
      RunTruthful(c, run, k - 1);
      assert Next(c, run[k - 1], run[k - 1 + 1]);
      var a :| Enabled(c, run[k - 1], a) && run[k] == Apply(c, run[k - 1], a);
      hide Apply, Enabled;
      StepTruthful(c, run[k - 1], a);
    }
  }

  /**
   * A settled run is completed exactly when it was not aborted and every task completed, cancelled exactly when it was
   * aborted or some task ended cancelled, and failed in every other case. After an abort no task is left open.
   */
  lemma SettledExactly(c: Config, graph: Graph, plan: Plan, run: seq<State>, k: nat)
    requires ValidPlan(graph, plan) && c.ranks == plan.ranks
    requires IsRun(c, run) && k < |run| && run[k].phase.Settled?
    ensures var s := run[k]; var status := s.phase.status;
      && (status == OverallCompleted <==> !s.dagAborted && forall id :: id in s.records ==> s.records[id] == Completed)
      && (status == OverallCancelled <==> s.dagAborted || exists id :: id in s.records && s.records[id] == Cancelled)
      && (status == OverallFailed <==>
            && !s.dagAborted && (exists id :: id in s.records && s.records[id] != Completed)
            && forall id :: id in s.records ==> s.records[id] != Cancelled)
      && (s.dagAborted ==> s.signalAborted && forall id :: id in s.records ==> s.records[id] !in {Pending, Running})
  {
    hide ValidPlan, Planned, Invariant;
    ValidPlanIsPlanned(graph, plan, c);
    RunTruthful(c, run, k);
    RunInvariant(c, run, k);
    if Conclusive(run[k].records) { ConclusiveIsCompleted(c, run[k]); }
    assert !Conclusive(run[k].records) ==> !AllCompleted(run[k].records);
  }

  lemma ConclusiveIsCompleted(c: Config, s: State)
    requires Planned(c) && Invariant(c, s) && Conclusive(s.records)
    ensures AllCompleted(s.records)
  {
    hide Planned, Justified, Untouched;
    NothingSkipped(c, s.records, |c.ranks|);
  }

  ghost predicate CompletedIn(records: map<string, Status>, id: string) {
    id in records && records[id] == Completed
  }

  /** What is in flight has only completed dependencies. */
  ghost predicate FlightsInOrder(c: Config, s: State) {
    forall w, dep :: 0 <= w < |s.workers| && s.phase == InRank && s.workers[w].InFlight? ==>
      && s.rank < |c.ranks| && s.workers[w].index < |c.ranks[s.rank]|
      && (dep in c.ranks[s.rank][s.workers[w].index].dependencies ==> CompletedIn(s.records, dep))
  }

  /** A completed task has only completed dependencies, and a skipped one has a dependency that did not complete. */
  ghost predicate RecordsInOrder(records: map<string, Status>, task: Task) {
    && (CompletedIn(records, task.id) ==> forall dep :: dep in task.dependencies ==> CompletedIn(records, dep))
    && (task.id in records && records[task.id] == Skipped ==>
          exists dep :: dep in task.dependencies && !CompletedIn(records, dep))
  }

  /** In every state of every run tasks run, complete and are skipped as their dependencies completed or did not. */
  lemma OrderIsKept(c: Config, graph: Graph, plan: Plan, run: seq<State>, k: nat)
    requires ValidPlan(graph, plan) && c.ranks == plan.ranks
    requires forall r :: 0 <= r < |c.ranks| ==> RankOwned(c.ranks[r], c.defaultWorkspace, c.lower)
    requires IsRun(c, run) && k < |run|
    ensures FlightsInOrder(c, run[k])
    ensures forall r, i :: 0 <= r < |c.ranks| && 0 <= i < |c.ranks[r]| ==> RecordsInOrder(run[k].records, c.ranks[r][i])
  {
    RunsAreSafe(c, graph, plan, run);
    SafeOrder(c, run[k]);
  }

  lemma SafeOrder(c: Config, s: State)
    requires Safe(c, s)
    ensures FlightsInOrder(c, s)
    ensures forall r, i :: 0 <= r < |c.ranks| && 0 <= i < |c.ranks[r]| ==> RecordsInOrder(s.records, c.ranks[r][i])
  {
    hide Apart, InFlightCount;
    forall w, dep | 0 <= w < |s.workers| && s.phase == InRank && s.workers[w].InFlight?
      ensures s.rank < |c.ranks| && s.workers[w].index < |c.ranks[s.rank]|
      ensures dep in c.ranks[s.rank][s.workers[w].index].dependencies ==> CompletedIn(s.records, dep)
    {
      assert Flying(c, s, w);
    }
    forall r, i | 0 <= r < |c.ranks| && 0 <= i < |c.ranks[r]| ensures RecordsInOrder(s.records, c.ranks[r][i]) {
      assert At(c, r, i) && JustifiedAt(s.records, TaskAt(c, r, i));
    }
  }

  // ---- Aborts ----

  /** Once the signal is aborted no worker takes a task. */
  lemma NothingStartsAfterAbort(c: Config, s: State, a: Action, w: nat, index: nat)
    requires Enabled(c, s, a) && s.signalAborted
    requires var t := Apply(c, s, a); t.phase == InRank && w < |t.workers| && t.workers[w] == InFlight(index)
    ensures s.phase == InRank && w < |s.workers| && s.workers[w] == InFlight(index)
  {
  }

  /** Ranks are left to run, or one is running. */
  predicate Unfinished(c: Config, s: State) {
    s.phase == InRank || (s.phase == BetweenRanks && s.rank < |c.ranks|)
  }

  lemma AbortStays(c: Config, s: State, a: Action)
    requires Enabled(c, s, a) && s.signalAborted
    requires Unfinished(c, s) || s.phase == Settled(OverallCancelled)
    ensures var t := Apply(c, s, a);
      t.signalAborted && (Unfinished(c, t) || t.phase == Settled(OverallCancelled))
  {
    hide DependenciesCompleted;
  }

  /** A run that is aborted before its last rank has been left can only settle as cancelled. */
  lemma {:induction false} AbortCancels(c: Config, run: seq<State>, j: nat, k: nat)
    requires IsRun(c, run) && j <= k < |run| && run[j].signalAborted && Unfinished(c, run[j])
    ensures run[k].signalAborted && (Unfinished(c, run[k]) || run[k].phase == Settled(OverallCancelled))
    decreases k - j
  {
    hide Init;
    if j < k {
      AbortCancels(c, run, j, k - 1);
      assert Next(c, run[k - 1], run[k - 1 + 1]);
      var a :| Enabled(c, run[k - 1], a) && run[k] == Apply(c, run[k - 1], a);
      hide Apply, Enabled;
      AbortStays(c, run[k - 1], a);
    }
  }

  /** A step changes a record only to what its runner answered, to skipped for a dependency, or to cancelled by an abort. */
  lemma StepWrites(c: Config, s: State, a: Action, id: string)
    requires Enabled(c, s, a) && id in s.records
    ensures var t := Apply(c, s, a);
      && id in t.records
      && (t.records[id] != s.records[id] ==>
            || (a.Complete? && id == c.ranks[s.rank][s.workers[a.worker].index].id && t.records[id] == a.outcome)
            || (&& a.Advance? && t.records[id] == Skipped && !s.signalAborted
                && exists task, dep :: task in c.ranks[s.rank] && task.id == id && dep in task.dependencies
                     && !(dep in s.records && s.records[dep] == Completed))
            || (t.phase.Settled? && t.dagAborted && s.records[id] in {Pending, Running} && t.records[id] == Cancelled))
      && (a.Complete? && id == c.ranks[s.rank][s.workers[a.worker].index].id ==> t.records[id] == a.outcome)
  {
  }

  /** A rank is run by as many workers as maxConcurrency allows, and by one for each task when that is absent or no less. */
  lemma PoolSize(c: Config, s: State)
    requires s.phase == BetweenRanks && s.rank < |c.ranks| && !s.signalAborted
    ensures var n := |c.ranks[s.rank]|; var t := Apply(c, s, EnterRank);
      && t.phase == InRank && |t.workers| == (if 0 < c.maxConcurrency < n then c.maxConcurrency else n)
      && (forall w :: 0 <= w < |t.workers| ==> t.workers[w] == Ready) && t.nextIndex == 0 && t.records == s.records
  {
  }

  // ---- Runs that nothing disturbs ----

  /** No abort, and every task that answers answers completed. */
  ghost predicate QuietNext(c: Config, s: State, t: State) {
    exists a :: Enabled(c, s, a) && t == Apply(c, s, a) && a != AbortSignal && (a.Complete? ==> a.outcome == Completed)
  }

  ghost predicate IsQuietRun(c: Config, run: seq<State>) {
    && run != [] && Init(c, run[0]) && !run[0].signalAborted
    && forall k :: 0 <= k < |run| - 1 ==> QuietNext(c, run[k], run[k + 1])
  }

  lemma QuietIsRun(c: Config, run: seq<State>)
    requires IsQuietRun(c, run)
    ensures IsRun(c, run)
  {
    hide Init, Enabled, Apply;
    forall k | 0 <= k < |run| - 1 ensures Next(c, run[k], run[k + 1]) {
      assert QuietNext(c, run[k], run[k + 1]);
    }
  }

  ghost predicate RanksDone(c: Config, records: map<string, Status>, r: nat) {
    forall q, i :: At(c, q, i) && q < r ==> TaskAt(c, q, i).id in records && records[TaskAt(c, q, i).id] == Completed
  }

  /** Nobody has started this task of the running rank. */
  predicate NotStarted(c: Config, s: State, i: int)
    requires s.rank < |c.ranks|
  {
    if Unbounded(c, c.ranks[s.rank]) then 0 <= i < |s.workers| && s.workers[i] == Ready else i >= s.nextIndex
  }

  ghost predicate Held(s: State, i: int) {
    exists w :: 0 <= w < |s.workers| && s.workers[w].InFlight? && s.workers[w].index == i
  }

  ghost predicate SomeRejected(s: State) {
    exists w :: 0 <= w < |s.workers| && s.workers[w] == Rejected
  }

  ghost predicate GoesOn(c: Config, s: State, i: int)
    requires At(c, s.rank, i)
  {
    || (TaskAt(c, s.rank, i).id in s.records && s.records[TaskAt(c, s.rank, i).id] == Completed)
    || NotStarted(c, s, i) || Held(s, i) || SomeRejected(s)
  }

  /** Pool workers finish only when no task is left. */
  predicate PoolRunsOut(c: Config, s: State)
    requires s.rank < |c.ranks|
  {
    !Unbounded(c, c.ranks[s.rank]) ==>
      forall w :: 0 <= w < |s.workers| && s.workers[w] == Finished ==> s.nextIndex >= |c.ranks[s.rank]|
  }

  ghost predicate Quiet(c: Config, s: State) {
    && !s.signalAborted && !s.dagAborted
    && (!s.phase.Settled? ==> RanksDone(c, s.records, s.rank))
    && (s.phase == InRank ==>
          && s.rank < |c.ranks| && |s.workers| == WorkerCount(c, c.ranks[s.rank])
          && (forall i :: At(c, s.rank, i) ==> GoesOn(c, s, i)) && PoolRunsOut(c, s))
    && (s.phase.Settled? ==> s.phase.status == OverallCompleted)
  }

  lemma QuietEnter(c: Config, s: State)
    requires Quiet(c, s) && RecordsCover(c, s.records) && Enabled(c, s, EnterRank)
    ensures Quiet(c, Apply(c, s, EnterRank))
  {
    if s.rank >= |c.ranks| {
      StatusAnswers(s.records, false);
      assert Conclusive(s.records);
    }
  }

  /** All dependencies lie in ranks that are done, so no task is skipped. */
  lemma QuietDependencies(c: Config, s: State, i: int)
    requires Planned(c) && Quiet(c, s) && s.phase == InRank && At(c, s.rank, i)
    ensures DependenciesCompleted(s.records, TaskAt(c, s.rank, i))
  {
    forall dep | dep in TaskAt(c, s.rank, i).dependencies ensures dep in s.records && s.records[dep] == Completed {
      assert Earlier(c, s.rank, dep);
    }
  }

  /** A worker that held nothing takes the given task. */
  lemma QuietTake(c: Config, s: State, w: nat, index: nat, t: State)
    requires Quiet(c, s) && s.phase == InRank && w < |s.workers| && s.workers[w] == Ready && At(c, s.rank, index)
    requires if Unbounded(c, c.ranks[s.rank]) then index == w && t.nextIndex == s.nextIndex
      else index == s.nextIndex && t.nextIndex == index + 1
    requires t == s.(workers := s.workers[w := InFlight(index)], nextIndex := t.nextIndex)
    ensures Quiet(c, t)
  {
    hide RanksDone;
    forall i | At(c, s.rank, i) ensures GoesOn(c, t, i) {
      assert GoesOn(c, s, i);
      assert i == index ==> t.workers[w].InFlight? && t.workers[w].index == i;
      HeldStays(s, t, w, i);
    }
  }

  /** What another worker holds, or that one was rejected, stays true. */
  lemma HeldStays(s: State, t: State, w: nat, i: int)
    requires w < |s.workers| == |t.workers| && t.workers == s.workers[w := t.workers[w]]
    requires s.workers[w] != Rejected && !(s.workers[w].InFlight? && s.workers[w].index == i)
    ensures Held(s, i) ==> Held(t, i)
    ensures SomeRejected(s) ==> SomeRejected(t)
  {
    if Held(s, i) {
      var v :| 0 <= v < |s.workers| && s.workers[v].InFlight? && s.workers[v].index == i;
      assert t.workers[v] == s.workers[v];
    }
    if SomeRejected(s) {
      var v :| 0 <= v < |s.workers| && s.workers[v] == Rejected;
      assert t.workers[v] == s.workers[v];
    }
  }

  lemma QuietAdvance(c: Config, s: State, w: nat)
    requires Planned(c) && Quiet(c, s) && Enabled(c, s, Advance(w))
    ensures Quiet(c, Apply(c, s, Advance(w)))
  {
    hide Planned, DependenciesCompleted;
    var t := Apply(c, s, Advance(w));
    if !Unbounded(c, c.ranks[s.rank]) && s.nextIndex >= |c.ranks[s.rank]| {
      hide RanksDone;
      forall i | At(c, s.rank, i) ensures GoesOn(c, t, i) {
        assert GoesOn(c, s, i);
        HeldStays(s, t, w, i);
      }
    } else {
      var index := if Unbounded(c, c.ranks[s.rank]) then w else s.nextIndex;
      QuietDependencies(c, s, index);
      hide Quiet;
      QuietTake(c, s, w, index, t);
    }
  }

  lemma QuietComplete(c: Config, s: State, w: nat)
    requires Quiet(c, s) && Enabled(c, s, Complete(w, Completed))
    ensures Quiet(c, Apply(c, s, Complete(w, Completed)))
  {
    var t := Apply(c, s, Complete(w, Completed));
    assert RanksDone(c, t.records, t.rank);
    hide RanksDone;
    forall i | At(c, s.rank, i) ensures GoesOn(c, t, i) {
      assert GoesOn(c, s, i);
      if s.workers[w].index != i { HeldStays(s, t, w, i); }
    }
  }

  lemma QuietThrow(c: Config, s: State, w: nat)
    requires Quiet(c, s) && Enabled(c, s, Throw(w))
    ensures Quiet(c, Apply(c, s, Throw(w)))
  {
    hide RanksDone;
    var t := Apply(c, s, Throw(w));
    assert t.workers[w] == Rejected;
  }

  lemma QuietLeave(c: Config, s: State)
    requires Quiet(c, s) && Enabled(c, s, LeaveRank)
    ensures Quiet(c, Apply(c, s, LeaveRank))
  {
    forall i | At(c, s.rank, i)
      ensures TaskAt(c, s.rank, i).id in s.records && s.records[TaskAt(c, s.rank, i).id] == Completed
    {
      assert GoesOn(c, s, i);
      if !Unbounded(c, c.ranks[s.rank]) { assert s.workers[0] == Finished; }
    }
  }

  lemma QuietStep(c: Config, s: State, a: Action)
    requires Planned(c) && Quiet(c, s) && RecordsCover(c, s.records) && Enabled(c, s, a)
    requires a != AbortSignal && (a.Complete? ==> a.outcome == Completed)
    ensures Quiet(c, Apply(c, s, a))
  {
    hide Planned, Quiet, RecordsCover, Apply;
    match a
    case EnterRank => QuietEnter(c, s);
    case Advance(w) => QuietAdvance(c, s, w);
    case Complete(w, _) => QuietComplete(c, s, w);
    case Throw(w) => QuietThrow(c, s, w);
    case LeaveRank => QuietLeave(c, s);
  }

  lemma {:induction false} QuietRunStays(c: Config, run: seq<State>, k: nat)
    requires Planned(c) && IsQuietRun(c, run) && k < |run|
    ensures Quiet(c, run[k])
    decreases k
  {
    hide Planned, Quiet;
    if k == 0 {
      QuietStart(c, run[0]);
    } else {
      QuietRunStays(c, run, k - 1);
      QuietIsRun(c, run);
      RunInvariant(c, run, k - 1);
      RecordsStand(c, run[k - 1]);
      assert QuietNext(c, run[k - 1], run[k - 1 + 1]);
      hide Apply, Enabled, IsRun;
      var a :| Enabled(c, run[k - 1], a) && run[k] == Apply(c, run[k - 1], a) && a != AbortSignal
        && (a.Complete? ==> a.outcome == Completed);
      QuietStep(c, run[k - 1], a);
    }
  }

  lemma QuietStart(c: Config, s: State)
    requires Init(c, s) && !s.signalAborted
    ensures Quiet(c, s)
  {
  }

  lemma RecordsStand(c: Config, s: State)
    requires Invariant(c, s)
    ensures RecordsCover(c, s.records)
  {
  }

  /** With no abort and every task answering completed, the run can only settle as completed, with every task completed. */
  lemma UndisturbedCompletes(c: Config, graph: Graph, plan: Plan, run: seq<State>, k: nat)
    requires ValidPlan(graph, plan) && c.ranks == plan.ranks
    requires IsQuietRun(c, run) && k < |run| && run[k].phase.Settled?
    ensures run[k].phase == Settled(OverallCompleted)
    ensures forall id :: id in run[k].records ==> run[k].records[id] == Completed
  {
    ValidPlanIsPlanned(graph, plan, c);
    QuietIsRun(c, run);
    hide ValidPlan, Planned, IsQuietRun, IsRun;
    QuietRunStays(c, run, k);
    SettledExactly(c, graph, plan, run, k);
  }

  /** As long as no task throws there is always a step to take, so a run that nothing holds up gets to its answer. */
  lemma NeverStuck(c: Config, s: State) returns (a: Action)
    requires Invariant(c, s) && !s.phase.Settled?
    requires s.phase == InRank ==> forall w :: 0 <= w < |s.workers| ==> s.workers[w] != Rejected
    ensures a != AbortSignal && Enabled(c, s, a)
  {
    hide DependenciesCompleted, RecordsCover, Justified, Untouched;
    if s.phase == BetweenRanks { return EnterRank; }
    if w: nat :| w < |s.workers| && s.workers[w] == Ready { return Advance(w); }
    if w: nat :| w < |s.workers| && s.workers[w].InFlight? {
      assert SlotOk(c, s, w);
      return Complete(w, Completed);
    }
    forall w | 0 <= w < |s.workers| ensures s.workers[w] == Finished {
      assert s.workers[w] != Ready && !s.workers[w].InFlight?;
    }
    return LeaveRank;
  }
}
