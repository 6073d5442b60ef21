/** The rank-by-rank task runner as a state machine: one step runs from one await to the next. */
module DagRunner {
  import opened Wrappers
  import opened DagValidator
  import opened DagOwnership

  datatype Status = Pending | Running | Completed | Failed | Cancelled | Blocked | Skipped

  datatype Overall = OverallCompleted | OverallFailed | OverallCancelled

  /** A worker of the pool, or of Promise.all when the rank runs unbounded. */
  datatype Worker = Ready | InFlight(index: nat) | Finished | Rejected

  datatype Phase = BetweenRanks | InRank | Settled(status: Overall)

  /** maxConcurrency is 0 when the option is absent. */
  datatype Config = Config(ranks: seq<seq<Task>>, maxConcurrency: int, defaultWorkspace: string, lower: string -> string)

  datatype State = State(
    phase: Phase,
    rank: nat,
    workers: seq<Worker>,
    nextIndex: nat,
    records: map<string, Status>,
    signalAborted: bool,
    dagAborted: bool)

  datatype Action =
    | AbortSignal
    | EnterRank
    | Advance(worker: nat)
    | Complete(worker: nat, outcome: Status)
    | Throw(worker: nat)
    | LeaveRank

  // ---- Steps ----

  predicate Unbounded(c: Config, tasks: seq<Task>) {
    c.maxConcurrency <= 0 || c.maxConcurrency >= |tasks|
  }

  function WorkerCount(c: Config, tasks: seq<Task>): nat {
    if Unbounded(c, tasks) then |tasks| else c.maxConcurrency
  }

  /** A pool worker looks for the next task; a Promise.all worker has only its own. */
  function Idle(c: Config, tasks: seq<Task>): Worker {
    if Unbounded(c, tasks) then Finished else Ready
  }

  predicate DependenciesCompleted(records: map<string, Status>, task: Task) {
    forall dep :: dep in task.dependencies ==> dep in records && records[dep] == Completed
  }

  predicate InRankWorker(c: Config, s: State, w: nat) {
    s.phase == InRank && s.rank < |c.ranks| && w < |s.workers|
  }

  predicate Enabled(c: Config, s: State, a: Action) {
    match a
    case AbortSignal => true
    case EnterRank => s.phase == BetweenRanks
    case Advance(w) =>
      InRankWorker(c, s, w) && s.workers[w] == Ready && (Unbounded(c, c.ranks[s.rank]) ==> w < |c.ranks[s.rank]|)
    case Complete(w, outcome) =>
      InRankWorker(c, s, w) && s.workers[w].InFlight? && s.workers[w].index < |c.ranks[s.rank]| && outcome != Skipped
    case Throw(w) => InRankWorker(c, s, w) && s.workers[w].InFlight?
    case LeaveRank =>
      s.phase == InRank && s.rank < |c.ranks| && forall w :: 0 <= w < |s.workers| ==> s.workers[w] == Finished
  }

  /** The worker body up to its first await. */
  function Begin(c: Config, s: State, w: nat, index: nat): State
    requires InRankWorker(c, s, w) && index < |c.ranks[s.rank]|
  {
    var task := c.ranks[s.rank][index];
    var idle := Idle(c, c.ranks[s.rank]);
    if s.signalAborted then s.(dagAborted := true, workers := s.workers[w := idle])
    else if !DependenciesCompleted(s.records, task) then
      s.(records := s.records[task.id := Skipped], workers := s.workers[w := idle])
    else s.(workers := s.workers[w := InFlight(index)])
  }

  function StatusAfter(records: map<string, Status>, dagAborted: bool): Overall {
    if dagAborted || Cancelled in records.Values then OverallCancelled
    else if Failed in records.Values then OverallFailed
    else if forall status :: status in records.Values ==> status == Completed || status == Skipped then OverallCompleted
    else OverallFailed
  }

  function CancelOpen(records: map<string, Status>): map<string, Status> {
    map id | id in records :: if records[id] == Pending || records[id] == Running then Cancelled else records[id]
  }

  function Settle(s: State): State {
    var records := if s.dagAborted then CancelOpen(s.records) else s.records;
    s.(records := records, phase := Settled(StatusAfter(records, s.dagAborted)))
  }

  function Apply(c: Config, s: State, a: Action): State
    requires Enabled(c, s, a)
  {
    match a
    case AbortSignal => s.(signalAborted := true)
    case EnterRank =>
      if s.rank >= |c.ranks| then Settle(s)
      else if s.signalAborted then Settle(s.(dagAborted := true))
      else s.(phase := InRank, nextIndex := 0, workers := seq(WorkerCount(c, c.ranks[s.rank]), _ => Ready))
    case Advance(w) =>
      if Unbounded(c, c.ranks[s.rank]) then Begin(c, s, w, w)
      else if s.nextIndex >= |c.ranks[s.rank]| || s.signalAborted || s.dagAborted then
        s.(workers := s.workers[w := Finished])
      else Begin(c, s.(nextIndex := s.nextIndex + 1), w, s.nextIndex)
    case Complete(w, outcome) =>
      s.(records := s.records[c.ranks[s.rank][s.workers[w].index].id := outcome],
         workers := s.workers[w := Idle(c, c.ranks[s.rank])])
    case Throw(w) => s.(workers := s.workers[w := Rejected])
    case LeaveRank =>
      var dagAborted := s.dagAborted || s.signalAborted;
      if dagAborted then Settle(s.(dagAborted := true))
      else s.(phase := BetweenRanks, rank := s.rank + 1)
  }

  predicate At(c: Config, r: int, i: int) {
    0 <= r < |c.ranks| && 0 <= i < |c.ranks[r]|
  }

  function TaskAt(c: Config, r: int, i: int): Task
    requires At(c, r, i)
  {
    c.ranks[r][i]
  }

  /** There is a record for every task and for nothing else. */
  ghost predicate RecordsCover(c: Config, records: map<string, Status>) {
    && (forall r, i :: At(c, r, i) ==> TaskAt(c, r, i).id in records)
    && forall id :: id in records ==> exists r, i :: At(c, r, i) && TaskAt(c, r, i).id == id
  }

  ghost predicate Init(c: Config, s: State) {
    && s.phase == BetweenRanks && s.rank == 0 && s.workers == [] && s.nextIndex == 0 && !s.dagAborted
    && RecordsCover(c, s.records)
    && forall id :: id in s.records ==> s.records[id] == Pending
  }

  ghost predicate Next(c: Config, s: State, t: State) {
    exists a :: Enabled(c, s, a) && t == Apply(c, s, a)
  }

  /** Any interleaving, of any length, with any task outcomes and any moment of abort. */
  ghost predicate IsRun(c: Config, run: seq<State>) {
    && run != [] && Init(c, run[0])
    && forall k :: 0 <= k < |run| - 1 ==> Next(c, run[k], run[k + 1])
  }

  // ---- What validation provides ----

  ghost predicate Earlier(c: Config, r: int, dep: string) {
    exists q, j :: At(c, q, j) && q < r && TaskAt(c, q, j).id == dep
  }

  ghost predicate Planned(c: Config) {
    && (forall r, i, q, j :: At(c, r, i) && At(c, q, j) && TaskAt(c, r, i).id == TaskAt(c, q, j).id ==> r == q && i == j)
    && forall r, i, dep :: At(c, r, i) && dep in TaskAt(c, r, i).dependencies ==> Earlier(c, r, dep)
  }

  lemma {:induction false} ConcatMember(ranks: seq<seq<Task>>, id: string) returns (r: nat)
    requires id in Concat(ranks)
    ensures r < |ranks| && id in TaskIds(ranks[r])
  {
    if id in TaskIds(ranks[|ranks| - 1]) {
      r := |ranks| - 1;
    } else {
      r := ConcatMember(ranks[..|ranks| - 1], id);
    }
  }

  lemma {:induction false} RankIdsDistinct(ranks: seq<seq<Task>>, r: nat)
    requires Distinct(Concat(ranks)) && r < |ranks|
    ensures Distinct(TaskIds(ranks[r]))
    decreases |ranks|
  {
    var init := Concat(ranks[..|ranks| - 1]);
    var last := TaskIds(ranks[|ranks| - 1]);
    if r == |ranks| - 1 {
      forall i, j | 0 <= i < j < |last| ensures last[i] != last[j] {
        assert Concat(ranks)[|init| + i] == last[i] && Concat(ranks)[|init| + j] == last[j];
      }
    } else {
      forall i, j | 0 <= i < j < |init| ensures init[i] != init[j] {
        assert Concat(ranks)[i] == init[i] && Concat(ranks)[j] == init[j];
      }
      RankIdsDistinct(ranks[..|ranks| - 1], r);
    }
  }

  lemma TaskHasRank(graph: Graph, group: seq<Task>, r: nat, i: nat)
    requires RankGroup(graph, group, r) && i < |group|
    ensures group[i].id in graph && graph[group[i].id] == group[i] && IsRank(graph, group[i].id, r)
  {
    hide IsRank;
    assert group[i] in group;
    assert TaskIds(group)[i] == group[i].id;
  }

  lemma SameIdSamePlace(graph: Graph, plan: Plan, c: Config, r: int, i: int, q: int, j: int)
    requires ValidPlan(graph, plan) && c.ranks == plan.ranks
    requires At(c, r, i) && At(c, q, j) && TaskAt(c, r, i).id == TaskAt(c, q, j).id
    ensures r == q && i == j
  {
    hide IsRank, DependenciesFirst, Concat;
    TaskHasRank(graph, c.ranks[r], r, i);
    TaskHasRank(graph, c.ranks[q], q, j);
    RankUnique(graph, TaskAt(c, r, i).id, r, q);
    RankIdsDistinct(c.ranks, r);
    assert TaskIds(c.ranks[r])[i] == TaskIds(c.ranks[r])[j];
  }

  lemma DependencyIsEarlier(graph: Graph, plan: Plan, c: Config, r: int, i: int, dep: string)
    requires ValidPlan(graph, plan) && c.ranks == plan.ranks
    requires At(c, r, i) && dep in TaskAt(c, r, i).dependencies
    ensures Earlier(c, r, dep)
  {
    hide IsRank, Concat;
    var id := TaskAt(c, r, i).id;
    TaskHasRank(graph, c.ranks[r], r, i);
    var p :| 0 <= p < |plan.topologicalOrder| && plan.topologicalOrder[p] == id;
    assert dep in plan.topologicalOrder[..p];
    assert Edge(graph, id, dep);
    var q := ConcatMember(plan.ranks, dep);
    var j :| 0 <= j < |c.ranks[q]| && TaskIds(c.ranks[q])[j] == dep;
    assert At(c, q, j) && TaskAt(c, q, j).id == dep;
    DependencyRanksLower(graph, id, dep, r, q);
  }

  /** A validated plan keeps ids apart and puts every dependency in an earlier rank. */
  lemma ValidPlanIsPlanned(graph: Graph, plan: Plan, c: Config)
    requires ValidPlan(graph, plan) && c.ranks == plan.ranks
    ensures Planned(c)
  {
    hide ValidPlan, Earlier;
    forall r, i, q, j | At(c, r, i) && At(c, q, j) && TaskAt(c, r, i).id == TaskAt(c, q, j).id ensures r == q && i == j {
      SameIdSamePlace(graph, plan, c, r, i, q, j);
    }
    forall r, i, dep | At(c, r, i) && dep in TaskAt(c, r, i).dependencies ensures Earlier(c, r, dep) {
      DependencyIsEarlier(graph, plan, c, r, i, dep);
    }
  }

  // ---- Safety ----

  /** Worker w of the running rank is executing a task of that rank. */
  ghost predicate Flying(c: Config, s: State, w: int) {
    && s.phase == InRank && 0 <= w < |s.workers| && s.workers[w].InFlight?
    && At(c, s.rank, s.workers[w].index)
  }

  function FlyingTask(c: Config, s: State, w: int): Task
    requires Flying(c, s, w)
  {
    TaskAt(c, s.rank, s.workers[w].index)
  }

  function InFlightCount(workers: seq<Worker>): nat {
    if workers == [] then 0
    else InFlightCount(workers[..|workers| - 1]) + if workers[|workers| - 1].InFlight? then 1 else 0
  }

  /** Two running tasks are different, and at one location they own disjoint trees. */
  ghost predicate Apart(c: Config, t: Task, u: Task) {
    && t.id != u.id
    && (Location(t, c.defaultWorkspace) == Location(u, c.defaultWorkspace) ==> DisjointTrees(t, u, c.lower))
  }

  /** A completed task has completed dependencies; a skipped one has a dependency that did not complete. */
  ghost predicate JustifiedAt(records: map<string, Status>, task: Task) {
    task.id in records ==>
      && (records[task.id] == Completed ==> DependenciesCompleted(records, task))
      && (records[task.id] == Skipped ==> !DependenciesCompleted(records, task))
  }

  ghost predicate Safe(c: Config, s: State) {
    && (forall w :: 0 <= w < |s.workers| && s.phase == InRank && s.workers[w].InFlight? ==> Flying(c, s, w))
    // A running task's dependencies have completed, and stay completed; so have those of every completed task,
    // while a skipped task has one that did not.
    && (forall w :: Flying(c, s, w) ==> DependenciesCompleted(s.records, FlyingTask(c, s, w)))
    && (forall r, i :: At(c, r, i) ==>
          TaskAt(c, r, i).id in s.records && JustifiedAt(s.records, TaskAt(c, r, i)))
    && (c.maxConcurrency > 0 && s.phase == InRank ==> InFlightCount(s.workers) <= c.maxConcurrency)
    && (forall v, w :: Flying(c, s, v) && Flying(c, s, w) && v != w ==> Apart(c, FlyingTask(c, s, v), FlyingTask(c, s, w)))
    && (s.phase == Settled(OverallCompleted) ==> forall id :: id in s.records ==> s.records[id] == Completed)
  }

  // ---- The invariant ----

  ghost predicate Justified(c: Config, records: map<string, Status>) {
    forall r, i :: At(c, r, i) ==> JustifiedAt(records, TaskAt(c, r, i))
  }

  /** The ranks from the given one on are untouched. */
  ghost predicate Untouched(c: Config, records: map<string, Status>, from: int) {
    forall r, i :: At(c, r, i) && from <= r && TaskAt(c, r, i).id in records ==> records[TaskAt(c, r, i).id] == Pending
  }

  /** Which task of the rank a worker may hold. */
  ghost predicate SlotOk(c: Config, s: State, w: int)
    requires 0 <= w < |s.workers| && s.rank < |c.ranks|
  {
    s.workers[w].InFlight? ==>
      && At(c, s.rank, s.workers[w].index)
      && (if Unbounded(c, c.ranks[s.rank]) then s.workers[w].index == w else s.workers[w].index < s.nextIndex)
      && DependenciesCompleted(s.records, TaskAt(c, s.rank, s.workers[w].index))
  }

  ghost predicate Slots(c: Config, s: State) {
    && s.rank < |c.ranks|
    && |s.workers| == WorkerCount(c, c.ranks[s.rank])
    && (forall w :: 0 <= w < |s.workers| ==> SlotOk(c, s, w))
    && forall v, w :: 0 <= v < w < |s.workers| && s.workers[v].InFlight? && s.workers[w].InFlight? ==>
         s.workers[v].index != s.workers[w].index
  }

  ghost predicate Conclusive(records: map<string, Status>) {
    forall id :: id in records ==> records[id] == Completed || records[id] == Skipped
  }

  ghost predicate Invariant(c: Config, s: State) {
    && RecordsCover(c, s.records)
    && Justified(c, s.records)
    && (s.phase == BetweenRanks ==> Untouched(c, s.records, s.rank))
    && (s.phase == InRank ==> Untouched(c, s.records, s.rank + 1) && Slots(c, s))
    && (s.phase == Settled(OverallCompleted) ==> Conclusive(s.records))
  }

  lemma InitInvariant(c: Config, s: State)
    requires Init(c, s)
    ensures Invariant(c, s)
  {
    hide RecordsCover, DependenciesCompleted;
  }

  /** Writing a record of rank r leaves the dependencies of ranks up to r alone. */
  lemma WriteKeepsDependencies(c: Config, records: map<string, Status>, r: int, i: int, status: Status, q: int, j: int)
    requires Planned(c) && At(c, r, i) && At(c, q, j) && q <= r
    ensures DependenciesCompleted(records[TaskAt(c, r, i).id := status], TaskAt(c, q, j)) <==>
      DependenciesCompleted(records, TaskAt(c, q, j))
  {
    var id := TaskAt(c, r, i).id;
    forall dep | dep in TaskAt(c, q, j).dependencies ensures dep != id {
      assert Earlier(c, q, dep);
    }
  }

  lemma WriteJustified(c: Config, records: map<string, Status>, r: int, i: int, status: Status)
    requires Planned(c) && At(c, r, i) && Justified(c, records) && Untouched(c, records, r + 1)
    requires RecordsCover(c, records)
    requires JustifiedAt(records[TaskAt(c, r, i).id := status], TaskAt(c, r, i))
    ensures Justified(c, records[TaskAt(c, r, i).id := status])
  {
    hide DependenciesCompleted, RecordsCover;
    var after := records[TaskAt(c, r, i).id := status];
    forall q, j | At(c, q, j) ensures JustifiedAt(after, TaskAt(c, q, j)) {
      if q <= r {
        WriteKeepsDependencies(c, records, r, i, status, q, j);
      }
      assert JustifiedAt(records, TaskAt(c, q, j));
    }
  }

  lemma WriteCovers(c: Config, records: map<string, Status>, r: int, i: int, status: Status)
    requires At(c, r, i) && RecordsCover(c, records)
    ensures RecordsCover(c, records[TaskAt(c, r, i).id := status])
  {
  }

  /** The rank goes on after one of its records is written. */
  lemma WriteRecord(c: Config, s: State, i: int, status: Status)
    requires Planned(c) && Invariant(c, s) && s.phase == InRank && At(c, s.rank, i)
    requires JustifiedAt(s.records[TaskAt(c, s.rank, i).id := status], TaskAt(c, s.rank, i))
    ensures Invariant(c, s.(records := s.records[TaskAt(c, s.rank, i).id := status]))
  {
    hide DependenciesCompleted, RecordsCover, JustifiedAt;
    var t := s.(records := s.records[TaskAt(c, s.rank, i).id := status]);
    WriteJustified(c, s.records, s.rank, i, status);
    WriteCovers(c, s.records, s.rank, i, status);
    forall w | 0 <= w < |t.workers| ensures SlotOk(c, t, w) {
      assert SlotOk(c, s, w);
      if s.workers[w].InFlight? {
        WriteKeepsDependencies(c, s.records, s.rank, i, status, s.rank, s.workers[w].index);
      }
    }
  }

  /** A worker stops holding a task. */
  lemma FreeWorker(c: Config, s: State, w: nat, worker: Worker)
    requires Invariant(c, s) && s.phase == InRank && w < |s.workers| && !worker.InFlight?
    ensures Invariant(c, s.(workers := s.workers[w := worker]))
  {
    hide DependenciesCompleted, RecordsCover, Justified, Untouched;
    var t := s.(workers := s.workers[w := worker]);
    forall v | 0 <= v < |t.workers| ensures SlotOk(c, t, v) {
      assert SlotOk(c, s, v);
    }
  }

  /** A worker takes a task that its place or the counter gives to nobody else. */
  lemma TakeTask(c: Config, s: State, w: nat, index: nat)
    requires Invariant(c, s) && s.phase == InRank && w < |s.workers| && At(c, s.rank, index)
    requires DependenciesCompleted(s.records, TaskAt(c, s.rank, index))
    requires if Unbounded(c, c.ranks[s.rank]) then index == w else index < s.nextIndex
    requires !Unbounded(c, c.ranks[s.rank]) ==>
      forall v :: 0 <= v < |s.workers| && s.workers[v].InFlight? ==> s.workers[v].index != index
    ensures Invariant(c, s.(workers := s.workers[w := InFlight(index)]))
  {
    hide DependenciesCompleted, RecordsCover, Justified, Untouched;
    var t := s.(workers := s.workers[w := InFlight(index)]);
    forall v | 0 <= v < |t.workers|
      ensures SlotOk(c, t, v) && (v != w && t.workers[v].InFlight? ==> t.workers[v].index != index)
    {
      assert SlotOk(c, s, v);
    }
  }

  lemma FlagsInvariant(c: Config, s: State, signalAborted: bool, dagAborted: bool)
    requires Invariant(c, s)
    ensures Invariant(c, s.(signalAborted := signalAborted, dagAborted := dagAborted))
  {
    hide DependenciesCompleted, RecordsCover, Justified, Untouched;
    var t := s.(signalAborted := signalAborted, dagAborted := dagAborted);
    forall w | 0 <= w < |s.workers| && s.rank < |c.ranks| && SlotOk(c, s, w) ensures SlotOk(c, t, w) {
    }
  }

  lemma BeginInvariant(c: Config, s: State, w: nat, index: nat)
    requires Planned(c) && Invariant(c, s) && InRankWorker(c, s, w) && index < |c.ranks[s.rank]|
    requires if Unbounded(c, c.ranks[s.rank]) then index == w else index < s.nextIndex
    requires !Unbounded(c, c.ranks[s.rank]) ==>
      forall v :: 0 <= v < |s.workers| && s.workers[v].InFlight? ==> s.workers[v].index != index
    ensures Invariant(c, Begin(c, s, w, index))
  {
    hide DependenciesCompleted, RecordsCover, Justified, Untouched, Slots;
    var task := TaskAt(c, s.rank, index);
    var idle := Idle(c, c.ranks[s.rank]);
    if s.signalAborted {
      FlagsInvariant(c, s, true, true);
      FreeWorker(c, s.(dagAborted := true), w, idle);
    } else if !DependenciesCompleted(s.records, task) {
      WriteKeepsDependencies(c, s.records, s.rank, index, Skipped, s.rank, index);
      WriteRecord(c, s, index, Skipped);
      FreeWorker(c, s.(records := s.records[task.id := Skipped]), w, idle);
    } else {
      TakeTask(c, s, w, index);
    }
  }

  lemma CountUp(c: Config, s: State)
    requires Invariant(c, s) && s.phase == InRank && !Unbounded(c, c.ranks[s.rank])
    ensures Invariant(c, s.(nextIndex := s.nextIndex + 1))
    ensures forall v :: 0 <= v < |s.workers| && s.workers[v].InFlight? ==> s.workers[v].index != s.nextIndex
  {
    hide DependenciesCompleted, RecordsCover, Justified, Untouched;
    var t := s.(nextIndex := s.nextIndex + 1);
    forall v | 0 <= v < |s.workers| ensures SlotOk(c, t, v) && (s.workers[v].InFlight? ==> s.workers[v].index != s.nextIndex) {
      assert SlotOk(c, s, v);
    }
  }

  lemma AdvanceInvariant(c: Config, s: State, w: nat)
    requires Planned(c) && Invariant(c, s) && Enabled(c, s, Advance(w))
    ensures Invariant(c, Apply(c, s, Advance(w)))
  {
    hide Invariant;
    if Unbounded(c, c.ranks[s.rank]) {
      BeginInvariant(c, s, w, w);
    } else if s.nextIndex >= |c.ranks[s.rank]| || s.signalAborted || s.dagAborted {
      FreeWorker(c, s, w, Finished);
    } else {
      CountUp(c, s);
      BeginInvariant(c, s.(nextIndex := s.nextIndex + 1), w, s.nextIndex);
    }
  }

  lemma CompleteInvariant(c: Config, s: State, w: nat, outcome: Status)
    requires Planned(c) && Invariant(c, s) && Enabled(c, s, Complete(w, outcome))
    ensures Invariant(c, Apply(c, s, Complete(w, outcome)))
  {
    hide DependenciesCompleted, RecordsCover, Justified, Untouched;
    assert SlotOk(c, s, w);
    var index := s.workers[w].index;
    var task := TaskAt(c, s.rank, index);
    WriteKeepsDependencies(c, s.records, s.rank, index, outcome, s.rank, index);
    WriteRecord(c, s, index, outcome);
    FreeWorker(c, s.(records := s.records[task.id := outcome]), w, Idle(c, c.ranks[s.rank]));
  }

  lemma CancelKeepsDependencies(records: map<string, Status>, task: Task)
    ensures DependenciesCompleted(CancelOpen(records), task) <==> DependenciesCompleted(records, task)
  {
  }

  lemma SettleInvariant(c: Config, s: State)
    requires RecordsCover(c, s.records) && Justified(c, s.records)
    ensures Invariant(c, Settle(s))
  {
    hide DependenciesCompleted;
    var records := if s.dagAborted then CancelOpen(s.records) else s.records;
    forall r, i | At(c, r, i) ensures JustifiedAt(records, TaskAt(c, r, i)) {
      assert JustifiedAt(s.records, TaskAt(c, r, i));
      CancelKeepsDependencies(s.records, TaskAt(c, r, i));
    }
    if StatusAfter(records, s.dagAborted) == OverallCompleted {
      forall id | id in records ensures records[id] == Completed || records[id] == Skipped {
        assert records[id] in records.Values;
      }
    }
  }

  lemma EnterRankInvariant(c: Config, s: State)
    requires Invariant(c, s) && s.phase == BetweenRanks
    ensures Invariant(c, Apply(c, s, EnterRank))
  {
    hide DependenciesCompleted, RecordsCover, Justified, Settle;
    if s.rank >= |c.ranks| {
      SettleInvariant(c, s);
    } else if s.signalAborted {
      SettleInvariant(c, s.(dagAborted := true));
    }
  }

  lemma StepInvariant(c: Config, s: State, a: Action)
    requires Planned(c) && Invariant(c, s) && Enabled(c, s, a)
    ensures Invariant(c, Apply(c, s, a))
  {
    match a
    case AbortSignal => FlagsInvariant(c, s, true, s.dagAborted);
    case EnterRank => EnterRankInvariant(c, s);
    case Advance(w) => AdvanceInvariant(c, s, w);
    case Complete(w, outcome) => CompleteInvariant(c, s, w, outcome);
    case Throw(w) => FreeWorker(c, s, w, Rejected);
    case LeaveRank => LeaveRankInvariant(c, s);
  }

  lemma LeaveRankInvariant(c: Config, s: State)
    requires Invariant(c, s) && Enabled(c, s, LeaveRank)
    ensures Invariant(c, Apply(c, s, LeaveRank))
  {
    hide DependenciesCompleted, RecordsCover, Justified, Settle;
    if s.dagAborted || s.signalAborted {
      SettleInvariant(c, s.(dagAborted := true));
    }
  }

  // ---- The invariant is safe ----

  lemma {:induction false} CountAtMost(workers: seq<Worker>)
    ensures InFlightCount(workers) <= |workers|
  {
    if workers != [] {
      CountAtMost(workers[..|workers| - 1]);
    }
  }

  /** With everything completed or skipped, nothing can be skipped: the first skipped task would need a skipped dependency. */
  lemma {:induction false} NothingSkipped(c: Config, records: map<string, Status>, r: nat)
    requires Planned(c) && RecordsCover(c, records) && Justified(c, records) && Conclusive(records)
    ensures forall q, i :: At(c, q, i) && q < r ==> records[TaskAt(c, q, i).id] == Completed
    decreases r
  {
    hide Justified;
    if r > 0 {
      NothingSkipped(c, records, r - 1);
      forall q, i | At(c, q, i) && q == r - 1 ensures records[TaskAt(c, q, i).id] == Completed {
        FirstNotSkipped(c, records, q, i);
      }
    }
  }

  lemma FirstNotSkipped(c: Config, records: map<string, Status>, r: nat, i: int)
    requires Planned(c) && RecordsCover(c, records) && Justified(c, records) && Conclusive(records) && At(c, r, i)
    requires forall q, j :: At(c, q, j) && q < r ==> records[TaskAt(c, q, j).id] == Completed
    ensures records[TaskAt(c, r, i).id] == Completed
  {
    var task := TaskAt(c, r, i);
    forall dep | dep in task.dependencies ensures dep in records && records[dep] == Completed {
      assert Earlier(c, r, dep);
    }
    assert JustifiedAt(records, task);
  }

  lemma SlotsApart(c: Config, s: State, v: int, w: int)
    requires Planned(c) && Invariant(c, s) && s.phase == InRank
    requires forall r :: 0 <= r < |c.ranks| ==> RankOwned(c.ranks[r], c.defaultWorkspace, c.lower)
    requires Flying(c, s, v) && Flying(c, s, w) && v != w
    ensures Apart(c, FlyingTask(c, s, v), FlyingTask(c, s, w))
  {
    hide RankOwned, DisjointTrees, DependenciesCompleted, RecordsCover, Justified, Untouched;
    var i, j := s.workers[v].index, s.workers[w].index;
    assert i != j by {
      if v < w { assert s.workers[v].index != s.workers[w].index; } else { assert s.workers[w].index != s.workers[v].index; }
    }
    var rank := c.ranks[s.rank];
    if Location(rank[i], c.defaultWorkspace) == Location(rank[j], c.defaultWorkspace) {
      if i < j {
        SiblingsDisjoint(rank, i, j, c.defaultWorkspace, c.lower);
      } else {
        SiblingsDisjoint(rank, j, i, c.defaultWorkspace, c.lower);
      }
    }
  }

  lemma InvariantIsSafe(c: Config, s: State)
    requires Planned(c) && Invariant(c, s)
    requires forall r :: 0 <= r < |c.ranks| ==> RankOwned(c.ranks[r], c.defaultWorkspace, c.lower)
    ensures Safe(c, s)
  {
    hide DependenciesCompleted, Planned, RankOwned, Apart;
    if s.phase == InRank {
      forall w | 0 <= w < |s.workers| && s.workers[w].InFlight?
        ensures Flying(c, s, w) && DependenciesCompleted(s.records, FlyingTask(c, s, w))
      {
        assert SlotOk(c, s, w);
      }
      CountAtMost(s.workers);
    }
    forall v, w | Flying(c, s, v) && Flying(c, s, w) && v != w ensures Apart(c, FlyingTask(c, s, v), FlyingTask(c, s, w)) {
      SlotsApart(c, s, v, w);
    }
    if s.phase == Settled(OverallCompleted) {
      NothingSkipped(c, s.records, |c.ranks|);
    }
  }

  lemma {:induction false} RunInvariant(c: Config, run: seq<State>, k: nat)
    requires Planned(c) && IsRun(c, run) && k < |run|
    ensures Invariant(c, run[k])
    decreases k
  {
    hide Invariant, Planned;
    if k == 0 {
      InitInvariant(c, run[0]);
    } else {
      RunInvariant(c, run, k - 1);
      assert Next(c, run[k - 1], run[k]);
      var a :| Enabled(c, run[k - 1], a) && run[k] == Apply(c, run[k - 1], a);
      StepInvariant(c, run[k - 1], a);
    }
  }

  /** Every state of every run of a validated definition is safe. */
  lemma RunsAreSafe(c: Config, graph: Graph, plan: Plan, run: seq<State>)
    requires ValidPlan(graph, plan) && c.ranks == plan.ranks
    requires forall r :: 0 <= r < |c.ranks| ==> RankOwned(c.ranks[r], c.defaultWorkspace, c.lower)
    requires IsRun(c, run)
    ensures forall k :: 0 <= k < |run| ==> Safe(c, run[k])
  {
    hide ValidPlan, RankOwned, IsRun, Safe, Planned, Invariant;
    ValidPlanIsPlanned(graph, plan, c);
    forall k | 0 <= k < |run| ensures Safe(c, run[k]) {
      RunInvariant(c, run, k);
      InvariantIsSafe(c, run[k]);
    }
  }
}
