/** Task graphs: dependency chains, cycles and ranks, and the validator that computes them. */
module DagValidator {
  import opened Wrappers

  datatype Task = Task(
    id: string,
    dependencies: seq<string>,
    workspace: Option<string>,
    worktree: Option<string>,
    ownedPaths: seq<string>)

  type Graph = map<string, Task>

  // ---- Chains, cycles and ranks ----

  ghost predicate Edge(graph: Graph, task: string, dep: string) {
    task in graph && dep in graph && dep in graph[task].dependencies
  }

  /** Each member depends on the next one. */
  ghost predicate Chain(graph: Graph, chain: seq<string>) {
    && chain != []
    && (forall i :: 0 <= i < |chain| ==> chain[i] in graph)
    && forall i :: 0 <= i < |chain| - 1 ==> Edge(graph, chain[i], chain[i + 1])
  }

  lemma ChainShrinks(graph: Graph, chain: seq<string>)
    requires Chain(graph, chain)
    ensures |chain| > 1 ==> Chain(graph, chain[..|chain| - 1])
    ensures chain[|chain| - 1] in graph
  {
    var init := chain[..|chain| - 1];
    forall i | 0 <= i < |init| - 1 ensures Edge(graph, init[i], init[i + 1]) {
      assert Edge(graph, chain[i], chain[i + 1]);
    }
  }

  ghost predicate IsCycle(graph: Graph, cycle: seq<string>) {
    |cycle| >= 2 && Chain(graph, cycle) && cycle[0] == cycle[|cycle| - 1]
  }

  ghost predicate Acyclic(graph: Graph) {
    forall cycle :: !IsCycle(graph, cycle)
  }

  ghost predicate ChainFrom(graph: Graph, id: string, chain: seq<string>) {
    Chain(graph, chain) && chain[0] == id
  }

  /** The number of steps in the longest dependency chain that starts at a task. */
  ghost predicate IsRank(graph: Graph, id: string, rank: nat) {
    && (exists chain :: ChainFrom(graph, id, chain) && |chain| == rank + 1)
    && forall chain :: ChainFrom(graph, id, chain) ==> |chain| <= rank + 1
  }

  ghost predicate Closed(graph: Graph) {
    forall id, dep :: id in graph && dep in graph[id].dependencies ==> dep in graph
  }

  ghost predicate Distinct(s: seq<string>) {
    forall i, j :: 0 <= i < j < |s| ==> s[i] != s[j]
  }

  /** Every task comes after all its dependencies. */
  ghost predicate DependenciesFirst(graph: Graph, order: seq<string>) {
    forall i :: 0 <= i < |order| ==>
      order[i] in graph && forall dep :: dep in graph[order[i]].dependencies ==> dep in order[..i]
  }

  lemma DistinctGrows(s: seq<string>, id: string)
    requires Distinct(s) && id !in s
    ensures Distinct(s + [id])
  {
  }

  /** Without its last element a list of distinct ids is distinct and does not hold it. */
  lemma LastIsApart(s: seq<string>)
    requires Distinct(s) && s != []
    ensures var init := s[..|s| - 1];
      Distinct(init) && s[|s| - 1] !in init && forall id :: id in s <==> id in init || id == s[|s| - 1]
  {
    assert s == s[..|s| - 1] + [s[|s| - 1]];
  }

  lemma DependenciesFirstGrows(graph: Graph, order: seq<string>, id: string)
    requires DependenciesFirst(graph, order) && id in graph
    requires forall dep :: dep in graph[id].dependencies ==> dep in order
    ensures DependenciesFirst(graph, order + [id])
  {
    var longer := order + [id];
    forall i | 0 <= i < |longer|
      ensures longer[i] in graph && forall dep :: dep in graph[longer[i]].dependencies ==> dep in longer[..i]
    {
      if i < |order| {
        assert longer[i] == order[i] && longer[..i] == order[..i];
      } else {
        assert longer[..i] == order;
      }
    }
  }

  function Position(order: seq<string>, id: string): (p: nat)
    requires id in order
    ensures p < |order| && order[p] == id && id !in order[..p]
  {
    if order[0] == id then 0 else 1 + Position(order[1..], id)
  }

  lemma EdgeGoesBack(graph: Graph, order: seq<string>, task: string, dep: string)
    requires DependenciesFirst(graph, order) && task in order && Edge(graph, task, dep)
    ensures dep in order && Position(order, dep) < Position(order, task)
  {
    var p := Position(order, task);
    assert dep in order[..p];
  }

  lemma {:induction false} ChainGoesBack(graph: Graph, order: seq<string>, chain: seq<string>)
    requires DependenciesFirst(graph, order) && Chain(graph, chain) && chain[0] in order
    ensures chain[|chain| - 1] in order
    ensures |chain| >= 2 ==> Position(order, chain[|chain| - 1]) < Position(order, chain[0])
    decreases |chain|
  {
    if |chain| >= 2 {
      assert Edge(graph, chain[0], chain[1]);
      EdgeGoesBack(graph, order, chain[0], chain[1]);
      TailIsChain(graph, chain);
      ChainGoesBack(graph, order, chain[1..]);
    }
  }

  lemma TailIsChain(graph: Graph, chain: seq<string>)
    requires Chain(graph, chain) && |chain| >= 2
    ensures ChainFrom(graph, chain[1], chain[1..])
  {
    var tail := chain[1..];
    forall i | 0 <= i < |tail| - 1 ensures Edge(graph, tail[i], tail[i + 1]) {
      assert Edge(graph, chain[i + 1], chain[i + 2]);
    }
  }

  lemma ConsIsChain(graph: Graph, id: string, chain: seq<string>)
    requires Chain(graph, chain) && Edge(graph, id, chain[0])
    ensures ChainFrom(graph, id, [id] + chain)
  {
    var longer := [id] + chain;
    forall i | 0 <= i < |longer| - 1 ensures Edge(graph, longer[i], longer[i + 1]) {
      if i > 0 {
        assert Edge(graph, chain[i - 1], chain[i]);
      }
    }
  }

  /** A complete order with dependencies first rules every cycle out. */
  lemma OrderedIsAcyclic(graph: Graph, order: seq<string>)
    requires DependenciesFirst(graph, order) && forall id :: id in graph ==> id in order
    ensures Acyclic(graph)
  {
    forall cycle ensures !IsCycle(graph, cycle) {
      if IsCycle(graph, cycle) {
        ChainGoesBack(graph, order, cycle);
      }
    }
  }

  lemma RankUnique(graph: Graph, id: string, a: nat, b: nat)
    requires IsRank(graph, id, a) && IsRank(graph, id, b)
    ensures a == b
  {
  }

  lemma RankOfLeaf(graph: Graph, id: string)
    requires id in graph && graph[id].dependencies == []
    ensures IsRank(graph, id, 0)
  {
    assert ChainFrom(graph, id, [id]);
    forall chain | ChainFrom(graph, id, chain) ensures |chain| <= 1 {
      assert |chain| >= 2 ==> Edge(graph, chain[0], chain[1]);
    }
  }

  /** One more than the greatest rank among the dependencies. */
  lemma RankOfTask(graph: Graph, id: string, deepest: string, ranks: map<string, nat>)
    requires Closed(graph) && id in graph && deepest in graph[id].dependencies
    requires forall dep :: dep in graph[id].dependencies ==> dep in ranks && IsRank(graph, dep, ranks[dep])
    requires forall dep :: dep in graph[id].dependencies ==> ranks[dep] <= ranks[deepest]
    ensures IsRank(graph, id, ranks[deepest] + 1)
  {
    var longest :| ChainFrom(graph, deepest, longest) && |longest| == ranks[deepest] + 1;
    assert Edge(graph, id, deepest);
    ConsIsChain(graph, id, longest);
    forall chain | ChainFrom(graph, id, chain) ensures |chain| <= ranks[deepest] + 2 {
      if |chain| >= 2 {
        assert Edge(graph, chain[0], chain[1]);
        TailIsChain(graph, chain);
        assert |chain[1..]| <= ranks[chain[1]] + 1;
      }
    }
  }

  /** Below a task of positive rank there is a task of the rank just under it. */
  lemma RankBelow(graph: Graph, id: string, rank: nat) returns (dep: string)
    requires IsRank(graph, id, rank) && rank > 0
    ensures Edge(graph, id, dep) && IsRank(graph, dep, rank - 1)
  {
    var chain :| ChainFrom(graph, id, chain) && |chain| == rank + 1;
    dep := chain[1];
    assert Edge(graph, chain[0], chain[1]);
    TailIsChain(graph, chain);
    assert ChainFrom(graph, dep, chain[1..]) && |chain[1..]| == rank;
    forall other | ChainFrom(graph, dep, other) ensures |other| <= rank {
      ConsIsChain(graph, id, other);
      assert |[id] + other| <= rank + 1;
    }
  }

  lemma {:induction false} EveryRankOccurs(graph: Graph, id: string, rank: nat, lower: nat) returns (member: string)
    requires id in graph && IsRank(graph, id, rank) && lower <= rank
    ensures member in graph && IsRank(graph, member, lower)
    decreases rank
  {
    if lower == rank {
      member := id;
    } else {
      var dep := RankBelow(graph, id, rank);
      member := EveryRankOccurs(graph, dep, rank - 1, lower);
    }
  }

  lemma DependencyRanksLower(graph: Graph, id: string, dep: string, rank: nat, depRank: nat)
    requires Edge(graph, id, dep) && IsRank(graph, id, rank) && IsRank(graph, dep, depRank)
    ensures depRank < rank
  {
    var chain :| ChainFrom(graph, dep, chain) && |chain| == depRank + 1;
    ConsIsChain(graph, id, chain);
    assert |[id] + chain| <= rank + 1;
  }

  // ---- The search and the rank computation ----

  class Validation {
    const graph: Graph
    var visited: set<string>
    var recStack: set<string>
    var pathStack: seq<string>
    /** The rank map in the order its keys were first set. */
    var rankMap: map<string, nat>
    var rankOrder: seq<string>
    /** The tasks whose search has returned, in that order. */
    ghost var finished: seq<string>

    constructor (graph: Graph)
      requires Closed(graph)
      ensures this.graph == graph && Searching() && Ranking()
      ensures visited == {} && pathStack == [] && finished == [] && rankOrder == []
    {
      this.graph := graph;
      visited, recStack, pathStack := {}, {}, [];
      rankMap, rankOrder := map[], [];
      finished := [];
    }

    ghost predicate Searching()
      reads `visited, `recStack, `pathStack, `finished
    {
      && Closed(graph)
      && visited <= graph.Keys
      && Distinct(pathStack)
      && (forall id :: id in recStack <==> id in pathStack)
      && (pathStack == [] || Chain(graph, pathStack))
      && (forall id :: id in visited <==> id in recStack || id in finished)
      && (forall id :: id in finished ==> id !in recStack)
      && Distinct(finished)
      && DependenciesFirst(graph, finished)
    }

    method CycleFrom(dep: string) returns (cycle: seq<string>)
      requires Searching() && dep in recStack && Edge(graph, pathStack[|pathStack| - 1], dep)
      ensures IsCycle(graph, cycle)
    {
      var from := Position(pathStack, dep);
      cycle := pathStack[from..] + [dep];
      forall i | 0 <= i < |cycle| - 1 ensures Edge(graph, cycle[i], cycle[i + 1]) {
        if i < |cycle| - 2 {
          assert Edge(graph, pathStack[from + i], pathStack[from + i + 1]);
        }
      }
    }

    ghost function Unvisited(seen: set<string>): nat {
      |graph.Keys - seen|
    }

    lemma UnvisitedShrinks(before: set<string>, after: set<string>, id: string)
      requires before + {id} <= after && id in graph && id !in before
      ensures Unvisited(after) < Unvisited(before)
    {
      SmallerSet(graph.Keys - after, graph.Keys - before, id);
    }

    method Dfs(taskId: string) returns (cycle: Option<seq<string>>)
      requires Searching() && taskId in graph && taskId !in visited
      requires pathStack == [] || Edge(graph, pathStack[|pathStack| - 1], taskId)
      modifies this`visited, this`recStack, this`pathStack, this`finished
      ensures cycle.Some? ==> IsCycle(graph, cycle.value)
      ensures cycle.None? ==>
        && Searching()
        && pathStack == old(pathStack)
        && old(finished) <= finished
        && old(visited) <= visited
        && taskId in finished
      decreases Unvisited(visited)
    {
      hide Searching, DependenciesFirst, Chain, IsCycle, Unvisited;
      Push(taskId);
      var dependencies := graph[taskId].dependencies;
      for i := 0 to |dependencies|
        invariant Searching()
        invariant pathStack == old(pathStack) + [taskId]
        invariant old(finished) <= finished && old(visited) + {taskId} <= visited
        invariant forall h :: 0 <= h < i ==> dependencies[h] in finished
      {
        var dep := dependencies[i];
        SearchFacts(taskId, dep);
        if dep !in visited {
          UnvisitedShrinks(old(visited), visited, taskId);
          cycle := Dfs(dep);
          if cycle.Some? { return; }
        } else if dep in recStack {
          var found := CycleFrom(dep);
          return Some(found);
        }
      }
      Pop(taskId);
      return None;
    }

    /** Every visited task is on the path or finished, and every dependency is a task. */
    lemma SearchFacts(taskId: string, dep: string)
      requires Searching() && taskId in graph && dep in graph[taskId].dependencies
      ensures Edge(graph, taskId, dep)
      ensures dep in visited && dep !in recStack ==> dep in finished
    {
    }

    method Push(taskId: string)
      requires Searching() && taskId in graph && taskId !in visited
      requires pathStack == [] || Edge(graph, pathStack[|pathStack| - 1], taskId)
      modifies this`visited, this`recStack, this`pathStack
      ensures Searching() && pathStack == old(pathStack) + [taskId] && visited == old(visited) + {taskId}
    {
      visited := visited + {taskId};
      recStack := recStack + {taskId};
      pathStack := pathStack + [taskId];
      forall i | 0 <= i < |pathStack| - 1 ensures Edge(graph, pathStack[i], pathStack[i + 1]) {
        if i < |pathStack| - 2 {
          assert Edge(graph, old(pathStack)[i], old(pathStack)[i + 1]);
        }
      }
    }

    method Pop(taskId: string)
      requires Searching() && pathStack != [] && pathStack[|pathStack| - 1] == taskId
      requires forall dep :: dep in graph[taskId].dependencies ==> dep in finished
      modifies this`recStack, this`pathStack, this`finished
      ensures Searching() && pathStack == old(pathStack)[..|old(pathStack)| - 1] && finished == old(finished) + [taskId]
    {
      assert taskId in recStack && taskId in graph && taskId !in finished;
      LastIsApart(pathStack);
      ChainShrinks(graph, pathStack);
      DistinctGrows(finished, taskId);
      DependenciesFirstGrows(graph, finished, taskId);
      hide Distinct, DependenciesFirst, Chain;
      recStack := recStack - {taskId};
      pathStack := pathStack[..|pathStack| - 1];
      finished := finished + [taskId];
    }

    ghost predicate Ranking()
      reads `rankMap, `rankOrder
    {
      && Distinct(rankOrder)
      && (forall id :: id in rankMap <==> id in rankOrder)
      && forall id :: id in rankMap ==> id in graph && IsRank(graph, id, rankMap[id])
    }

    ghost predicate Sorted()
      reads `finished
    {
      && Closed(graph)
      && DependenciesFirst(graph, finished)
      && forall id :: id in graph ==> id in finished
    }

    /** A dependency is a task that was finished strictly earlier. */
    lemma SortedFacts(taskId: string, dep: string)
      requires Sorted() && taskId in graph && dep in graph[taskId].dependencies
      ensures taskId in finished && dep in finished && dep in graph
      ensures Position(finished, dep) < Position(finished, taskId)
    {
      assert Edge(graph, taskId, dep);
      EdgeGoesBack(graph, finished, taskId, dep);
    }

    lemma RankFromDependencies(taskId: string, deepest: string)
      requires Sorted() && Ranking() && taskId in graph && deepest in graph[taskId].dependencies
      requires forall dep :: dep in graph[taskId].dependencies ==> dep in rankMap
      requires deepest in rankMap && forall dep :: dep in graph[taskId].dependencies ==> rankMap[dep] <= rankMap[deepest]
      ensures IsRank(graph, taskId, rankMap[deepest] + 1)
      ensures taskId in rankMap ==> rankMap[taskId] == rankMap[deepest] + 1
    {
      RankOfTask(graph, taskId, deepest, rankMap);
      if taskId in rankMap {
        RankUnique(graph, taskId, rankMap[deepest] + 1, rankMap[taskId]);
      }
    }

    method ComputeRank(taskId: string) returns (rank: nat)
      requires Sorted() && Ranking() && taskId in graph
      modifies this`rankMap, this`rankOrder
      ensures Ranking() && taskId in rankMap && rankMap[taskId] == rank
      ensures forall id :: id in old(rankMap) ==> id in rankMap && rankMap[id] == old(rankMap)[id]
      decreases if taskId in finished then Position(finished, taskId) else 0
    {
      hide Ranking, Sorted, DependenciesFirst, IsRank, Position;
      if taskId in rankMap {
        return rankMap[taskId];
      }
      var dependencies := graph[taskId].dependencies;
      if dependencies == [] {
        RankOfLeaf(graph, taskId);
        SetRank(taskId, 0);
        return 0;
      }
      var maxDepRank := -1;
      ghost var deepest := dependencies[0];
      for i := 0 to |dependencies|
        invariant Ranking()
        invariant forall id :: id in old(rankMap) ==> id in rankMap && rankMap[id] == old(rankMap)[id]
        invariant forall h :: 0 <= h < i ==> dependencies[h] in rankMap && rankMap[dependencies[h]] <= maxDepRank
        invariant i == 0 <==> maxDepRank == -1
        invariant i > 0 ==> deepest in dependencies && deepest in rankMap && rankMap[deepest] == maxDepRank
      {
        SortedFacts(taskId, dependencies[i]);
        var depRank := ComputeRank(dependencies[i]);
        if depRank > maxDepRank {
          maxDepRank := depRank;
          deepest := dependencies[i];
        }
      }
      rank := maxDepRank + 1;
      RankFromDependencies(taskId, deepest);
      SetRank(taskId, rank);
    }

    /** Map.set keeps the position of a key that is already there. */
    method SetRank(taskId: string, rank: nat)
      requires Ranking() && taskId in graph && IsRank(graph, taskId, rank)
      requires taskId in rankMap ==> rankMap[taskId] == rank
      modifies this`rankMap, this`rankOrder
      ensures Ranking() && rankMap == old(rankMap)[taskId := rank]
    {
      if taskId !in rankMap {
        rankOrder := rankOrder + [taskId];
      }
      rankMap := rankMap[taskId := rank];
    }

    method MaxRank() returns (max: nat, ghost id: string)
      requires Ranking() && rankOrder != []
      ensures id in rankMap && rankMap[id] == max
      ensures forall other :: other in rankMap ==> rankMap[other] <= max
    {
      max, id := rankMap[rankOrder[0]], rankOrder[0];
      for i := 1 to |rankOrder|
        invariant id in rankMap && rankMap[id] == max
        invariant forall h :: 0 <= h < i ==> rankMap[rankOrder[h]] <= max
      {
        if rankMap[rankOrder[i]] > max {
          max, id := rankMap[rankOrder[i]], rankOrder[i];
        }
      }
    }

    /** The tasks of one rank, in the order the rank map lists them. */
    method TasksInRank(r: nat) returns (tasksInRank: seq<Task>)
      requires RanksAgree(rankOrder, rankMap) && rankMap.Keys <= graph.Keys && IdsMatch(graph)
      ensures TaskIds(tasksInRank) == Bucket(rankOrder, rankMap, r)
      ensures FromGraph(graph, tasksInRank)
    {
      hide Bucket, TaskIds;
      tasksInRank := [];
      BucketNone(rankMap, r);
      assert rankOrder[..0] == [];
      for k := 0 to |rankOrder|
        invariant RanksAgree(rankOrder[..k], rankMap)
        invariant TaskIds(tasksInRank) == Bucket(rankOrder[..k], rankMap, r)
        invariant FromGraph(graph, tasksInRank)
      {
        var id := rankOrder[k];
        BucketStep(rankOrder, rankMap, r, k);
        if rankMap[id] == r {
          TaskIdsStep(tasksInRank, graph[id]);
          tasksInRank := tasksInRank + [graph[id]];
        }
      }
      assert rankOrder[..|rankOrder|] == rankOrder;
    }

    ghost predicate Ranked()
      reads `finished, `rankMap, `rankOrder
    {
      && Sorted() && Ranking() && IdsMatch(graph)
      && forall id :: id in graph ==> id in rankMap
    }

    method PlaceRank(r: nat, ghost top: string, ghost placed: seq<string>) returns (tasksInRank: seq<Task>)
      requires Ranked() && top in rankMap && r <= rankMap[top] && Placed(graph, rankMap, placed, r)
      ensures RankGroup(graph, tasksInRank, r)
      ensures Placed(graph, rankMap, placed + TaskIds(tasksInRank), r + 1)
    {
      hide IsRank, Bucket, Placed, RankGroup, DependenciesFirst;
      tasksInRank := TasksInRank(r);
      BucketMembers(rankOrder, rankMap, r);
      AppendRank(graph, rankMap, placed, TaskIds(tasksInRank), r);
      var member := EveryRankOccurs(graph, top, rankMap[top], r);
      RankUnique(graph, member, r, rankMap[member]);
      BucketIsGroup(graph, rankMap, tasksInRank, r, member);
    }

    method GroupByRank() returns (plan: Plan)
      requires Ranked() && rankOrder != []
      ensures ValidPlan(graph, plan)
    {
      hide IsRank, Placed, RankGroup, TaskIds, DependenciesFirst;
      var maxRank, top := MaxRank();
      var ranks: seq<seq<Task>> := [];
      var topologicalOrder: seq<string> := [];
      NothingPlaced(graph, rankMap);
      for r := 0 to maxRank + 1
        invariant |ranks| == r && topologicalOrder == Concat(ranks)
        invariant Placed(graph, rankMap, topologicalOrder, r)
        invariant forall q :: 0 <= q < r ==> RankGroup(graph, ranks[q], q)
      {
        var tasksInRank := PlaceRank(r, top, topologicalOrder);
        topologicalOrder := topologicalOrder + TaskIds(tasksInRank);
        assert (ranks + [tasksInRank])[..r] == ranks;
        ranks := ranks + [tasksInRank];
      }
      plan := Plan(ranks, topologicalOrder);
      AllPlaced(graph, rankMap, topologicalOrder, maxRank + 1);
    }
  }

  // ---- Grouping by rank ----

  datatype Plan = Plan(ranks: seq<seq<Task>>, topologicalOrder: seq<string>)

  /** The map files every task under its own id. */
  ghost predicate IdsMatch(graph: Graph) {
    forall id :: id in graph ==> graph[id].id == id
  }

  function TaskIds(tasks: seq<Task>): seq<string> {
    seq(|tasks|, i requires 0 <= i < |tasks| => tasks[i].id)
  }

  function Concat(ranks: seq<seq<Task>>): seq<string> {
    if ranks == [] then [] else Concat(ranks[..|ranks| - 1]) + TaskIds(ranks[|ranks| - 1])
  }

  /** A rank is not empty and holds exactly the tasks whose longest chain has that length. */
  ghost predicate RankGroup(graph: Graph, group: seq<Task>, r: nat) {
    && group != []
    && FromGraph(graph, group)
    && forall id :: id in graph ==> (id in TaskIds(group) <==> IsRank(graph, id, r))
  }

  ghost predicate ValidPlan(graph: Graph, plan: Plan) {
    && (forall r :: 0 <= r < |plan.ranks| ==> RankGroup(graph, plan.ranks[r], r))
    && plan.topologicalOrder == Concat(plan.ranks)
    && Distinct(plan.topologicalOrder)
    && (forall id :: id in plan.topologicalOrder <==> id in graph)
    && DependenciesFirst(graph, plan.topologicalOrder)
  }

  ghost predicate RanksAgree(order: seq<string>, ranks: map<string, nat>) {
    forall i :: 0 <= i < |order| ==> order[i] in ranks
  }

  ghost function Bucket(order: seq<string>, ranks: map<string, nat>, r: nat): seq<string>
    requires RanksAgree(order, ranks)
  {
    if order == [] then []
    else
      Bucket(order[..|order| - 1], ranks, r) + if ranks[order[|order| - 1]] == r then [order[|order| - 1]] else []
  }

  lemma {:induction false} BucketMembers(order: seq<string>, ranks: map<string, nat>, r: nat)
    requires RanksAgree(order, ranks) && Distinct(order)
    ensures Distinct(Bucket(order, ranks, r))
    ensures forall id :: id in Bucket(order, ranks, r) <==> id in order && ranks[id] == r
  {
    if order != [] {
      BucketMembers(order[..|order| - 1], ranks, r);
      assert order == order[..|order| - 1] + [order[|order| - 1]];
    }
  }

  /** The tasks of rank below r have been placed, dependencies first, and no others. */
  ghost predicate Placed(graph: Graph, ranks: map<string, nat>, order: seq<string>, r: nat) {
    && Distinct(order)
    && DependenciesFirst(graph, order)
    && (forall id :: id in order ==> id in ranks)
    && forall id :: id in ranks ==> (id in order <==> ranks[id] < r)
  }

  ghost predicate FromGraph(graph: Graph, tasks: seq<Task>) {
    forall task :: task in tasks ==> task.id in graph && graph[task.id] == task
  }

  lemma BucketNone(ranks: map<string, nat>, r: nat)
    ensures TaskIds([]) == Bucket([], ranks, r)
  {
  }

  lemma BucketStep(order: seq<string>, ranks: map<string, nat>, r: nat, k: nat)
    requires k < |order| && RanksAgree(order, ranks)
    ensures Bucket(order[..k + 1], ranks, r) == Bucket(order[..k], ranks, r) + if ranks[order[k]] == r then [order[k]] else []
  {
    assert order[..k + 1][..k] == order[..k];
  }

  lemma TaskIdsStep(tasks: seq<Task>, task: Task)
    ensures TaskIds(tasks + [task]) == TaskIds(tasks) + [task.id]
  {
  }

  lemma AllPlaced(graph: Graph, ranks: map<string, nat>, order: seq<string>, r: nat)
    requires Placed(graph, ranks, order, r)
    requires forall id :: id in graph <==> id in ranks
    requires forall id :: id in ranks ==> ranks[id] < r
    ensures Distinct(order) && DependenciesFirst(graph, order) && forall id :: id in order <==> id in graph
  {
  }

  lemma NothingPlaced(graph: Graph, ranks: map<string, nat>)
    ensures Placed(graph, ranks, [], 0)
  {
  }

  lemma AppendRank(graph: Graph, ranks: map<string, nat>, order: seq<string>, bucket: seq<string>, r: nat)
    requires Closed(graph) && Placed(graph, ranks, order, r) && Distinct(bucket)
    requires forall id :: id in graph <==> id in ranks
    requires forall id :: id in ranks ==> IsRank(graph, id, ranks[id])
    requires forall id :: id in bucket <==> id in ranks && ranks[id] == r
    ensures Placed(graph, ranks, order + bucket, r + 1)
  {
    var next := order + bucket;
    forall i | 0 <= i < |next|
      ensures next[i] in graph && forall dep :: dep in graph[next[i]].dependencies ==> dep in next[..i]
    {
      if i < |order| {
        assert next[..i] == order[..i];
      } else {
        assert next[i] == bucket[i - |order|];
        forall dep | dep in graph[next[i]].dependencies ensures dep in next[..i] {
          assert Edge(graph, next[i], dep);
          DependencyRanksLower(graph, next[i], dep, r, ranks[dep]);
          assert next[..i] == order + bucket[..i - |order|];
        }
      }
    }
  }

  lemma BucketIsGroup(graph: Graph, ranks: map<string, nat>, group: seq<Task>, r: nat, member: string)
    requires forall id :: id in graph <==> id in ranks
    requires forall id :: id in ranks ==> IsRank(graph, id, ranks[id])
    requires FromGraph(graph, group)
    requires forall id :: id in TaskIds(group) <==> id in ranks && ranks[id] == r
    requires member in ranks && ranks[member] == r
    ensures RankGroup(graph, group, r)
  {
    assert member in TaskIds(group);
    forall id | id in graph ensures id in TaskIds(group) <==> IsRank(graph, id, r) {
      if IsRank(graph, id, r) {
        RankUnique(graph, id, r, ranks[id]);
      }
    }
  }

  lemma SmallerSet<T>(a: set<T>, b: set<T>, x: T)
    requires a <= b && x in b && x !in a
    ensures |a| < |b|
  {
    assert b == a + (b - a);
    assert b - a != {};
  }

  // ---- The validator ----

  datatype DagError =
    | Empty
    | TaskIdInvalid
    | DuplicateTaskId(id: string)
    | SelfDependency(id: string)
    | DependencyNotFound(id: string, dep: string)
    | Cycle(cycle: seq<string>)

  /** The characters String.prototype.trim removes. */
  predicate IsSpace(c: char) {
    || '\U{9}' <= c <= '\U{D}' || c == ' ' || c == '\U{A0}' || c == '\U{1680}' || '\U{2000}' <= c <= '\U{200A}'
    || c == '\U{2028}' || c == '\U{2029}' || c == '\U{202F}' || c == '\U{205F}' || c == '\U{3000}' || c == '\U{FEFF}'
  }

  predicate Blank(id: string) {
    forall c :: c in id ==> IsSpace(c)
  }

  function GraphOf(tasks: seq<Task>): Graph {
    if tasks == [] then map[]
    else GraphOf(tasks[..|tasks| - 1])[tasks[|tasks| - 1].id := tasks[|tasks| - 1]]
  }

  ghost predicate IdsFine(tasks: seq<Task>) {
    && (forall i :: 0 <= i < |tasks| ==> !Blank(tasks[i].id))
    && Distinct(TaskIds(tasks))
  }

  ghost predicate TaskDependenciesFine(task: Task, graph: Graph) {
    forall dep :: dep in task.dependencies ==> dep != task.id && dep in graph
  }

  ghost predicate DependenciesFine(tasks: seq<Task>) {
    forall task :: task in tasks ==> TaskDependenciesFine(task, GraphOf(tasks))
  }

  ghost predicate WellFormed(tasks: seq<Task>) {
    tasks != [] && IdsFine(tasks) && DependenciesFine(tasks)
  }

  lemma {:induction false} GraphOfTasks(tasks: seq<Task>)
    ensures IdsMatch(GraphOf(tasks))
    ensures forall id :: id in GraphOf(tasks) <==> id in TaskIds(tasks)
  {
    if tasks != [] {
      var init, last := tasks[..|tasks| - 1], tasks[|tasks| - 1];
      GraphOfTasks(init);
      TaskIdsStep(init, last);
      assert tasks == init + [last];
    }
  }

  /** What an error says about the definition. */
  ghost predicate Reports(error: DagError, tasks: seq<Task>) {
    match error
    case Empty => tasks == []
    case TaskIdInvalid => exists i :: 0 <= i < |tasks| && IdsFine(tasks[..i]) && Blank(tasks[i].id)
    case DuplicateTaskId(id) =>
      exists i :: 0 <= i < |tasks| && IdsFine(tasks[..i]) && !Blank(id) && tasks[i].id == id && id in TaskIds(tasks[..i])
    case SelfDependency(id) =>
      IdsFine(tasks) && exists task :: task in tasks && task.id == id && id in task.dependencies
    case DependencyNotFound(id, dep) =>
      IdsFine(tasks) && dep !in GraphOf(tasks) && exists task :: task in tasks && task.id == id && dep in task.dependencies
    case Cycle(cycle) => WellFormed(tasks) && IsCycle(GraphOf(tasks), cycle)
  }

  /** Reading one more task with a fresh id. */
  lemma TaskMapStep(tasks: seq<Task>, i: nat)
    requires i < |tasks| && IdsFine(tasks[..i])
    ensures GraphOf(tasks[..i + 1]) == GraphOf(tasks[..i])[tasks[i].id := tasks[i]]
    ensures TaskIds(tasks[..i + 1]) == TaskIds(tasks[..i]) + [tasks[i].id]
    ensures !Blank(tasks[i].id) && tasks[i].id !in GraphOf(tasks[..i]) ==> IdsFine(tasks[..i + 1])
    ensures tasks[i].id in GraphOf(tasks[..i]) ==> tasks[i].id in TaskIds(tasks[..i]) && !IdsFine(tasks)
  {
    assert tasks[..i + 1][..i] == tasks[..i];
    assert tasks[..i + 1] == tasks[..i] + [tasks[i]];
    GraphOfTasks(tasks[..i]);
    TaskIdsStep(tasks[..i], tasks[i]);
    if tasks[i].id in TaskIds(tasks[..i]) {
      var h :| 0 <= h < i && TaskIds(tasks[..i])[h] == tasks[i].id;
      assert TaskIds(tasks)[h] == TaskIds(tasks)[i];
    }
  }

  method BuildTaskMap(tasks: seq<Task>) returns (r: Result<Graph, DagError>, ids: seq<string>)
    ensures r.Ok? <==> IdsFine(tasks)
    ensures r.Ok? ==> r.value == GraphOf(tasks) && ids == TaskIds(tasks)
    ensures r.Err? ==> Reports(r.error, tasks)
  {
    hide Blank, GraphOf, TaskIds, Distinct;
    var taskMap: Graph := map[];
    ids := [];
    EmptyTaskMap();
    assert tasks[..0] == [];
    for i := 0 to |tasks|
      invariant IdsFine(tasks[..i])
      invariant taskMap == GraphOf(tasks[..i])
      invariant ids == TaskIds(tasks[..i])
    {
      var task := tasks[i];
      TaskMapStep(tasks, i);
      if Blank(task.id) {
        return Err(TaskIdInvalid), ids;
      }
      if task.id in taskMap {
        return Err(DuplicateTaskId(task.id)), ids;
      }
      taskMap := taskMap[task.id := task];
      ids := ids + [task.id];
    }
    assert tasks[..|tasks|] == tasks;
    r := Ok(taskMap);
  }

  lemma EmptyTaskMap()
    ensures GraphOf([]) == map[] && TaskIds([]) == [] && IdsFine([])
  {
  }

  method CheckDependencies(tasks: seq<Task>, taskMap: Graph) returns (error: Option<DagError>)
    requires IdsFine(tasks) && taskMap == GraphOf(tasks)
    ensures error.None? <==> DependenciesFine(tasks)
    ensures error.Some? ==> Reports(error.value, tasks)
  {
    hide IdsFine, GraphOf;
    for i := 0 to |tasks|
      invariant forall h :: 0 <= h < i ==> TaskDependenciesFine(tasks[h], taskMap)
    {
      var task := tasks[i];
      for k := 0 to |task.dependencies|
        invariant forall h :: 0 <= h < k ==> task.dependencies[h] != task.id && task.dependencies[h] in taskMap
      {
        var dep := task.dependencies[k];
        if dep == task.id || dep !in taskMap {
          assert dep in task.dependencies && task in tasks;
          assert !TaskDependenciesFine(task, taskMap);
          if dep == task.id {
            return Some(SelfDependency(task.id));
          }
          return Some(DependencyNotFound(task.id, dep));
        }
      }
    }
    return None;
  }

  lemma {:induction false} GraphHoldsTasks(tasks: seq<Task>)
    ensures forall id :: id in GraphOf(tasks) ==> GraphOf(tasks)[id] in tasks
  {
    if tasks != [] {
      GraphHoldsTasks(tasks[..|tasks| - 1]);
    }
  }

  lemma WellFormedGraph(tasks: seq<Task>)
    requires WellFormed(tasks)
    ensures Closed(GraphOf(tasks)) && IdsMatch(GraphOf(tasks))
    ensures TaskIds(tasks) != [] && forall id :: id in GraphOf(tasks) <==> id in TaskIds(tasks)
  {
    GraphOfTasks(tasks);
    GraphHoldsTasks(tasks);
  }

  method ValidateDag(tasks: seq<Task>) returns (r: Result<Plan, DagError>)
    ensures r.Ok? <==> WellFormed(tasks) && Acyclic(GraphOf(tasks))
    ensures r.Ok? ==> ValidPlan(GraphOf(tasks), r.value)
    ensures r.Err? ==> Reports(r.error, tasks)
  {
    if tasks == [] {
      return Err(Empty);
    }
    var built, ids := BuildTaskMap(tasks);
    if built.Err? {
      return Err(built.error);
    }
    var taskMap := built.value;
    var broken := CheckDependencies(tasks, taskMap);
    if broken.Some? {
      return Err(broken.value);
    }
    WellFormedGraph(tasks);
    hide *;
    r := RankTasks(taskMap, ids);
  }

  /** The searches from every task in turn; without a cycle they finish every task. */
  method SearchAll(validation: Validation, ids: seq<string>) returns (cycle: Option<seq<string>>)
    requires validation.Searching() && validation.pathStack == []
    requires forall id :: id in validation.graph <==> id in ids
    modifies validation`visited, validation`recStack, validation`pathStack, validation`finished
    ensures cycle.None? ==> validation.Sorted()
    ensures cycle.Some? ==> IsCycle(validation.graph, cycle.value)
  {
    hide DependenciesFirst, Chain, IsCycle;
    for i := 0 to |ids|
      invariant validation.Searching() && validation.pathStack == []
      invariant forall h :: 0 <= h < i ==> ids[h] in validation.finished
    {
      if ids[i] !in validation.visited {
        cycle := validation.Dfs(ids[i]);
        if cycle.Some? { return; }
      }
    }
    return None;
  }

  method RankTasks(taskMap: Graph, ids: seq<string>) returns (r: Result<Plan, DagError>)
    requires Closed(taskMap) && IdsMatch(taskMap) && ids != []
    requires forall id :: id in taskMap <==> id in ids
    ensures r.Ok? <==> Acyclic(taskMap)
    ensures r.Ok? ==> ValidPlan(taskMap, r.value)
    ensures r.Err? ==> r.error.Cycle? && IsCycle(taskMap, r.error.cycle)
  {
    hide DependenciesFirst, IsCycle, ValidPlan, IsRank;
    var validation := new Validation(taskMap);
    var cycle := SearchAll(validation, ids);
    if cycle.Some? {
      assert !Acyclic(taskMap);
      return Err(Cycle(cycle.value));
    }
    OrderedIsAcyclic(taskMap, validation.finished);
    for i := 0 to |ids|
      invariant validation.Sorted() && validation.Ranking()
      invariant forall h :: 0 <= h < i ==> ids[h] in validation.rankMap
    {
      var _ := validation.ComputeRank(ids[i]);
    }
    assert ids[0] in validation.rankOrder;
    var plan := validation.GroupByRank();
    r := Ok(plan);
  }
}
