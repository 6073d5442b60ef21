/** Edit ownership among the tasks of one rank: siblings at one location own disjoint path trees. */
module DagOwnership {
  import opened Wrappers
  import opened DagValidator
  import opened PathClaims

  function Location(task: Task, defaultWorkspace: string): string {
    match task.worktree
    case Some(worktree) => worktree
    case None =>
      match task.workspace
      case Some(workspace) => workspace
      case None => defaultWorkspace
  }

  predicate Edits(task: Task) {
    task.ownedPaths != []
  }

  function AtLocation(tasks: seq<Task>, location: string, defaultWorkspace: string): seq<Task> {
    if tasks == [] then []
    else
      AtLocation(tasks[..|tasks| - 1], location, defaultWorkspace) +
      if Location(tasks[|tasks| - 1], defaultWorkspace) == location then [tasks[|tasks| - 1]] else []
  }

  function Editing(tasks: seq<Task>): seq<Task> {
    if tasks == [] then []
    else Editing(tasks[..|tasks| - 1]) + if Edits(tasks[|tasks| - 1]) then [tasks[|tasks| - 1]] else []
  }

  function ClaimsOf(tasks: seq<Task>): seq<Claim> {
    seq(|tasks|, i requires 0 <= i < |tasks| => Claim(tasks[i].id, tasks[i].ownedPaths))
  }

  function Editors(rank: seq<Task>, location: string, defaultWorkspace: string): seq<Task> {
    Editing(AtLocation(rank, location, defaultWorkspace))
  }

  /** What is claimed at one location of a rank. */
  function ClaimsAt(rank: seq<Task>, location: string, defaultWorkspace: string): seq<Claim> {
    ClaimsOf(Editors(rank, location, defaultWorkspace))
  }

  ghost predicate LocationOwned(rank: seq<Task>, location: string, defaultWorkspace: string, lower: string -> string) {
    |ClaimsAt(rank, location, defaultWorkspace)| >= 2 ==>
      Exclusive(Flatten(ClaimsAt(rank, location, defaultWorkspace)), lower)
  }

  ghost predicate RankOwned(rank: seq<Task>, defaultWorkspace: string, lower: string -> string) {
    forall location :: LocationOwned(rank, location, defaultWorkspace, lower)
  }

  /** The groups in the order their locations first occur. */
  method GroupByLocation(rank: seq<Task>, defaultWorkspace: string)
    returns (groups: map<string, seq<Task>>, locations: seq<string>)
    ensures forall location :: location in groups <==> location in locations
    ensures forall location :: location in groups ==> groups[location] == AtLocation(rank, location, defaultWorkspace)
    ensures forall location :: location !in groups ==> AtLocation(rank, location, defaultWorkspace) == []
  {
    hide AtLocation, Location;
    groups, locations := map[], [];
    assert rank[..0] == [];
    forall location ensures AtLocation([], location, defaultWorkspace) == [] {
      NobodyAtAll(location, defaultWorkspace);
    }
    for i := 0 to |rank|
      invariant forall location :: location in groups <==> location in locations
      invariant forall location :: location in groups ==> groups[location] == AtLocation(rank[..i], location, defaultWorkspace)
      invariant forall location :: location !in groups ==> AtLocation(rank[..i], location, defaultWorkspace) == []
    {
      forall other {
        AtLocationStep(rank, i, other, defaultWorkspace);
      }
      var location := Location(rank[i], defaultWorkspace);
      if location !in groups {
        locations := locations + [location];
      }
      groups := groups[location := (if location in groups then groups[location] else []) + [rank[i]]];
    }
    assert rank[..|rank|] == rank;
  }

  lemma NobodyAtAll(location: string, defaultWorkspace: string)
    ensures AtLocation([], location, defaultWorkspace) == []
  {
  }

  lemma AtLocationStep(rank: seq<Task>, i: nat, location: string, defaultWorkspace: string)
    requires i < |rank|
    ensures AtLocation(rank[..i + 1], location, defaultWorkspace) ==
      AtLocation(rank[..i], location, defaultWorkspace) + if Location(rank[i], defaultWorkspace) == location then [rank[i]] else []
  {
    assert rank[..i + 1][..i] == rank[..i];
  }

  method ValidateRank(rank: seq<Task>, defaultWorkspace: string, lower: string -> string)
    returns (error: Option<ClaimError>, location: string)
    ensures error.None? <==> RankOwned(rank, defaultWorkspace, lower)
    ensures error.Some? ==> exists k :: Explains(error.value, Flatten(ClaimsAt(rank, location, defaultWorkspace)), k, lower)
  {
    hide AtLocation, Flatten, Exclusive, Explains, Editing;
    location := "";
    var groups, locations := GroupByLocation(rank, defaultWorkspace);
    for i := 0 to |locations|
      invariant forall h :: 0 <= h < i ==> LocationOwned(rank, locations[h], defaultWorkspace, lower)
    {
      location := locations[i];
      var editingTasks := Editing(groups[location]);
      if |editingTasks| > 1 {
        error := AssertExclusivePathClaims(ClaimsOf(editingTasks), lower);
        if error.Some? {
          assert !LocationOwned(rank, location, defaultWorkspace, lower);
          return;
        }
      }
    }
    forall other ensures LocationOwned(rank, other, defaultWorkspace, lower) {
      if other !in groups {
        NobodyThere(rank, other, defaultWorkspace);
      }
    }
    error := None;
  }

  lemma NobodyThere(rank: seq<Task>, location: string, defaultWorkspace: string)
    requires AtLocation(rank, location, defaultWorkspace) == []
    ensures ClaimsAt(rank, location, defaultWorkspace) == []
  {
  }

  method ValidateRankEditOwnership(ranks: seq<seq<Task>>, defaultWorkspace: string, lower: string -> string)
    returns (error: Option<ClaimError>, location: string)
    ensures error.None? <==> forall r :: 0 <= r < |ranks| ==> RankOwned(ranks[r], defaultWorkspace, lower)
    ensures error.Some? ==> exists r, k ::
      0 <= r < |ranks| && Explains(error.value, Flatten(ClaimsAt(ranks[r], location, defaultWorkspace)), k, lower)
  {
    location := "";
    hide RankOwned, Flatten, Explains, ClaimsAt;
    for r := 0 to |ranks|
      invariant forall q :: 0 <= q < r ==> RankOwned(ranks[q], defaultWorkspace, lower)
    {
      error, location := ValidateRank(ranks[r], defaultWorkspace, lower);
      if error.Some? { return; }
    }
    error := None;
  }

  // ---- What the check gives two siblings ----

  /** Paths of two different claims never overlap. */
  lemma ClaimsApart(claims: seq<Claim>, a: nat, b: nat, p: string, q: string, lower: string -> string)
    requires Exclusive(Flatten(claims), lower) && a < b < |claims| && p in claims[a].paths && q in claims[b].paths
    ensures !Overlaps(lower(q), lower(p))
  {
    hide Overlaps, CanonicalizeOwnedPath, Flatten;
    var startA, startB := |Flatten(claims[..a])|, |Flatten(claims[..b])|;
    FlattenEntry(claims, a, startA);
    FlattenEntry(claims, b, startB);
    assert claims[..b][..a + 1] == claims[..a + 1];
    FlattenPrefix(claims[..b], a + 1);
    var x :| 0 <= x < |claims[a].paths| && claims[a].paths[x] == p;
    var y :| 0 <= y < |claims[b].paths| && claims[b].paths[y] == q;
    assert Flatten(claims)[startA + x].path == p && Flatten(claims)[startB + y].path == q;
  }

  lemma EditorsStep(init: seq<Task>, last: Task, location: string, defaultWorkspace: string)
    ensures Editors(init + [last], location, defaultWorkspace) ==
      Editors(init, location, defaultWorkspace) +
      if Location(last, defaultWorkspace) == location && Edits(last) then [last] else []
  {
    hide Edits, Location;
    var group := AtLocation(init, location, defaultWorkspace);
    assert (init + [last])[..|init|] == init;
    assert (group + [last])[..|group|] == group;
    assert group + [] == group;
  }

  /** Two editors at one location keep their order in the group. */
  lemma {:induction false} EditorsKeepOrder(rank: seq<Task>, i: nat, j: nat, location: string, defaultWorkspace: string)
    returns (a: nat, b: nat)
    requires i < j < |rank| && Edits(rank[i]) && Edits(rank[j])
    requires Location(rank[i], defaultWorkspace) == Location(rank[j], defaultWorkspace) == location
    ensures a < b < |Editors(rank, location, defaultWorkspace)|
    ensures Editors(rank, location, defaultWorkspace)[a] == rank[i]
    ensures Editors(rank, location, defaultWorkspace)[b] == rank[j]
    decreases |rank|
  {
    hide Editors, Edits, Location;
    var init, last := rank[..|rank| - 1], rank[|rank| - 1];
    assert rank == init + [last];
    EditorsStep(init, last, location, defaultWorkspace);
    if j < |rank| - 1 {
      a, b := EditorsKeepOrder(init, i, j, location, defaultWorkspace);
    } else {
      a := EditorThere(init, i, location, defaultWorkspace);
      b := |Editors(init, location, defaultWorkspace)|;
    }
  }

  lemma {:induction false} EditorThere(rank: seq<Task>, i: nat, location: string, defaultWorkspace: string) returns (a: nat)
    requires i < |rank| && Edits(rank[i]) && Location(rank[i], defaultWorkspace) == location
    ensures a < |Editors(rank, location, defaultWorkspace)|
    ensures Editors(rank, location, defaultWorkspace)[a] == rank[i]
    decreases |rank|
  {
    hide Editors, Edits, Location;
    var init, last := rank[..|rank| - 1], rank[|rank| - 1];
    assert rank == init + [last];
    EditorsStep(init, last, location, defaultWorkspace);
    if i < |rank| - 1 {
      a := EditorThere(init, i, location, defaultWorkspace);
    } else {
      a := |Editors(init, location, defaultWorkspace)|;
    }
  }

  /** No location lies in the path trees of both tasks, letter case apart. */
  ghost predicate DisjointTrees(t: Task, u: Task, lower: string -> string) {
    forall p, q, location: seq<string> :: p in t.ownedPaths && q in u.ownedPaths ==>
      !(InTree(location, lower(p)) && InTree(location, lower(q)))
  }

  lemma SiblingsDisjoint(rank: seq<Task>, i: nat, j: nat, defaultWorkspace: string, lower: string -> string)
    requires RankOwned(rank, defaultWorkspace, lower) && i < j < |rank|
    requires Location(rank[i], defaultWorkspace) == Location(rank[j], defaultWorkspace)
    ensures DisjointTrees(rank[i], rank[j], lower) && DisjointTrees(rank[j], rank[i], lower)
  {
    hide Overlaps, InTree, Flatten, Exclusive, AtLocation, Editing;
    if Edits(rank[i]) && Edits(rank[j]) {
      var location := Location(rank[i], defaultWorkspace);
      var a, b := EditorsKeepOrder(rank, i, j, location, defaultWorkspace);
      var claims := ClaimsAt(rank, location, defaultWorkspace);
      assert LocationOwned(rank, location, defaultWorkspace, lower);
      forall p, q, spot: seq<string> | p in rank[i].ownedPaths && q in rank[j].ownedPaths
        ensures !(InTree(spot, lower(p)) && InTree(spot, lower(q)))
      {
        ClaimsApart(claims, a, b, p, q, lower);
        OverlapsIffTreesMeet(lower(q), lower(p));
      }
    }
  }

  // ---- From comparison keys back to the paths themselves ----

  function Mapped(segments: seq<string>, f: string -> string): seq<string> {
    seq(|segments|, i requires 0 <= i < |segments| => f(segments[i]))
  }

  /** Lower-casing works on each segment by itself, and neither makes nor removes a slash. */
  ghost predicate MapsSegments(lower: string -> string, f: string -> string) {
    forall path :: Segments(lower(path)) == Mapped(Segments(path), f)
  }

  lemma MappedInTree(location: seq<string>, path: string, lower: string -> string, f: string -> string)
    requires MapsSegments(lower, f) && InTree(location, path)
    ensures InTree(Mapped(location, f), lower(path))
  {
    assert Segments(lower(path)) == Mapped(Segments(path), f);
    var n := |Segments(path)|;
    assert location[..n] == Segments(path);
    assert Mapped(location, f)[..n] == Mapped(location[..n], f);
  }

  /** Tasks whose keys are disjoint own disjoint trees, letter case and all. */
  lemma OriginalsDisjoint(t: Task, u: Task, lower: string -> string, f: string -> string)
    requires MapsSegments(lower, f) && DisjointTrees(t, u, lower)
    ensures DisjointTrees(t, u, path => path)
  {
    hide InTree, MapsSegments;
    forall p, q, location: seq<string> | p in t.ownedPaths && q in u.ownedPaths
      ensures !(InTree(location, p) && InTree(location, q))
    {
      if InTree(location, p) && InTree(location, q) {
        MappedInTree(location, p, lower, f);
        MappedInTree(location, q, lower, f);
      }
    }
  }

  // ---- Which ranks are accepted ----

  /** Where a task works: in its worktree, or else its workspace, or else the runner's. */
  predicate WorksAt(task: Task, defaultWorkspace: string, place: string) {
    || task.worktree == Some(place)
    || (task.worktree == None && task.workspace == Some(place))
    || (task.worktree == None && task.workspace == None && place == defaultWorkspace)
  }

  /** Task k of the rank owns paths at this place. */
  predicate Editor(rank: seq<Task>, k: int, place: string, defaultWorkspace: string) {
    0 <= k < |rank| && WorksAt(rank[k], defaultWorkspace, place) && rank[k].ownedPaths != []
  }

  /** The paths of one task are canonical and meet no other of its own. */
  ghost predicate OwnPathsApart(task: Task, lower: string -> string) {
    && (forall a :: 0 <= a < |task.ownedPaths| ==> CanonicalizeOwnedPath(task.ownedPaths[a]).Some?)
    && forall a, b :: 0 <= a < b < |task.ownedPaths| ==> !Overlaps(lower(task.ownedPaths[b]), lower(task.ownedPaths[a]))
  }

  ghost predicate PathsApart(t: Task, u: Task, lower: string -> string) {
    forall a, b :: 0 <= a < |t.ownedPaths| && 0 <= b < |u.ownedPaths| ==>
      !Overlaps(lower(u.ownedPaths[b]), lower(t.ownedPaths[a]))
  }

  /** All editors at this place keep apart, and each keeps its own paths apart. */
  ghost predicate PlaceApart(rank: seq<Task>, place: string, defaultWorkspace: string, lower: string -> string) {
    && (forall k :: Editor(rank, k, place, defaultWorkspace) ==> OwnPathsApart(rank[k], lower))
    && forall k, l :: Editor(rank, k, place, defaultWorkspace) && Editor(rank, l, place, defaultWorkspace) && k < l ==>
         PathsApart(rank[k], rank[l], lower)
  }

  ghost predicate Shared(rank: seq<Task>, place: string, defaultWorkspace: string) {
    exists k, l :: k < l && Editor(rank, k, place, defaultWorkspace) && Editor(rank, l, place, defaultWorkspace)
  }

  lemma LocationIs(task: Task, defaultWorkspace: string, place: string)
    ensures Location(task, defaultWorkspace) == place <==> WorksAt(task, defaultWorkspace, place)
  {
  }

  /** One task more adds its paths exactly when it is an editor there. */
  lemma ClaimsStep(init: seq<Task>, last: Task, place: string, defaultWorkspace: string)
    ensures var before, after := ClaimsAt(init, place, defaultWorkspace), ClaimsAt(init + [last], place, defaultWorkspace);
      after == before + if Editor(init + [last], |init|, place, defaultWorkspace) then [Claim(last.id, last.ownedPaths)] else []
  {
    LocationIs(last, defaultWorkspace, place);
    EditorsStep(init, last, place, defaultWorkspace);
    hide Editors, Location;
  }

  lemma FlattenStep(claims: seq<Claim>, claim: Claim)
    ensures Flatten(claims + [claim]) == Flatten(claims) + OwnedBy(claim.ownerId, claim.paths)
  {
    assert (claims + [claim])[..|claims|] == claims;
  }

  ghost predicate MeetsNone(owned: seq<Owned>, paths: seq<string>, lower: string -> string) {
    forall i, b :: 0 <= i < |owned| && 0 <= b < |paths| ==> !Overlaps(lower(paths[b]), lower(owned[i].path))
  }

  lemma ExclusiveJoin(owned: seq<Owned>, task: Task, lower: string -> string)
    ensures Exclusive(owned + OwnedBy(task.id, task.ownedPaths), lower) <==>
      Exclusive(owned, lower) && OwnPathsApart(task, lower) && MeetsNone(owned, task.ownedPaths, lower)
  {
    hide CanonicalizeOwnedPath, Overlaps;
    var more := OwnedBy(task.id, task.ownedPaths);
    var all := owned + more;
    assert |more| == |task.ownedPaths| && forall a :: 0 <= a < |more| ==> more[a].path == task.ownedPaths[a];
    assert forall i :: 0 <= i < |owned| ==> all[i] == owned[i];
    assert forall a :: 0 <= a < |more| ==> all[|owned| + a] == more[a];
    if Exclusive(all, lower) {
      forall a | 0 <= a < |more| ensures CanonicalizeOwnedPath(task.ownedPaths[a]).Some? {
        assert all[|owned| + a].path == task.ownedPaths[a];
      }
      forall a, b | 0 <= a < b < |more| ensures !Overlaps(lower(task.ownedPaths[b]), lower(task.ownedPaths[a])) {
        assert all[|owned| + a].path == task.ownedPaths[a] && all[|owned| + b].path == task.ownedPaths[b];
      }
      forall i, b | 0 <= i < |owned| && 0 <= b < |more| ensures !Overlaps(lower(task.ownedPaths[b]), lower(owned[i].path)) {
        assert all[i] == owned[i] && all[|owned| + b].path == task.ownedPaths[b];
      }
    }
    if Exclusive(owned, lower) && OwnPathsApart(task, lower) && MeetsNone(owned, task.ownedPaths, lower) {
      forall i, j | 0 <= i < j < |all| ensures !Overlaps(lower(all[j].path), lower(all[i].path)) {
        if j >= |owned| { assert all[j].path == task.ownedPaths[j - |owned|]; }
        if i >= |owned| { assert all[i].path == task.ownedPaths[i - |owned|]; }
      }
      forall i | 0 <= i < |all| ensures CanonicalizeOwnedPath(all[i].path).Some? {
        if i >= |owned| { assert all[i].path == task.ownedPaths[i - |owned|]; }
      }
    }
  }

  lemma EditorStep(init: seq<Task>, last: Task, place: string, defaultWorkspace: string)
    ensures forall k :: 0 <= k < |init| ==>
      (Editor(init + [last], k, place, defaultWorkspace) <==> Editor(init, k, place, defaultWorkspace))
  {
    hide WorksAt;
    assert forall k :: 0 <= k < |init| ==> (init + [last])[k] == init[k];
  }

  lemma PlaceStep(init: seq<Task>, last: Task, place: string, defaultWorkspace: string, lower: string -> string)
    ensures PlaceApart(init + [last], place, defaultWorkspace, lower) <==>
      && PlaceApart(init, place, defaultWorkspace, lower)
      && (Editor(init + [last], |init|, place, defaultWorkspace) ==>
            && OwnPathsApart(last, lower)
            && forall k :: Editor(init, k, place, defaultWorkspace) ==> PathsApart(init[k], last, lower))
  {
    EditorStep(init, last, place, defaultWorkspace);
    var all := init + [last];
    assert all[|init|] == last && forall k :: 0 <= k < |init| ==> all[k] == init[k];
    EditorIsThere(all, place, defaultWorkspace);
    EditorIsThere(init, place, defaultWorkspace);
    hide OwnPathsApart, PathsApart, Editor;
    forall k | Editor(init, k, place, defaultWorkspace) ensures Editor(all, k, place, defaultWorkspace) && all[k] == init[k] {
    }
  }

  lemma EditorIsThere(rank: seq<Task>, place: string, defaultWorkspace: string)
    ensures forall k :: Editor(rank, k, place, defaultWorkspace) ==> 0 <= k < |rank|
  {
  }

  /** The paths claimed at a place are those of its editors. */
  lemma {:induction false} MeetsNoEditor(
    rank: seq<Task>, place: string, defaultWorkspace: string, task: Task, lower: string -> string)
    ensures MeetsNone(Flatten(ClaimsAt(rank, place, defaultWorkspace)), task.ownedPaths, lower) <==>
      forall k :: Editor(rank, k, place, defaultWorkspace) ==> PathsApart(rank[k], task, lower)
  {
    if rank == [] {
      assert ClaimsAt(rank, place, defaultWorkspace) == [];
    } else {
      var init, last := rank[..|rank| - 1], rank[|rank| - 1];
      assert rank == init + [last];
      MeetsNoEditor(init, place, defaultWorkspace, task, lower);
      ClaimsStep(init, last, place, defaultWorkspace);
      EditorStep(init, last, place, defaultWorkspace);
      EditorIsThere(rank, place, defaultWorkspace);
      EditorIsThere(init, place, defaultWorkspace);
      var claims := ClaimsAt(init, place, defaultWorkspace);
      FlattenStep(claims, Claim(last.id, last.ownedPaths));
      MeetsJoin(Flatten(claims), last, task, lower);
      assert claims + [] == claims;
      hide ClaimsAt, Flatten, MeetsNone, PathsApart, Editor;
      assert forall k :: Editor(init, k, place, defaultWorkspace) ==> rank[k] == init[k];
    }
  }

  lemma MeetsJoin(owned: seq<Owned>, last: Task, task: Task, lower: string -> string)
    ensures MeetsNone(owned + OwnedBy(last.id, last.ownedPaths), task.ownedPaths, lower) <==>
      MeetsNone(owned, task.ownedPaths, lower) && PathsApart(last, task, lower)
  {
    hide Overlaps;
    var more := OwnedBy(last.id, last.ownedPaths);
    var all := owned + more;
    assert forall a :: 0 <= a < |more| ==> more[a].path == last.ownedPaths[a];
    assert forall i :: 0 <= i < |owned| ==> all[i] == owned[i];
    assert forall a :: 0 <= a < |more| ==> all[|owned| + a] == more[a];
    if MeetsNone(all, task.ownedPaths, lower) {
      forall a, b | 0 <= a < |more| && 0 <= b < |task.ownedPaths|
        ensures !Overlaps(lower(task.ownedPaths[b]), lower(last.ownedPaths[a]))
      {
        assert all[|owned| + a].path == last.ownedPaths[a];
      }
      forall i, b | 0 <= i < |owned| && 0 <= b < |task.ownedPaths|
        ensures !Overlaps(lower(task.ownedPaths[b]), lower(owned[i].path))
      {
        assert all[i] == owned[i];
      }
    }
    if MeetsNone(owned, task.ownedPaths, lower) && PathsApart(last, task, lower) {
      forall i, b | 0 <= i < |all| && 0 <= b < |task.ownedPaths|
        ensures !Overlaps(lower(task.ownedPaths[b]), lower(all[i].path))
      {
        if i >= |owned| { assert all[i].path == last.ownedPaths[i - |owned|]; }
      }
    }
  }

  lemma {:induction false} ExclusiveIff(rank: seq<Task>, place: string, defaultWorkspace: string, lower: string -> string)
    ensures Exclusive(Flatten(ClaimsAt(rank, place, defaultWorkspace)), lower) <==>
      PlaceApart(rank, place, defaultWorkspace, lower)
  {
    if rank == [] {
      assert ClaimsAt(rank, place, defaultWorkspace) == [];
    } else {
      var init, last := rank[..|rank| - 1], rank[|rank| - 1];
      assert rank == init + [last];
      ExclusiveIff(init, place, defaultWorkspace, lower);
      ClaimsStep(init, last, place, defaultWorkspace);
      PlaceStep(init, last, place, defaultWorkspace, lower);
      MeetsNoEditor(init, place, defaultWorkspace, last, lower);
      var claims := ClaimsAt(init, place, defaultWorkspace);
      FlattenStep(claims, Claim(last.id, last.ownedPaths));
      ExclusiveJoin(Flatten(claims), last, lower);
      assert claims + [] == claims;
      hide ClaimsAt, Flatten, MeetsNone, PathsApart, OwnPathsApart, Editor, PlaceApart, Exclusive;
    }
  }

  ghost predicate SomeEditor(rank: seq<Task>, place: string, defaultWorkspace: string) {
    exists k :: Editor(rank, k, place, defaultWorkspace)
  }

  lemma SharedStep(init: seq<Task>, last: Task, place: string, defaultWorkspace: string)
    ensures var all := init + [last]; var more := Editor(all, |init|, place, defaultWorkspace);
      && (SomeEditor(all, place, defaultWorkspace) <==> SomeEditor(init, place, defaultWorkspace) || more)
      && (Shared(all, place, defaultWorkspace) <==>
            Shared(init, place, defaultWorkspace) || (more && SomeEditor(init, place, defaultWorkspace)))
  {
    var all := init + [last];
    EditorStep(init, last, place, defaultWorkspace);
    EditorIsThere(all, place, defaultWorkspace);
    EditorIsThere(init, place, defaultWorkspace);
    hide Editor;
    if k :| Editor(init, k, place, defaultWorkspace) { assert Editor(all, k, place, defaultWorkspace); }
    if k :| Editor(all, k, place, defaultWorkspace) {
      assert k < |init| ==> Editor(init, k, place, defaultWorkspace);
    }
    if Shared(init, place, defaultWorkspace) {
      var k, l :| k < l && Editor(init, k, place, defaultWorkspace) && Editor(init, l, place, defaultWorkspace);
      assert Editor(all, k, place, defaultWorkspace) && Editor(all, l, place, defaultWorkspace);
    }
    if Editor(all, |init|, place, defaultWorkspace) && SomeEditor(init, place, defaultWorkspace) {
      var k :| Editor(init, k, place, defaultWorkspace);
      assert k < |init| && Editor(all, k, place, defaultWorkspace);
    }
    if Shared(all, place, defaultWorkspace) {
      var k, l :| k < l && Editor(all, k, place, defaultWorkspace) && Editor(all, l, place, defaultWorkspace);
      assert Editor(init, k, place, defaultWorkspace);
      assert l < |init| ==> Editor(init, l, place, defaultWorkspace);
    }
  }

  lemma {:induction false} ClaimCount(rank: seq<Task>, place: string, defaultWorkspace: string)
    ensures |ClaimsAt(rank, place, defaultWorkspace)| >= 1 <==> SomeEditor(rank, place, defaultWorkspace)
    ensures |ClaimsAt(rank, place, defaultWorkspace)| >= 2 <==> Shared(rank, place, defaultWorkspace)
  {
    if rank == [] {
      assert ClaimsAt(rank, place, defaultWorkspace) == [];
    } else {
      var init, last := rank[..|rank| - 1], rank[|rank| - 1];
      assert rank == init + [last];
      ClaimCount(init, place, defaultWorkspace);
      ClaimsStep(init, last, place, defaultWorkspace);
      SharedStep(init, last, place, defaultWorkspace);
      hide ClaimsAt, Editor, Shared, SomeEditor;
    }
  }

  /**
   * A rank is accepted exactly when at every place with two editors or more all their paths are canonical and no two of
   * them meet, in one task or in two. A single editor may claim what it likes.
   */
  lemma AcceptedIff(rank: seq<Task>, defaultWorkspace: string, lower: string -> string)
    ensures RankOwned(rank, defaultWorkspace, lower) <==>
      forall place :: Shared(rank, place, defaultWorkspace) ==> PlaceApart(rank, place, defaultWorkspace, lower)
  {
    forall place
      ensures LocationOwned(rank, place, defaultWorkspace, lower) <==>
        (Shared(rank, place, defaultWorkspace) ==> PlaceApart(rank, place, defaultWorkspace, lower))
    {
      ClaimCount(rank, place, defaultWorkspace);
      ExclusiveIff(rank, place, defaultWorkspace, lower);
    }
    hide LocationOwned, Shared, PlaceApart;
  }
}
