/** Importing a bundle of memories, proved equal to importing its records one at a time. */
module MemoryImport {
  import opened MemoryFiles
  import opened Wrappers

  datatype Policy = Reject | Skip | Replace | NewerWins

  /**
   * An item of a bundle with its text and metadata cleaned, whose date may be missing or unreadable; or an item that fails
   * to be an object, to be cleaned, or to fit the size limit.
   */
  datatype Item = Invalid | Item(id: string, content: string, date: Option<string>)

  predicate ValidItem(item: Item) {
    item.Item? && SafeId(item.id)
  }

  /** What is to be imported: not a bundle at all, or a list of items whose JSON has a size in bytes. */
  datatype Bundle = NotABundle | Bundle(items: seq<Item>, bytes: nat)

  datatype Refusal = InvalidBundle | TooLarge | InvalidItem | Corrupt | Conflicting(ids: seq<string>) | IndexLeftStale

  const MAX_IMPORT_RECORDS := 1000
  const MAX_IMPORT_BUNDLE_BYTES := 8 * 1024 * 1024

  /** A bundle within its limits whose items are all valid. */
  predicate Acceptable(bundle: Bundle) {
    && bundle.Bundle? && |bundle.items| <= MAX_IMPORT_RECORDS && bundle.bytes <= MAX_IMPORT_BUNDLE_BYTES
    && forall k :: 0 <= k < |bundle.items| ==> ValidItem(bundle.items[k])
  }

  /** The records of a bundle; an undated item gets the clock's reading. */
  function Dated(items: seq<Item>, clock: nat -> string): (records: seq<Record>)
    requires forall k :: 0 <= k < |items| ==> items[k].Item?
    ensures |records| == |items|
    ensures forall k :: 0 <= k < |items| ==> records[k].id == items[k].id
  {
    seq(|items|, i requires 0 <= i < |items| =>
      Record(items[i].id, items[i].content, if items[i].date.Some? then items[i].date.value else clock(i)))
  }

  // ---- One record at a time ----

  /** The record kept of an earlier and a later one with the same id. */
  function Merge(policy: Policy, time: string -> int, earlier: Record, later: Record): Record {
    match policy
    case Reject => earlier
    case Skip => earlier
    case Replace => later
    case NewerWins => if time(later.updatedAt) > time(earlier.updatedAt) then later else earlier
  }

  function Absorb(policy: Policy, time: string -> int, store: map<string, Record>, r: Record): map<string, Record> {
    store[r.id := if r.id in store then Merge(policy, time, store[r.id], r) else r]
  }

  /** Importing the records one after the other. */
  function AbsorbAll(policy: Policy, time: string -> int, store: map<string, Record>, rs: seq<Record>): map<string, Record> {
    if rs == [] then store
    else
      Absorb(policy, time, AbsorbAll(policy, time, store, rs[..|rs| - 1]), rs[|rs| - 1])
  }

  /** Importing the records one after the other, where a rejected clash ends the import. */
  function ImportEach(policy: Policy, time: string -> int, store: map<string, Record>, rs: seq<Record>)
    : (result: Option<map<string, Record>>)
    ensures result.Some? ==> result.value == AbsorbAll(policy, time, store, rs)
    ensures policy != Reject ==> result.Some?
  {
    if rs == [] then Some(store)
    else
      var before := ImportEach(policy, time, store, rs[..|rs| - 1]);
      if before.None? || (policy == Reject && rs[|rs| - 1].id in before.value) then None
      else Some(Absorb(policy, time, before.value, rs[|rs| - 1]))
  }

  // ---- The bundle as a whole ----

  /** The store after the bundle's own records, resolved among themselves, are laid over it. */
  function Overlay(policy: Policy, time: string -> int, store: map<string, Record>, seen: map<string, Record>)
    : map<string, Record>
  {
    map id | id in store.Keys + seen.Keys ::
      if id !in seen then store[id] else if id !in store then seen[id] else Merge(policy, time, store[id], seen[id])
  }

  lemma MergeAssociates(policy: Policy, time: string -> int, a: Record, b: Record, c: Record)
    ensures Merge(policy, time, Merge(policy, time, a, b), c) == Merge(policy, time, a, Merge(policy, time, b, c))
  {
  }

  lemma OverlayAbsorbs(policy: Policy, time: string -> int, store: map<string, Record>, seen: map<string, Record>, r: Record)
    ensures Overlay(policy, time, store, Absorb(policy, time, seen, r))
         == Absorb(policy, time, Overlay(policy, time, store, seen), r)
  {
    hide Merge;
    if r.id in seen && r.id in store {
      MergeAssociates(policy, time, store[r.id], seen[r.id], r);
    }
  }

  /** Resolving the bundle first and laying it over the store gives what importing record by record gives. */
  lemma {:induction false} OverlayIsAbsorb(policy: Policy, time: string -> int, store: map<string, Record>, rs: seq<Record>)
    ensures Overlay(policy, time, store, AbsorbAll(policy, time, map[], rs)) == AbsorbAll(policy, time, store, rs)
  {
    if rs == [] {
    } else {
      hide Overlay, Absorb;
      OverlayIsAbsorb(policy, time, store, rs[..|rs| - 1]);
      OverlayAbsorbs(policy, time, store, AbsorbAll(policy, time, map[], rs[..|rs| - 1]), rs[|rs| - 1]);
    }
  }

  /** A rejecting import meets a clash exactly when the bundle clashes with itself or with the store. */
  lemma {:induction false} RejectsClashes(time: string -> int, store: map<string, Record>, rs: seq<Record>)
    ensures ImportEach(Reject, time, store, rs).Some? <==>
      ImportEach(Reject, time, map[], rs).Some? && AbsorbAll(Reject, time, map[], rs).Keys !! store.Keys
  {
    if rs == [] {
    } else {
      var init, r := rs[..|rs| - 1], rs[|rs| - 1];
      RejectsClashes(time, store, init);
      OverlayIsAbsorb(Reject, time, store, init);
      var seen := AbsorbAll(Reject, time, map[], init);
      assert AbsorbAll(Reject, time, map[], rs) == Absorb(Reject, time, seen, r);
      hide AbsorbAll, Merge;
      assert Absorb(Reject, time, seen, r).Keys == seen.Keys + {r.id};
      assert AbsorbAll(Reject, time, store, init).Keys == store.Keys + seen.Keys;
    }
  }

  lemma NextAbsorbed(policy: Policy, time: string -> int, store: map<string, Record>, rs: seq<Record>, i: nat)
    requires i < |rs|
    ensures AbsorbAll(policy, time, store, rs[..i + 1])
         == Absorb(policy, time, AbsorbAll(policy, time, store, rs[..i]), rs[i])
    ensures ImportEach(policy, time, store, rs[..i + 1]).Some? <==>
      && ImportEach(policy, time, store, rs[..i]).Some?
      && (policy == Reject ==> rs[i].id !in AbsorbAll(policy, time, store, rs[..i]))
  {
    assert rs[..i + 1][..i] == rs[..i];
  }

  // ---- The planner ----

  datatype Plan = Plan(create: seq<string>, replace: seq<string>, skip: seq<string>, conflicts: seq<string>)

  /** The keys in some order, each once. */
  ghost predicate Orders(order: seq<string>, keys: set<string>) {
    Distinct(order) && forall id :: id in order <==> id in keys
  }

  lemma OrderGrows(order: seq<string>, keys: set<string>, id: string)
    requires Orders(order, keys) && id !in keys
    ensures Orders(order + [id], keys + {id})
  {
  }

  lemma AbsorbCases(policy: Policy, time: string -> int, seen: map<string, Record>, r: Record)
    ensures r.id !in seen ==> Absorb(policy, time, seen, r) == seen[r.id := r]
    ensures r.id in seen ==> Absorb(policy, time, seen, r) == seen[r.id := Merge(policy, time, seen[r.id], r)]
    ensures r.id in seen && Merge(policy, time, seen[r.id], r) == seen[r.id] ==> Absorb(policy, time, seen, r) == seen
    ensures Absorb(policy, time, seen, r).Keys == seen.Keys + {r.id}
    ensures r.id in seen ==> Absorb(policy, time, seen, r).Keys == seen.Keys
  {
  }

  /** Resolve the bundle among itself; seen keeps its keys in order of first insertion. */
  method Resolve(policy: Policy, time: string -> int, rs: seq<Record>)
    returns (order: seq<string>, seen: map<string, Record>, skip: seq<string>, conflicts: seq<string>)
    ensures seen == AbsorbAll(policy, time, map[], rs) && Orders(order, seen.Keys)
    ensures |order| + |skip| + |conflicts| == |rs|
    ensures conflicts == [] <==> ImportEach(policy, time, map[], rs).Some?
  {
    order, seen, skip, conflicts := [], map[], [], [];
    assert rs[..0] == [] && rs[..|rs|] == rs;
    assert AbsorbAll(policy, time, map[], rs[..0]) == map[] && ImportEach(policy, time, map[], rs[..0]).Some?;
    assert Orders(order, seen.Keys);
    hide AbsorbAll, ImportEach, Orders, Absorb;
    for i := 0 to |rs|
      invariant seen == AbsorbAll(policy, time, map[], rs[..i]) && Orders(order, seen.Keys)
      invariant |order| + |skip| + |conflicts| == i
      invariant conflicts == [] <==> ImportEach(policy, time, map[], rs[..i]).Some?
    {
      var incoming := rs[i];
      NextAbsorbed(policy, time, map[], rs, i);
      AbsorbCases(policy, time, seen, incoming);
      if incoming.id in seen {
        match policy {
          case Reject =>
            conflicts := conflicts + [incoming.id];
          case Skip =>
            skip := skip + [incoming.id];
          case Replace =>
            skip := skip + [incoming.id];
            seen := seen[incoming.id := incoming];
          case NewerWins =>
            skip := skip + [incoming.id];
            if time(incoming.updatedAt) > time(seen[incoming.id].updatedAt) {
              seen := seen[incoming.id := incoming];
            }
        }
      } else {
        OrderGrows(order, seen.Keys, incoming.id);
        seen := seen[incoming.id := incoming];
        order := order + [incoming.id];
      }
    }
  }

  /** A resolved record is to be written over the store's one with its id. */
  predicate Overrides(policy: Policy, time: string -> int, existing: Record, incoming: Record) {
    policy == Replace || (policy == NewerWins && time(incoming.updatedAt) > time(existing.updatedAt))
  }

  /** The plan sorts every resolved id, and every item of the bundle is counted once. */
  ghost predicate Sorts(
    policy: Policy, time: string -> int, store: map<string, Record>, seen: map<string, Record>, ids: set<string>, plan: Plan)
  {
    && (forall id :: id in plan.create <==> id in ids && id !in store)
    && (forall id :: id in plan.replace <==> id in ids && id in store && id in seen && Overrides(policy, time, store[id], seen[id]))
  }

  method PlanResolved(
    policy: Policy, time: string -> int, store: map<string, Record>, seen: map<string, Record>, order: seq<string>)
    returns (plan: Plan)
    requires Orders(order, seen.Keys)
    ensures Sorts(policy, time, store, seen, seen.Keys, plan)
    ensures |plan.create| + |plan.replace| + |plan.skip| + |plan.conflicts| == |order|
    ensures plan.conflicts == [] <==> policy != Reject || seen.Keys !! store.Keys
  {
    plan := Plan([], [], [], []);
    ghost var done: set<string> := {};
    for i := 0 to |order|
      invariant done <= seen.Keys && forall k :: 0 <= k < i ==> order[k] in done
      invariant Sorts(policy, time, store, seen, done, plan)
      invariant |plan.create| + |plan.replace| + |plan.skip| + |plan.conflicts| == i
      invariant plan.conflicts == [] <==> policy != Reject || done !! store.Keys
    {
      var id := order[i];
      assert id in seen;
      done := done + {id};
      if id !in store {
        plan := plan.(create := plan.create + [id]);
      } else {
        match policy {
          case Reject => plan := plan.(conflicts := plan.conflicts + [id]);
          case Skip => plan := plan.(skip := plan.skip + [id]);
          case Replace => plan := plan.(replace := plan.replace + [id]);
          case NewerWins =>
            if time(seen[id].updatedAt) > time(store[id].updatedAt) {
              plan := plan.(replace := plan.replace + [id]);
            } else {
              plan := plan.(skip := plan.skip + [id]);
            }
        }
      }
    }
    assert done == seen.Keys;
  }

  /** The store with the chosen records written into it, one after the other. */
  function Laid(store: map<string, Record>, seen: map<string, Record>, ids: seq<string>): map<string, Record>
    requires forall id :: id in ids ==> id in seen
  {
    if ids == [] then store
    else Laid(store, seen, ids[..|ids| - 1])[ids[|ids| - 1] := seen[ids[|ids| - 1]]]
  }

  lemma {:induction false} LaidAt(store: map<string, Record>, seen: map<string, Record>, ids: seq<string>)
    requires forall id :: id in ids ==> id in seen
    ensures forall id :: id in Laid(store, seen, ids) <==> id in store || id in ids
    ensures forall id :: id in ids ==> Laid(store, seen, ids)[id] == seen[id]
    ensures forall id :: id in store && id !in ids ==> Laid(store, seen, ids)[id] == store[id]
  {
    if ids == [] {
    } else {
      LaidAt(store, seen, ids[..|ids| - 1]);
      assert ids == ids[..|ids| - 1] + [ids[|ids| - 1]];
    }
  }

  /** Writing what the plan chose gives the overlay. */
  lemma PlanIsOverlay(
    policy: Policy, time: string -> int, store: map<string, Record>, seen: map<string, Record>, plan: Plan)
    requires Sorts(policy, time, store, seen, seen.Keys, plan)
    requires policy == Reject ==> seen.Keys !! store.Keys
    ensures forall id :: id in plan.create + plan.replace ==> id in seen
    ensures Laid(store, seen, plan.create + plan.replace) == Overlay(policy, time, store, seen)
  {
    LaidAt(store, seen, plan.create + plan.replace);
  }

  /** The store's record of each listed id, keyed by id. */
  method LocalMap(records: seq<Record>, ghost store: map<string, Record>) returns (local: map<string, Record>)
    requires ListsAll(records, store)
    ensures local == store
  {
    local := map[];
    for i := 0 to |records|
      invariant forall id :: id in local ==> id in store && local[id] == store[id]
      invariant forall k :: 0 <= k < i ==> records[k].id in local
    {
      assert records[i] in records;
      local := local[records[i].id := records[i]];
    }
    forall id | id in store ensures id in local {
      var k :| 0 <= k < |records| && records[k] == store[id];
    }
  }

  /** What the caller gets of a plan or an import. */
  datatype Receipt = Receipt(plan: Plan, dryRun: bool)

  /** The plan counts every item once, creates exactly the new ids and replaces exactly the overridden ones. */
  ghost predicate PlanFor(
    policy: Policy, time: string -> int, store: map<string, Record>, rs: seq<Record>, plan: Plan)
  {
    var seen := AbsorbAll(policy, time, map[], rs);
    && |plan.create| + |plan.replace| + |plan.skip| + |plan.conflicts| == |rs|
    && (forall id :: id in plan.create <==> id in seen && id !in store)
    && (forall id :: id in plan.replace <==> id in seen && id in store && Overrides(policy, time, store[id], seen[id]))
    && (plan.conflicts == [] <==> ImportEach(policy, time, store, rs).Some?)
  }

  lemma {:induction false} AbsorbedIds(policy: Policy, time: string -> int, rs: seq<Record>)
    ensures forall id :: id in AbsorbAll(policy, time, map[], rs) ==>
      AbsorbAll(policy, time, map[], rs)[id].id == id && exists k :: 0 <= k < |rs| && rs[k].id == id
  {
    if rs == [] {
    } else {
      AbsorbedIds(policy, time, rs[..|rs| - 1]);
    }
  }

  /** Resolve the bundle and plan it against the store; without conflicts, writing what was chosen is the one-by-one import. */
  method PlanRecords(policy: Policy, time: string -> int, store: map<string, Record>, rs: seq<Record>)
    returns (plan: Plan, seen: map<string, Record>)
    ensures seen == AbsorbAll(policy, time, map[], rs) && PlanFor(policy, time, store, rs, plan)
    ensures forall id :: id in plan.create + plan.replace ==> id in seen
    ensures plan.conflicts == [] ==>
      AbsorbAll(policy, time, store, rs) == Laid(store, seen, plan.create + plan.replace)
  {
    hide AbsorbAll, ImportEach, Laid, Overlay, Overrides;
    var order, skip, conflicts;
    order, seen, skip, conflicts := Resolve(policy, time, rs);
    var rest := PlanResolved(policy, time, store, seen, order);
    plan := Plan(rest.create, rest.replace, skip + rest.skip, conflicts + rest.conflicts);
    if policy == Reject { RejectsClashes(time, store, rs); }
    if plan.conflicts == [] {
      PlanIsOverlay(policy, time, store, seen, rest);
      OverlayIsAbsorb(policy, time, store, rs);
    }
  }

  ghost predicate AllSafe(seen: map<string, Record>) {
    forall id :: id in seen ==> seen[id].id == id && SafeId(id)
  }

  /** The folders differ in files of these ids alone. */
  ghost predicate OnlyWrites(before: Folder, after: Folder, ids: seq<string>) {
    && before.Keys <= after.Keys
    && forall n :: n in after && !(n in before && after[n] == before[n]) ==> exists id :: id in ids && n == Json(id)
  }

  lemma WritesNone(folder: Folder, ids: seq<string>)
    ensures OnlyWrites(folder, folder, ids)
  {
  }

  lemma WritesOne(before: Folder, after: Folder, ids: seq<string>, id: string, file: File)
    requires OnlyWrites(before, after, ids) && id in ids
    ensures OnlyWrites(before, after[Json(id) := file], ids)
  {
  }

  // ---- Importing again ----

  /** Every id of the records is in the store, at least as new where the policy looks at dates. */
  ghost predicate Covered(policy: Policy, time: string -> int, store: map<string, Record>, rs: seq<Record>) {
    forall k :: 0 <= k < |rs| ==>
      && rs[k].id in store
      && (policy == NewerWins ==> time(rs[k].updatedAt) <= time(store[rs[k].id].updatedAt))
  }

  lemma {:induction false} ImportCovers(policy: Policy, time: string -> int, store: map<string, Record>, rs: seq<Record>)
    ensures Covered(policy, time, AbsorbAll(policy, time, store, rs), rs)
    ensures forall id :: id in store ==> id in AbsorbAll(policy, time, store, rs)
    ensures policy == NewerWins ==>
      forall id :: id in store ==> time(store[id].updatedAt) <= time(AbsorbAll(policy, time, store, rs)[id].updatedAt)
  {
    if rs == [] {
    } else {
      var init := rs[..|rs| - 1];
      ImportCovers(policy, time, store, init);
      forall k | 0 <= k < |init| ensures rs[k] == init[k] {
      }
    }
  }

  /** Under skip and newer-wins, records that the store covers change nothing. */
  lemma {:induction false} CoveredChangesNothing(
    policy: Policy, time: string -> int, store: map<string, Record>, rs: seq<Record>)
    requires policy == Skip || policy == NewerWins
    requires Covered(policy, time, store, rs)
    ensures AbsorbAll(policy, time, store, rs) == store
  {
    if rs == [] {
    } else {
      var init := rs[..|rs| - 1];
      assert forall k :: 0 <= k < |init| ==> init[k] == rs[k];
      CoveredChangesNothing(policy, time, store, init);
      var r := rs[|rs| - 1];
      assert store[r.id := store[r.id]] == store;
    }
  }

  /** Importing the same records again changes no record, under every policy that accepts them twice. */
  lemma RepeatChangesNothing(policy: Policy, time: string -> int, store: map<string, Record>, rs: seq<Record>)
    requires policy != Reject
    ensures var once := AbsorbAll(policy, time, store, rs); AbsorbAll(policy, time, once, rs) == once
  {
    var seen := AbsorbAll(policy, time, map[], rs);
    var once := AbsorbAll(policy, time, store, rs);
    OverlayIsAbsorb(policy, time, store, rs);
    OverlayIsAbsorb(policy, time, once, rs);
  }

  /** A bundle of dated items gives the same records whenever it is imported. */
  lemma DatedIgnoresClock(items: seq<Item>, first: nat -> string, second: nat -> string)
    requires forall k :: 0 <= k < |items| ==> items[k].Item? && items[k].date.Some?
    ensures Dated(items, first) == Dated(items, second)
  {
  }

  /** Repeating a skip import changes nothing whatever the clock says. */
  lemma RepeatSkip(time: string -> int, store: map<string, Record>, items: seq<Item>, first: nat -> string, second: nat -> string)
    requires forall k :: 0 <= k < |items| ==> items[k].Item?
    ensures var once := AbsorbAll(Skip, time, store, Dated(items, first));
      AbsorbAll(Skip, time, once, Dated(items, second)) == once
  {
    ImportCovers(Skip, time, store, Dated(items, first));
    var once := AbsorbAll(Skip, time, store, Dated(items, first));
    assert Covered(Skip, time, once, Dated(items, second)) by {
      forall k | 0 <= k < |items| ensures Dated(items, second)[k].id in once {
        assert Dated(items, first)[k].id in once;
      }
    }
    CoveredChangesNothing(Skip, time, once, Dated(items, second));
  }

  /**
   * Repeating a newer-wins import changes nothing exactly when no undated item of the bundle would now be stamped later
   * than the record its id already has.
   */
  lemma RepeatNewerWins(
    time: string -> int, store: map<string, Record>, items: seq<Item>, first: nat -> string, second: nat -> string)
    requires forall k :: 0 <= k < |items| ==> items[k].Item?
    ensures var once := AbsorbAll(NewerWins, time, store, Dated(items, first));
      AbsorbAll(NewerWins, time, once, Dated(items, second)) == once <==>
      forall k :: 0 <= k < |items| && items[k].date.None? ==>
        items[k].id in once && time(second(k)) <= time(once[items[k].id].updatedAt)
  {
    var again := Dated(items, second);
    var once := AbsorbAll(NewerWins, time, store, Dated(items, first));
    ImportCovers(NewerWins, time, store, Dated(items, first));
    ImportCovers(NewerWins, time, once, again);
    if forall k :: 0 <= k < |items| && items[k].date.None? ==>
        items[k].id in once && time(second(k)) <= time(once[items[k].id].updatedAt)
    {
      forall k | 0 <= k < |items|
        ensures again[k].id in once && time(again[k].updatedAt) <= time(once[again[k].id].updatedAt)
      {
        if items[k].date.Some? { assert Dated(items, first)[k] == again[k]; }
      }
      CoveredChangesNothing(NewerWins, time, once, again);
    } else {
      var k :| 0 <= k < |items| && items[k].date.None?
        && !(items[k].id in once && time(second(k)) <= time(once[items[k].id].updatedAt));
      assert Dated(items, first)[k].id in once;
      assert again[k].updatedAt == second(k);
    }
  }

  /** The last item of its id, the one a replace import keeps. */
  ghost predicate LastOfItsId(items: seq<Item>, k: int) {
    && 0 <= k < |items| && items[k].Item?
    && forall j :: k < j < |items| && items[j].Item? ==> items[j].id != items[k].id
  }

  lemma {:induction false} ReplaceKeepsLast(time: string -> int, store: map<string, Record>, rs: seq<Record>, k: nat)
    requires k < |rs| && forall j :: k < j < |rs| ==> rs[j].id != rs[k].id
    ensures rs[k].id in AbsorbAll(Replace, time, store, rs) && AbsorbAll(Replace, time, store, rs)[rs[k].id] == rs[k]
  {
    if k < |rs| - 1 {
      ReplaceKeepsLast(time, store, rs[..|rs| - 1], k);
    }
  }

  lemma {:induction false} LastExists(items: seq<Item>, id: string, k: nat) returns (last: nat)
    requires k < |items| && items[k].Item? && items[k].id == id
    ensures LastOfItsId(items, last) && items[last].id == id
    decreases |items| - k
  {
    if LastOfItsId(items, k) {
      last := k;
    } else {
      var j :| k < j < |items| && items[j].Item? && items[j].id == items[k].id;
      last := LastExists(items, id, j);
    }
  }

  /** After a replace import the store holds, of each id, the last item. */
  lemma LastIsKept(time: string -> int, store: map<string, Record>, items: seq<Item>, clock: nat -> string, k: nat)
    requires forall k :: 0 <= k < |items| ==> items[k].Item?
    requires LastOfItsId(items, k)
    ensures var after := AbsorbAll(Replace, time, store, Dated(items, clock));
      items[k].id in after && after[items[k].id] == Dated(items, clock)[k]
  {
    ReplaceKeepsLast(time, store, Dated(items, clock), k);
  }

  lemma SameLasts(
    time: string -> int, store: map<string, Record>, items: seq<Item>, first: nat -> string, second: nat -> string)
    requires forall k :: 0 <= k < |items| ==> items[k].Item?
    requires forall k: nat :: LastOfItsId(items, k) ==> items[k].date.Some? || first(k) == second(k)
    ensures var once := AbsorbAll(Replace, time, store, Dated(items, first));
      AbsorbAll(Replace, time, once, Dated(items, second)) == once
  {
    var once := AbsorbAll(Replace, time, store, Dated(items, first));
    var twice := AbsorbAll(Replace, time, once, Dated(items, second));
    AbsorbedFrom(Replace, time, once, Dated(items, second));
    hide AbsorbAll, LastOfItsId;
    forall id | id in twice ensures id in once && twice[id] == once[id] {
      if exists k :: 0 <= k < |items| && items[k].id == id {
        var k :| 0 <= k < |items| && items[k].id == id;
        var last := LastExists(items, id, k);
        assert 0 <= last < |items| by { LastIsItem(items, last); }
        LastIsKept(time, store, items, first, last);
        LastIsKept(time, once, items, second, last);
      } else {
        assert forall k :: 0 <= k < |items| ==> Dated(items, second)[k].id != id;
      }
    }
  }

  lemma LastIsItem(items: seq<Item>, k: int)
    requires LastOfItsId(items, k)
    ensures 0 <= k < |items| && items[k].Item?
  {
  }

  /** Repeating a replace import changes nothing exactly when the last item of each id is dated, or stamped as before. */
  lemma RepeatReplace(
    time: string -> int, store: map<string, Record>, items: seq<Item>, first: nat -> string, second: nat -> string)
    requires forall k :: 0 <= k < |items| ==> items[k].Item?
    ensures var once := AbsorbAll(Replace, time, store, Dated(items, first));
      AbsorbAll(Replace, time, once, Dated(items, second)) == once <==>
      forall k: nat :: LastOfItsId(items, k) ==> items[k].date.Some? || first(k) == second(k)
  {
    var once := AbsorbAll(Replace, time, store, Dated(items, first));
    hide AbsorbAll;
    forall k: nat | LastOfItsId(items, k) && AbsorbAll(Replace, time, once, Dated(items, second)) == once
      ensures items[k].date.Some? || first(k) == second(k)
    {
      LastIsKept(time, store, items, first, k);
      LastIsKept(time, once, items, second, k);
    }
    if forall k: nat :: LastOfItsId(items, k) ==> items[k].date.Some? || first(k) == second(k) {
      SameLasts(time, store, items, first, second);
    }
  }

  /** An id that no record of the bundle has keeps its record, and no other id appears. */
  lemma {:induction false} AbsorbedFrom(policy: Policy, time: string -> int, store: map<string, Record>, rs: seq<Record>)
    ensures forall id :: id in store ==> id in AbsorbAll(policy, time, store, rs)
    ensures forall id :: id in AbsorbAll(policy, time, store, rs) && (forall k :: 0 <= k < |rs| ==> rs[k].id != id) ==>
      id in store && AbsorbAll(policy, time, store, rs)[id] == store[id]
  {
    if rs == [] {
    } else {
      AbsorbedFrom(policy, time, store, rs[..|rs| - 1]);
    }
  }
}
