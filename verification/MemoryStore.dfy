/** The project memory store: its folder of records, its index, and the operations that keep the two together. */
module MemoryStore {
  import opened MemoryDoctor
  import opened MemoryFiles
  import opened MemoryImport
  import opened Wrappers

  const MAX_RECORD_FILE_BYTES := 512 * 1024

  datatype StoreError = InvalidId | RecordTooLarge | PreconditionFailed | CorruptRecord | StoreIndexTooLarge

  lemma RecordDeleted(folder: Folder, id: string)
    ensures Records(folder - {Json(id)}) == Records(folder) - {id}
  {
    hide SafeId;
  }

  class ProjectMemoryStore {
    var folder: Folder
    var index: Option<Index>
    // how the directory lists a folder, and the sizes of what the store writes
    const readdir: Folder -> seq<Name>
    const indexSize: (seq<string>, seq<IndexEntry>) -> nat
    const recordSize: Record -> nat

    ghost predicate Lists()
      reads {}
    {
      forall f :: IsListing(f, readdir(f))
    }

    /** The size that the index would have if the given folder were rescanned. */
    function IndexSize(f: Folder): nat
    {
      RebuiltSize(f, readdir(f), indexSize)
    }

    /** Plan an import, and the resolved records to be written. */
    method ComputeImportPlan(bundle: Bundle, policy: Policy, time: string -> int, clock: nat -> string)
      returns (r: Result<(Plan, map<string, Record>), Refusal>)
      requires Lists()
      ensures r.Ok? <==> Acceptable(bundle) && AllUsable(folder)
      ensures r.Err? ==> RefusedFor(bundle, folder, r.error)
      ensures r.Ok? ==> Planned(Records(folder), Dated(bundle.items, clock), policy, time, r.value.0, r.value.1)
    {
      hide Planned, SafeId, AllUsable, ListsAll;
      if bundle.NotABundle? { return Err(InvalidBundle); }
      var items := bundle.items;
      if |items| > MAX_IMPORT_RECORDS || bundle.bytes > MAX_IMPORT_BUNDLE_BYTES { return Err(TooLarge); }
      for i := 0 to |items|
        invariant forall k :: 0 <= k < i ==> ValidItem(items[k])
      {
        if !ValidItem(items[i]) { return Err(InvalidItem); }
      }
      var rs := Dated(items, clock);
      var listed := ListUnlocked(folder, readdir(folder));
      if listed.None? { return Err(Corrupt); }
      var local := LocalMap(listed.value, Records(folder));
      var plan, seen := PlanRecords(policy, time, local, rs);
      PlanIsPlanned(policy, time, local, bundle, clock, plan, seen);
      return Ok((plan, seen));
    }

    /** Rename the staged records into place. */
    method Commit(seen: map<string, Record>, ids: seq<string>)
      requires AllSafe(seen) && AllUsable(folder) && forall id :: id in ids ==> id in seen
      modifies `folder
      ensures AllUsable(folder) && Records(folder) == Laid(Records(old(folder)), seen, ids)
      ensures OnlyWrites(old(folder), folder, ids)
    {
      hide AllUsable, Usable, SafeId, OnlyWrites;
      WritesNone(folder, ids);
      ghost var before := folder;
      assert ids[..0] == [] && ids[..|ids|] == ids;
      for i := 0 to |ids|
        invariant AllUsable(folder) && Records(folder) == Laid(Records(before), seen, ids[..i])
        invariant OnlyWrites(before, folder, ids)
      {
        var record := seen[ids[i]];
        assert ids[..i + 1][..i] == ids[..i];
        RecordWritten(folder, record, recordSize(record));
        WrittenUsable(folder, record, recordSize(record));
        WritesOne(before, folder, ids, record.id, Holds(record, recordSize(record)));
        folder := folder[Json(record.id) := Holds(record, recordSize(record))];
      }
    }

    /**
     * Import a bundle. It is refused, and nothing changes, when the bundle or a stored record is bad, or the policy rejects
     * and importing the records one by one would clash. Otherwise the store becomes that one-by-one import, and the index
     * is rebuilt to agree with it; if the rebuilt index is too large to be written, the records stay and the index is stale.
     */
    method Import(bundle: Bundle, policy: Policy, time: string -> int, clock: nat -> string, dryRun: bool)
      returns (r: Result<Plan, Refusal>)
      requires Lists()
      modifies this
      ensures Accepts(old(folder), bundle, policy, time, clock) <==> r.Ok? || r == Err(IndexLeftStale)
      ensures !Accepts(old(folder), bundle, policy, time, clock) || dryRun ==> folder == old(folder) && index == old(index)
      ensures Accepts(old(folder), bundle, policy, time, clock) && !dryRun ==>
        && Some(Records(folder)) == ImportEach(policy, time, Records(old(folder)), Dated(bundle.items, clock))
        && AllUsable(folder)
        && (r.Ok? <==> IndexSize(folder) <= DEFAULT_MAX_BYTES)
        && (if r.Ok? then index.Some? && Agrees(folder, index.value) else index == old(index))
      ensures Accepts(old(folder), bundle, policy, time, clock) && dryRun ==> r.Ok?
      ensures r.Err? && r != Err(IndexLeftStale) ==>
        || RefusedFor(bundle, old(folder), r.error)
        || (r.error.Conflicting? && policy == Reject && Acceptable(bundle) && AllUsable(old(folder)))
      ensures r.Ok? ==>
        && bundle.Bundle? && Acceptable(bundle)
        && PlanFor(policy, time, Records(old(folder)), Dated(bundle.items, clock), r.value) && r.value.conflicts == []
    {
      hide AllUsable, SafeId, Laid, AllSafe, Agrees, AbsorbAll, ImportEach, Acceptable, RebuiltSize;
      var planned := ComputeImportPlan(bundle, policy, time, clock);
      if planned.Err? { return Err(planned.error); }
      AcceptableItems(bundle);
      var (plan, seen) := planned.value;
      if plan.conflicts != [] { return Err(Conflicting(plan.conflicts)); }
      if dryRun { return Ok(plan); }
      Commit(seen, plan.create + plan.replace);
      var rescanned := Rescan(folder, readdir(folder), indexSize);
      if rescanned.Err? { return Err(IndexLeftStale); }
      index := Some(rescanned.value);
      return Ok(plan);
    }

    /** Rebuild the index after a change of one record. */
    method RescanUnlocked() returns (r: Result<(), StoreError>)
      requires Lists()
      modifies `index
      ensures r.Ok? <==> AllUsable(folder) && IndexSize(folder) <= DEFAULT_MAX_BYTES
      ensures r.Err? ==> r.error == if AllUsable(folder) then StoreIndexTooLarge else CorruptRecord
      ensures if r.Ok? then index.Some? && Agrees(folder, index.value) else index == old(index)
    {
      hide Agrees, AllUsable, RebuiltSize;
      var rescanned := Rescan(folder, readdir(folder), indexSize);
      if rescanned.Err? { return Err(if rescanned.error.BadRecord? then CorruptRecord else StoreIndexTooLarge); }
      index := Some(rescanned.value);
      return Ok(());
    }

    /**
     * Write one record, already cleaned, unless its id or its size is refused. The rebuilt index agrees, unless some other
     * record file is bad or the index is too large to be written: then the record is there all the same, and the index stale.
     */
    method Put(record: Record) returns (r: Result<(), StoreError>)
      requires Lists()
      modifies this
      ensures r == Err(InvalidId) <==> !SafeId(record.id)
      ensures r == Err(RecordTooLarge) <==> SafeId(record.id) && recordSize(record) > MAX_RECORD_FILE_BYTES
      ensures r == Err(InvalidId) || r == Err(RecordTooLarge) ==> folder == old(folder) && index == old(index)
      ensures r != Err(InvalidId) && r != Err(RecordTooLarge) ==>
        && folder == old(folder)[Json(record.id) := Holds(record, recordSize(record))]
        && Records(folder) == Records(old(folder))[record.id := record]
        && (r.Ok? <==> AllUsable(folder) && IndexSize(folder) <= DEFAULT_MAX_BYTES)
        && (r.Err? ==> r.error == if AllUsable(folder) then StoreIndexTooLarge else CorruptRecord)
        && (if r.Ok? then index.Some? && Agrees(folder, index.value) else index == old(index))
      ensures r != Err(PreconditionFailed)
    {
      hide Agrees, AllUsable, RebuiltSize;
      if !SafeId(record.id) { return Err(InvalidId); }
      if recordSize(record) > MAX_RECORD_FILE_BYTES { return Err(RecordTooLarge); }
      RecordWritten(folder, record, recordSize(record));
      hide SafeId, Records;
      folder := folder[Json(record.id) := Holds(record, recordSize(record))];
      r := RescanUnlocked();
    }

    /**
     * Delete one record, if it is there and, when a date is expected, still has that date. As with Put, a bad record file or
     * a too large index leaves the deletion done and the index stale.
     */
    method Delete(id: string, expected: Option<string>) returns (r: Result<bool, StoreError>)
      requires Lists()
      modifies this
      ensures r == Err(InvalidId) <==> !SafeId(id)
      ensures r == Err(PreconditionFailed) <==>
        SafeId(id) && expected.Some? && id in Records(old(folder)) && Records(old(folder))[id].updatedAt != expected.value
      ensures !MayDelete(old(folder), id, expected) ==>
        folder == old(folder) && index == old(index) && r.Err? && r != Err(StoreIndexTooLarge)
      ensures MayDelete(old(folder), id, expected) ==>
        && folder == old(folder) - {Json(id)} && Records(folder) == Records(old(folder)) - {id}
        && (r.Ok? <==> AllUsable(folder) && IndexSize(folder) <= DEFAULT_MAX_BYTES)
        && (r.Err? ==> r.error == if AllUsable(folder) then StoreIndexTooLarge else CorruptRecord)
        && (if r.Ok? then index.Some? && Agrees(folder, index.value) && (r.value <==> Json(id) in old(folder))
            else index == old(index))
    {
      hide Agrees, AllUsable, RebuiltSize;
      if !SafeId(id) { return Err(InvalidId); }
      ghost var before := folder;
      var name := Json(id);
      var there := name in folder;
      if there && expected.Some? {
        if !Usable(name, folder[name]) { return Err(CorruptRecord); }
        if folder[name].record.updatedAt != expected.value { return Err(PreconditionFailed); }
      }
      RecordDeleted(before, id);
      if there {
        folder := folder - {name};
      } else {
        assert before - {name} == before;
      }
      var rescanned := RescanUnlocked();
      r := if rescanned.Ok? then Ok(there) else Err(rescanned.error);
    }

    /** Move the named entries to the quarantine. */
    method Quarantine(bad: seq<Name>)
      modifies `folder
      ensures folder == old(folder) - Elements(bad)
    {
      assert bad[..0] == [] && bad[..|bad|] == bad;
      for i := 0 to |bad|
        invariant folder == old(folder) - Elements(bad[..i])
      {
        assert bad[..i + 1] == bad[..i] + [bad[i]];
        ElementsGrow(bad[..i], bad[i]);
        folder := folder - {bad[i]};
      }
    }

    /**
     * Check the store, and with repair quarantine every bad entry and a bad index and rebuild the index. The report is ok
     * exactly when the store is healthy. A repair loses no valid record. It leaves a healthy store, unless it has to write
     * an index that is too large: then it fails after the quarantining, and what is left of the index is the old one if that
     * still fits the records, and none otherwise.
     */
    method Doctor(repair: bool) returns (r: Result<bool, ()>)
      requires Lists()
      modifies this
      ensures r.Ok? ==> (r.value <==> Healthy(old(folder), old(index)))
      ensures folder == old(folder) - if repair then Bad(old(folder)) else {}
      ensures Records(folder) == Records(old(folder)) && Files(folder) == Files(old(folder))
      ensures r.Err? <==>
        repair && (!Healthy(old(folder), old(index)) || old(index).None?) && IndexSize(folder) > DEFAULT_MAX_BYTES
      ensures !repair || (Healthy(old(folder), old(index)) && old(index).Some?) ==> index == old(index)
      ensures repair && r.Ok? ==> index.Some? && Healthy(folder, index)
      ensures r.Err? ==> index == if IndexFits(old(index), Known(old(folder))) then old(index) else None
      ensures r.Err? ==>
        (Healthy(folder, index) <==> IndexFits(old(index), Known(old(folder))) || Records(folder) == map[])
    {
      hide Agrees, Usable, Files, Records, IndexFits, Healthy, RebuiltSize;
      ghost var before := folder;
      BadIsNotKept(before);
      var scan := ScanFolder(folder, readdir(folder));
      if repair { Quarantine(scan.bad); }
      var fits := CheckIndex(index, scan);
      FindingsExact(before, index, scan);
      var ok := scan.bad == [] && fits;
      if scan.bad == [] { assert Elements(scan.bad) == {} && folder == before; }
      r := Ok(ok);
      if repair {
        KnownKept(before, folder);
        NothingBad(folder, index);
        NothingBad(folder, None);
        if !fits { index := None; } // quarantined as well
        if !ok || index.None? {
          var rescanned := Rescan(folder, readdir(folder), indexSize);
          if rescanned.Err? { return Err(()); }
          index := Some(rescanned.value);
          RebuiltIsHealthy(folder, rescanned.value);
        }
      }
    }
  }

  /** What is wrong with the bundle or the store, in the order in which it is looked for. */
  ghost predicate RefusedFor(bundle: Bundle, folder: Folder, error: Refusal) {
    match error
    case InvalidBundle => bundle.NotABundle?
    case TooLarge =>
      bundle.Bundle? && (|bundle.items| > MAX_IMPORT_RECORDS || bundle.bytes > MAX_IMPORT_BUNDLE_BYTES)
    case InvalidItem =>
      && bundle.Bundle? && |bundle.items| <= MAX_IMPORT_RECORDS && bundle.bytes <= MAX_IMPORT_BUNDLE_BYTES
      && exists k :: 0 <= k < |bundle.items| && !ValidItem(bundle.items[k])
    case Corrupt => Acceptable(bundle) && !AllUsable(folder)
    case _ => false
  }

  /** Everything but the size of the index speaks for the import. */
  ghost predicate Accepts(folder: Folder, bundle: Bundle, policy: Policy, time: string -> int, clock: nat -> string) {
    && Acceptable(bundle) && AllUsable(folder)
    && ImportEach(policy, time, Records(folder), Dated(bundle.items, clock)).Some?
  }

  lemma AcceptableItems(bundle: Bundle)
    requires Acceptable(bundle)
    ensures bundle.Bundle? && forall k :: 0 <= k < |bundle.items| ==> bundle.items[k].Item?
  {
  }

  /** The deletion gets as far as the file. */
  predicate MayDelete(folder: Folder, id: string, expected: Option<string>) {
    && SafeId(id)
    && (Json(id) in folder && expected.Some? ==>
          Usable(Json(id), folder[Json(id)]) && folder[Json(id)].record.updatedAt == expected.value)
  }

  /** A plan and its resolved records; without conflicts, writing what was chosen is the one-by-one import. */
  ghost predicate Planned(
    store: map<string, Record>, rs: seq<Record>, policy: Policy, time: string -> int, plan: Plan, seen: map<string, Record>)
  {
    && PlanFor(policy, time, store, rs, plan) && AllSafe(seen)
    && (forall id :: id in plan.create + plan.replace ==> id in seen)
    && (plan.conflicts == [] ==>
          ImportEach(policy, time, store, rs) == Some(Laid(store, seen, plan.create + plan.replace)))
  }

  lemma PlanIsPlanned(
    policy: Policy, time: string -> int, store: map<string, Record>, bundle: Bundle, clock: nat -> string, plan: Plan,
    seen: map<string, Record>)
    requires bundle.Bundle? && forall k :: 0 <= k < |bundle.items| ==> bundle.items[k].Item? && SafeId(bundle.items[k].id)
    requires var rs := Dated(bundle.items, clock);
      && seen == AbsorbAll(policy, time, map[], rs) && PlanFor(policy, time, store, rs, plan)
      && (forall id :: id in plan.create + plan.replace ==> id in seen)
      && (plan.conflicts == [] ==>
            AbsorbAll(policy, time, store, rs) == Laid(store, seen, plan.create + plan.replace))
    ensures Planned(store, Dated(bundle.items, clock), policy, time, plan, seen)
  {
    AbsorbedIds(policy, time, Dated(bundle.items, clock));
    hide AbsorbAll, Laid, SafeId;
  }

  lemma KnownKept(before: Folder, after: Folder)
    requires Files(after) == Files(before)
    ensures Known(after) == Known(before)
  {
    hide Files;
  }

  /** Once the bad entries are gone, health is a matter of the index. */
  lemma NothingBad(folder: Folder, index: Option<Index>)
    requires forall n :: n in folder && !Hidden(n) ==> Usable(n, folder[n])
    ensures Healthy(folder, index) <==> IndexFits(index, Known(folder))
    ensures Healthy(folder, None) <==> Records(folder) == map[]
  {
    assert Bad(folder) == {};
    KnownRecords(folder);
    hide Known, Usable, EntryFor, Records;
    if index.None? {
      assert Records(folder) == map[] <==> Records(folder).Keys == {};
      assert Known(folder) == map[] <==> Known(folder).Keys == {};
    }
  }

  lemma RebuiltIsHealthy(folder: Folder, index: Index)
    requires forall n :: n in folder && !Hidden(n) ==> Usable(n, folder[n])
    requires Agrees(folder, index) && index.size <= DEFAULT_MAX_BYTES
    ensures Healthy(folder, Some(index))
  {
  }

  /** Without the entries that are no valid records, all valid records are still there. */
  lemma BadIsNotKept(folder: Folder)
    ensures var left := folder - Bad(folder);
      && Records(left) == Records(folder) && Files(left) == Files(folder) && AllUsable(left)
      && forall n :: n in left && !Hidden(n) ==> Usable(n, left[n])
  {
    hide SafeId;
    assert Ids(folder - Bad(folder)) == Ids(folder);
  }
}
