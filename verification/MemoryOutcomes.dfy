/** Which record each id has after an import, by policy, and what a healthy store is, read off its files. */
module MemoryOutcomes {
  import opened MemoryDoctor
  import opened MemoryFiles
  import opened MemoryImport
  import opened Wrappers

  // ---- The record of an id, after the records were imported one by one ----

  /** Record k is of this id, and no earlier one is. */
  ghost predicate FirstOf(rs: seq<Record>, id: string, k: int) {
    0 <= k < |rs| && rs[k].id == id && forall j :: 0 <= j < k ==> rs[j].id != id
  }

  ghost predicate LastOf(rs: seq<Record>, id: string, k: int) {
    0 <= k < |rs| && rs[k].id == id && forall j :: k < j < |rs| ==> rs[j].id != id
  }

  ghost predicate NoneOf(rs: seq<Record>, id: string) {
    forall j :: 0 <= j < |rs| ==> rs[j].id != id
  }

  /** Skip and reject keep the stored record, or else the first one of the bundle. */
  ghost predicate KeepsFirst(store: map<string, Record>, rs: seq<Record>, id: string, r: Record) {
    if id in store then r == store[id] else exists k :: FirstOf(rs, id, k) && r == rs[k]
  }

  /** Replace takes the last one of the bundle, or else keeps the stored record. */
  ghost predicate KeepsLast(store: map<string, Record>, rs: seq<Record>, id: string, r: Record) {
    if NoneOf(rs, id) then id in store && r == store[id] else exists k :: LastOf(rs, id, k) && r == rs[k]
  }

  /** Nothing of this id is newer than the record kept. */
  ghost predicate Newest(time: string -> int, store: map<string, Record>, rs: seq<Record>, id: string, r: Record) {
    && (id in store ==> time(store[id].updatedAt) <= time(r.updatedAt))
    && forall k :: 0 <= k < |rs| && rs[k].id == id ==> time(rs[k].updatedAt) <= time(r.updatedAt)
  }

  /** Everything of this id that comes before record k, the stored record included, is older than it. */
  ghost predicate Outdates(time: string -> int, store: map<string, Record>, rs: seq<Record>, id: string, k: int) {
    && 0 <= k < |rs| && rs[k].id == id
    && (id in store ==> time(store[id].updatedAt) < time(rs[k].updatedAt))
    && forall j :: 0 <= j < k && rs[j].id == id ==> time(rs[j].updatedAt) < time(rs[k].updatedAt)
  }

  /** Newer-wins keeps the newest, and among equally new ones the stored record or else the first one of the bundle. */
  ghost predicate KeepsNewest(time: string -> int, store: map<string, Record>, rs: seq<Record>, id: string, r: Record) {
    && Newest(time, store, rs, id, r)
    && ((id in store && r == store[id]) || exists k :: Outdates(time, store, rs, id, k) && r == rs[k])
  }

  ghost predicate Keeps(
    policy: Policy, time: string -> int, store: map<string, Record>, rs: seq<Record>, id: string, r: Record)
  {
    match policy
    case Reject => KeepsFirst(store, rs, id, r)
    case Skip => KeepsFirst(store, rs, id, r)
    case Replace => KeepsLast(store, rs, id, r)
    case NewerWins => KeepsNewest(time, store, rs, id, r)
  }

  lemma FirstStep(store: map<string, Record>, init: seq<Record>, last: Record, id: string, r: Record)
    requires id in store || !NoneOf(init, id) ==> KeepsFirst(store, init, id, r)
    requires !(id in store || !NoneOf(init, id)) ==> id == last.id && r == last
    ensures KeepsFirst(store, init + [last], id, r)
  {
    var rs := init + [last];
    if id !in store {
      if NoneOf(init, id) {
        assert FirstOf(rs, id, |init|);
      } else {
        var k :| FirstOf(init, id, k) && r == init[k];
        assert FirstOf(rs, id, k);
      }
    }
  }

  lemma LastStep(store: map<string, Record>, init: seq<Record>, last: Record, id: string, r: Record)
    requires id != last.id ==> KeepsLast(store, init, id, r)
    requires id == last.id ==> r == last
    ensures KeepsLast(store, init + [last], id, r)
  {
    var rs := init + [last];
    assert rs[|init|] == last;
    if id == last.id {
      assert LastOf(rs, id, |init|);
    } else if NoneOf(init, id) {
      assert NoneOf(rs, id);
    } else {
      var k :| LastOf(init, id, k) && r == init[k];
      assert LastOf(rs, id, k);
    }
  }

  lemma NewestStep(
    time: string -> int, store: map<string, Record>, init: seq<Record>, last: Record, id: string, before: Option<Record>,
    r: Record)
    requires before.None? <==> id !in store && NoneOf(init, id)
    requires before.Some? ==> KeepsNewest(time, store, init, id, before.value)
    requires r == if before.Some? && (last.id != id || time(last.updatedAt) <= time(before.value.updatedAt)) then before.value
                  else last
    requires before.None? ==> last.id == id
    ensures KeepsNewest(time, store, init + [last], id, r)
  {
    var rs := init + [last];
    assert rs[|init|] == last;
    if before.Some? && r == before.value && !(id in store && r == store[id]) {
      var k :| Outdates(time, store, init, id, k) && r == init[k];
      assert Outdates(time, store, rs, id, k);
    } else if before.None? || (last.id == id && time(last.updatedAt) > time(before.value.updatedAt)) {
      assert Outdates(time, store, rs, id, |init|);
    }
  }

  /** The store has exactly the ids of before and of the records, each with the record its policy keeps. */
  ghost predicate Imported(
    policy: Policy, time: string -> int, store: map<string, Record>, rs: seq<Record>, after: map<string, Record>, id: string)
  {
    && (id in after <==> id in store || !NoneOf(rs, id))
    && (id in after ==> Keeps(policy, time, store, rs, id, after[id]))
  }

  lemma IdStep(
    policy: Policy, time: string -> int, store: map<string, Record>, init: seq<Record>, last: Record,
    before: map<string, Record>, id: string)
    requires Imported(policy, time, store, init, before, id)
    ensures Imported(policy, time, store, init + [last], Absorb(policy, time, before, last), id)
  {
    hide KeepsFirst, KeepsLast, KeepsNewest;
    var after := Absorb(policy, time, before, last);
    assert NoneOf(init + [last], id) <==> NoneOf(init, id) && last.id != id by {
      assert forall j :: 0 <= j < |init| ==> (init + [last])[j] == init[j];
      assert (init + [last])[|init|] == last;
    }
    if id in after {
      match policy
      case Reject => FirstStep(store, init, last, id, after[id]);
      case Skip => FirstStep(store, init, last, id, after[id]);
      case Replace => LastStep(store, init, last, id, after[id]);
      case NewerWins =>
        NewestStep(time, store, init, last, id, if id in before then Some(before[id]) else None, after[id]);
    }
  }

  /** What importing one by one amounts to, for every policy and id. */
  lemma {:induction false} ImportKeeps(policy: Policy, time: string -> int, store: map<string, Record>, rs: seq<Record>)
    ensures forall id :: Imported(policy, time, store, rs, AbsorbAll(policy, time, store, rs), id)
  {
    if rs == [] {
    } else {
      var init, last := rs[..|rs| - 1], rs[|rs| - 1];
      ImportKeeps(policy, time, store, init);
      hide Imported, Absorb;
      assert rs == init + [last];
      forall id ensures Imported(policy, time, store, rs, AbsorbAll(policy, time, store, rs), id) {
        IdStep(policy, time, store, init, last, AbsorbAll(policy, time, store, init), id);
      }
    }
  }

  ghost predicate AllNew(store: map<string, Record>, rs: seq<Record>) {
    && (forall i, j :: 0 <= i < j < |rs| ==> rs[i].id != rs[j].id)
    && forall i :: 0 <= i < |rs| ==> rs[i].id !in store
  }

  ghost predicate HasAll(after: map<string, Record>, rs: seq<Record>) {
    forall i :: 0 <= i < |rs| ==> rs[i].id in after && after[rs[i].id] == rs[i]
  }

  lemma AllNewStep(store: map<string, Record>, init: seq<Record>, last: Record)
    ensures AllNew(store, init + [last]) <==> AllNew(store, init) && last.id !in store && NoneOf(init, last.id)
  {
    var rs := init + [last];
    assert rs[|init|] == last && forall k :: 0 <= k < |init| ==> rs[k] == init[k];
  }

  lemma HasAllStep(before: map<string, Record>, init: seq<Record>, last: Record)
    requires HasAll(before, init) && last.id !in before
    ensures HasAll(before[last.id := last], init + [last])
  {
  }

  /** A rejecting import meets no clash exactly when no id comes twice or is in the store; it then adds every record. */
  lemma {:induction false} RejectAdds(time: string -> int, store: map<string, Record>, rs: seq<Record>)
    ensures var after := ImportEach(Reject, time, store, rs);
      (after.Some? <==> AllNew(store, rs)) && (after.Some? ==> HasAll(after.value, rs))
  {
    if rs == [] {
    } else {
      var init, last := rs[..|rs| - 1], rs[|rs| - 1];
      assert rs == init + [last];
      RejectAdds(time, store, init);
      ImportKeeps(Reject, time, store, init);
      assert Imported(Reject, time, store, init, AbsorbAll(Reject, time, store, init), last.id);
      AllNewStep(store, init, last);
      hide AbsorbAll, AllNew, HasAll, NoneOf, Keeps;
      var before := ImportEach(Reject, time, store, init);
      if before.Some? && last.id !in before.value { HasAllStep(before.value, init, last); }
    }
  }

  /** The records of a bundle: each item's id and content, and its date or else the clock's reading for it. */
  lemma DatedIs(items: seq<Item>, clock: nat -> string)
    requires forall k :: 0 <= k < |items| ==> items[k].Item?
    ensures |Dated(items, clock)| == |items|
    ensures forall k :: 0 <= k < |items| ==>
      var r := Dated(items, clock)[k];
      && r.id == items[k].id && r.content == items[k].content
      && (items[k].date == Some(r.updatedAt) || (items[k].date == None && r.updatedAt == clock(k)))
  {
  }

  /** A bundle is acceptable exactly within 1000 items and 8 MiB, with every item cleaned and of a safe id. */
  lemma AcceptableIff(bundle: Bundle)
    ensures Acceptable(bundle) <==>
      exists items: seq<Item>, bytes: nat :: bundle == Bundle(items, bytes) && |items| <= 1000 && bytes <= 8 * 1024 * 1024
        && forall k :: 0 <= k < |items| ==> items[k].Item? && SafeId(items[k].id)
  {
    hide SafeId;
    if bundle.Bundle? { assert bundle == Bundle(bundle.items, bundle.bytes); }
  }

  /** A safe id names one visible file of its own folder: it has no separator, does not begin with a dot, and is no path. */
  lemma SafeIdIsPlain(id: string)
    requires SafeId(id)
    ensures 0 < |id| <= 128 && id != "." && id != ".."
    ensures forall c :: c in id ==> c != '/' && c != '\\' && c != ':' && c != '\0' && c != ' '
    ensures !Hidden(Json(id)) && Listed(Json(id))
  {
    forall c | c in id ensures c != '/' && c != '\\' && c != ':' && c != '\0' && c != ' ' {
      var k :| 0 <= k < |id| && id[k] == c;
    }
  }

  // ---- Health, read off the folder ----

  function FileName(name: Name): string {
    match name
    case Json(id) => id + ".json"
    case Other(text) => text
  }

  /** The folder has a readable record of this id, of this size, in the file of this id. */
  predicate IsRecordFile(folder: Folder, id: string, r: Record, size: nat) {
    Json(id) in folder && folder[Json(id)] == Holds(r, size) && r.id == id && SafeId(id)
  }

  ghost predicate HasRecord(folder: Folder, id: string) {
    exists r, size :: IsRecordFile(folder, id, r, size)
  }

  /** The entry is the id, date and size of a record file. */
  ghost predicate Describes(folder: Folder, e: IndexEntry) {
    exists r :: IsRecordFile(folder, e.id, r, e.size) && r.updatedAt == e.updatedAt
  }

  lemma RecordIs(folder: Folder, id: string)
    ensures HasRecord(folder, id) <==> Json(id) in folder && Usable(Json(id), folder[Json(id)])
    ensures HasRecord(folder, id) <==> id in Records(folder)
  {
    hide SafeId;
    if Json(id) in folder && Usable(Json(id), folder[Json(id)]) {
      assert IsRecordFile(folder, id, folder[Json(id)].record, folder[Json(id)].size);
    }
  }

  lemma EntryIs(folder: Folder, e: IndexEntry)
    ensures EntryFor(folder, e) <==> Describes(folder, e)
  {
    hide SafeId;
    if EntryFor(folder, e) { assert IsRecordFile(folder, e.id, folder[Json(e.id)].record, e.size); }
  }

  lemma HiddenIs(name: Name)
    ensures Hidden(name) <==> FileName(name) != "" && FileName(name)[0] == '.'
  {
  }

  /**
   * The store is healthy exactly when every file whose name does not begin with a dot is a readable record of the id in its
   * name, and the index, which only an empty store may lack, is within 8 MiB and lists each record's id once, with entries,
   * if it has any, for exactly the records.
   */
  lemma HealthyIff(folder: Folder, index: Option<Index>)
    ensures Healthy(folder, index) <==>
      && (forall n :: n in folder && (FileName(n) == "" || FileName(n)[0] != '.') ==>
            n.Json? && HasRecord(folder, n.id))
      && (index.None? ==> forall id :: !HasRecord(folder, id))
      && (index.Some? ==>
            && index.value.Index? && index.value.size <= 8 * 1024 * 1024
            && var ids := index.value.ids;
            && (forall i, j :: 0 <= i < j < |ids| ==> ids[i] != ids[j])
            && (forall id :: id in ids <==> HasRecord(folder, id))
            && (index.value.entries.Some? ==>
                  var entries := index.value.entries.value;
                  && |entries| == |ids| && (forall e :: e in entries ==> Describes(folder, e))
                  && forall id :: HasRecord(folder, id) ==> exists e :: e in entries && e.id == id))
  {
    forall id { RecordIs(folder, id); }
    forall e { EntryIs(folder, e); }
    forall n ensures Hidden(n) <==> FileName(n) != "" && FileName(n)[0] == '.' {
      HiddenIs(n);
    }
    VisibleIs(folder);
    EmptyIs(folder);
    hide Usable, Records, HasRecord, Describes, EntryFor, Hidden, FileName;
  }

  lemma EmptyIs(folder: Folder)
    ensures Records(folder) == map[] <==> forall id :: !HasRecord(folder, id)
  {
    forall id { RecordIs(folder, id); }
    hide Records, HasRecord, Usable;
    assert Records(folder) == map[] <==> Records(folder).Keys == {};
  }

  lemma VisibleIs(folder: Folder)
    ensures forall n :: n in folder ==> (Usable(n, folder[n]) <==> n.Json? && HasRecord(folder, n.id))
  {
    forall id { RecordIs(folder, id); }
    hide SafeId, HasRecord;
  }
}
