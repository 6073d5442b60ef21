/** The project memory folder: one JSON file for each record, and the index beside it. */
module MemoryFiles {
  import opened Wrappers

  datatype Record = Record(id: string, content: string, updatedAt: string)

  /** A file that reads and parses as a record of the allowed size, or anything else. */
  datatype File = Holds(record: Record, size: nat) | Unreadable

  /** A file name: `<id>.json`, or one that does not end so. */
  datatype Name = Json(id: string) | Other(text: string)

  type Folder = map<Name, File>

  /** The name starts with a dot. */
  predicate Hidden(name: Name) {
    match name
    case Json(id) => id == "" || id[0] == '.'
    case Other(text) => text != "" && text[0] == '.'
  }

  predicate Alphanumeric(c: char) {
    'A' <= c <= 'Z' || 'a' <= c <= 'z' || '0' <= c <= '9'
  }

  predicate SafeId(id: string) {
    && 1 <= |id| <= 128 && Alphanumeric(id[0])
    && forall k :: 1 <= k < |id| ==> Alphanumeric(id[k]) || id[k] in "._-"
  }

  /** The file reads as a valid record of the id that its name promises. */
  predicate Usable(name: Name, file: File) {
    name.Json? && file.Holds? && file.record.id == name.id && SafeId(name.id)
  }

  /** The store lists these names; all others are passed over. */
  predicate Listed(name: Name) {
    name.Json? && !Hidden(name)
  }

  lemma UsableListed(name: Name, file: File)
    requires Usable(name, file)
    ensures Listed(name) && name == Json(file.record.id)
  {
  }

  /** Some order of the directory's entries, each once. */
  ghost predicate IsListing(folder: Folder, listing: seq<Name>) {
    && (forall n :: n in listing <==> n in folder)
    && forall i, j :: 0 <= i < j < |listing| ==> listing[i] != listing[j]
  }

  ghost function Ids(folder: Folder): (ids: set<string>)
    ensures forall id :: id in ids <==> Json(id) in folder && Usable(Json(id), folder[Json(id)])
  {
    set n | n in folder && Usable(n, folder[n]) :: n.id
  }

  /** The valid record files by id. */
  ghost function Files(folder: Folder): map<string, File> {
    map id | id in Ids(folder) :: folder[Json(id)]
  }

  /** The records of the store by id. */
  ghost function Records(folder: Folder): map<string, Record> {
    map id | id in Ids(folder) :: folder[Json(id)].record
  }

  /** Every listed file is a valid record. */
  ghost predicate AllUsable(folder: Folder) {
    forall n :: n in folder && Listed(n) ==> Usable(n, folder[n])
  }

  lemma IdsWritten(folder: Folder, r: Record, size: nat)
    requires SafeId(r.id)
    ensures Ids(folder[Json(r.id) := Holds(r, size)]) == Ids(folder) + {r.id}
  {
    hide SafeId;
  }

  /** Writing a record's file puts that record into the store and changes no other. */
  lemma RecordWritten(folder: Folder, r: Record, size: nat)
    requires SafeId(r.id)
    ensures Records(folder[Json(r.id) := Holds(r, size)]) == Records(folder)[r.id := r]
  {
    IdsWritten(folder, r, size);
    hide Usable, SafeId;
  }

  lemma FileWritten(folder: Folder, r: Record, size: nat)
    requires SafeId(r.id)
    ensures Files(folder[Json(r.id) := Holds(r, size)]) == Files(folder)[r.id := Holds(r, size)]
  {
    IdsWritten(folder, r, size);
    hide Usable, SafeId;
  }

  lemma WrittenUsable(folder: Folder, r: Record, size: nat)
    requires SafeId(r.id) && AllUsable(folder)
    ensures AllUsable(folder[Json(r.id) := Holds(r, size)])
  {
    assert Usable(Json(r.id), Holds(r, size));
    hide Usable, SafeId;
  }

  /** An entry that is no valid record leaves the valid records as they are. */
  lemma EntryIgnored(folder: Folder, name: Name, file: File)
    requires name !in folder && !Usable(name, file)
    ensures Records(folder[name := file]) == Records(folder)
    ensures Files(folder[name := file]) == Files(folder)
  {
    hide SafeId;
  }

  /** The records are exactly those of the store, each once. */
  ghost predicate ListsAll(records: seq<Record>, store: map<string, Record>) {
    && (forall r :: r in records ==> r.id in store && store[r.id] == r)
    && (forall id :: id in store ==> store[id].id == id && store[id] in records)
    && forall i, j :: 0 <= i < j < |records| ==> records[i].id != records[j].id
  }

  /** The records of the listed names, in the order of the listing. */
  function Selected(folder: Folder, listing: seq<Name>): seq<Record> {
    if listing == [] then []
    else
      var name := listing[|listing| - 1];
      Selected(folder, listing[..|listing| - 1])
      + if name in folder && Usable(name, folder[name]) then [folder[name].record] else []
  }

  lemma SelectedNext(folder: Folder, listing: seq<Name>, i: nat)
    requires i < |listing|
    ensures Selected(folder, listing[..i + 1]) == Selected(folder, listing[..i])
      + if listing[i] in folder && Usable(listing[i], folder[listing[i]]) then [folder[listing[i]].record] else []
  {
    assert listing[..i + 1][..i] == listing[..i];
  }

  lemma OneMoreListed(records: seq<Record>, store: map<string, Record>, r: Record)
    requires ListsAll(records, store) && r.id !in store
    ensures ListsAll(records + [r], store[r.id := r])
  {
  }

  /** The entries listed so far, as a folder of their own. */
  ghost predicate ListedPart(folder: Folder, listing: seq<Name>, i: nat, part: Folder) {
    && (forall n :: n in part ==> n in folder && part[n] == folder[n])
    && (forall k :: 0 <= k < |listing| ==> listing[k] in folder && (k < i <==> listing[k] in part))
  }

  lemma PartBegins(folder: Folder, listing: seq<Name>)
    requires IsListing(folder, listing)
    ensures ListedPart(folder, listing, 0, map[])
  {
  }

  lemma PartGrows(folder: Folder, listing: seq<Name>, i: nat, part: Folder)
    requires IsListing(folder, listing) && ListedPart(folder, listing, i, part) && i < |listing|
    ensures listing[i] in folder && listing[i] !in part
    ensures ListedPart(folder, listing, i + 1, part[listing[i] := folder[listing[i]]])
  {
  }

  lemma PartIsAll(folder: Folder, listing: seq<Name>, part: Folder)
    requires IsListing(folder, listing) && ListedPart(folder, listing, |listing|, part)
    ensures part == folder
  {
    forall n | n in folder ensures n in part {
      var k :| 0 <= k < |listing| && listing[k] == n;
    }
  }

  /** Reading the store: one unreadable record, or one under a wrong name, makes the whole listing fail. */
  method ListUnlocked(folder: Folder, listing: seq<Name>) returns (r: Option<seq<Record>>)
    requires IsListing(folder, listing)
    ensures r.Some? <==> AllUsable(folder)
    ensures r.Some? ==> ListsAll(r.value, Records(folder)) && r.value == Selected(folder, listing)
  {
    var records: seq<Record> := [];
    ghost var part: Folder := map[];
    PartBegins(folder, listing);
    assert ListsAll(records, Records(part));
    assert listing[..0] == [] && listing[..|listing|] == listing;
    assert Selected(folder, listing[..0]) == [];
    hide IsListing, ListedPart, ListsAll, SafeId, Selected;
    for i := 0 to |listing|
      invariant ListedPart(folder, listing, i, part) && AllUsable(part)
      invariant ListsAll(records, Records(part)) && records == Selected(folder, listing[..i])
    {
      var name := listing[i];
      PartGrows(folder, listing, i, part);
      SelectedNext(folder, listing, i);
      if Listed(name) {
        if !Usable(name, folder[name]) { return None; }
        OneMoreListed(records, Records(part), folder[name].record);
        RecordWritten(part, folder[name].record, folder[name].size);
        WrittenUsable(part, folder[name].record, folder[name].size);
        records := records + [folder[name].record];
      } else {
        assert !Usable(name, folder[name]) by { if Usable(name, folder[name]) { UsableListed(name, folder[name]); } }
        EntryIgnored(part, name, folder[name]);
      }
      part := part[name := folder[name]];
    }
    PartIsAll(folder, listing, part);
    return Some(records);
  }

  datatype IndexEntry = IndexEntry(id: string, updatedAt: string, size: nat)

  /** The index file: something that does not read as an index, or the ids and perhaps one entry for each. */
  datatype Index = Malformed(size: nat) | Index(ids: seq<string>, entries: Option<seq<IndexEntry>>, size: nat)

  /** The entry the rescan writes for a record. */
  ghost predicate EntryFor(folder: Folder, entry: IndexEntry) {
    && Json(entry.id) in folder && Usable(Json(entry.id), folder[Json(entry.id)])
    && entry.updatedAt == folder[Json(entry.id)].record.updatedAt
    && entry.size == folder[Json(entry.id)].size
  }

  ghost predicate Distinct<T(!new)>(s: seq<T>) {
    forall i, j :: 0 <= i < j < |s| ==> s[i] != s[j]
  }

  /** The index lists exactly the ids of the valid records, and its entries, if any, exactly their dates and sizes. */
  ghost predicate Agrees(folder: Folder, index: Index) {
    && index.Index? && Distinct(index.ids)
    && (forall id :: id in index.ids <==> id in Records(folder))
    && (index.entries.Some? ==>
          && |index.entries.value| == |index.ids|
          && (forall e :: e in index.entries.value ==> EntryFor(folder, e))
          && (forall id :: id in Records(folder) ==> exists e :: e in index.entries.value && e.id == id))
  }

  function IdList(records: seq<Record>): seq<string> {
    seq(|records|, i requires 0 <= i < |records| => records[i].id)
  }

  function EntryOf(folder: Folder, record: Record): IndexEntry {
    IndexEntry(record.id, record.updatedAt,
               if Json(record.id) in folder && folder[Json(record.id)].Holds? then folder[Json(record.id)].size else 0)
  }

  function EntryList(folder: Folder, records: seq<Record>): seq<IndexEntry> {
    seq(|records|, i requires 0 <= i < |records| => EntryOf(folder, records[i]))
  }

  lemma IdsAgree(records: seq<Record>, store: map<string, Record>)
    requires ListsAll(records, store)
    ensures Distinct(IdList(records)) && forall id :: id in IdList(records) <==> id in store
  {
    var ids := IdList(records);
    forall id | id in ids ensures id in store {
      var k :| 0 <= k < |ids| && ids[k] == id;
      assert records[k] in records;
    }
    forall id | id in store ensures id in ids {
      var k :| 0 <= k < |records| && records[k] == store[id];
      assert ids[k] == id;
    }
  }

  lemma EntriesAgree(folder: Folder, records: seq<Record>)
    requires ListsAll(records, Records(folder))
    ensures forall e :: e in EntryList(folder, records) ==> EntryFor(folder, e)
    ensures forall id :: id in Records(folder) ==> exists e :: e in EntryList(folder, records) && e.id == id
  {
    var entries := EntryList(folder, records);
    forall e | e in entries ensures EntryFor(folder, e) {
      var k :| 0 <= k < |entries| && entries[k] == e;
      assert records[k] in records;
      assert records[k].id in Records(folder);
    }
    forall id | id in Records(folder) ensures exists e :: e in entries && e.id == id {
      var k :| 0 <= k < |records| && records[k] == Records(folder)[id];
      assert entries[k] in entries && entries[k].id == id;
    }
  }

  /** The size of the index that a rescan of the folder writes. */
  function RebuiltSize(folder: Folder, listing: seq<Name>, sizeOf: (seq<string>, seq<IndexEntry>) -> nat): nat {
    var records := Selected(folder, listing);
    sizeOf(IdList(records), EntryList(folder, records))
  }

  /** The cap of an atomic write that names no other. */
  const DEFAULT_MAX_BYTES := 8 * 1024 * 1024

  datatype RescanError = BadRecord | IndexTooLarge

  /** Write the index anew from the records. A bad record, or an index over the cap of a write, makes that fail. */
  method Rescan(folder: Folder, listing: seq<Name>, sizeOf: (seq<string>, seq<IndexEntry>) -> nat)
    returns (index: Result<Index, RescanError>)
    requires IsListing(folder, listing)
    ensures index.Ok? <==> AllUsable(folder) && RebuiltSize(folder, listing, sizeOf) <= DEFAULT_MAX_BYTES
    ensures index.Err? ==> (index.error.BadRecord? <==> !AllUsable(folder))
    ensures index.Ok? ==> Agrees(folder, index.value) && index.value.entries.Some?
    ensures index.Ok? ==> index.value.size == RebuiltSize(folder, listing, sizeOf)
  {
    var listed := ListUnlocked(folder, listing);
    if listed.None? { return Err(BadRecord); }
    var ids, entries := IdList(listed.value), EntryList(folder, listed.value);
    IdsAgree(listed.value, Records(folder));
    EntriesAgree(folder, listed.value);
    hide Agrees, AllUsable;
    if sizeOf(ids, entries) > DEFAULT_MAX_BYTES { return Err(IndexTooLarge); }
    return Ok(Index(ids, Some(entries), sizeOf(ids, entries)));
  }
}
