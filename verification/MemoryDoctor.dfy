/** The checks of the memory doctor. */
module MemoryDoctor {
  import opened MemoryFiles
  import opened StringSort
  import opened Wrappers

  const MAX_INDEX_FILE_BYTES := 8 * 1024 * 1024

  /** What the scan notes of a valid record. */
  datatype Seen = Seen(updatedAt: string, size: nat)

  /** A scan of the folder: the ids of the valid records as listed, what was noted of them, and the bad entries. */
  datatype Scan = Scan(ids: seq<string>, known: map<string, Seen>, bad: seq<Name>)

  ghost function Elements<T>(s: seq<T>): set<T> {
    set x | x in s
  }

  lemma ElementsGrow<T(!new)>(s: seq<T>, x: T)
    ensures Elements(s + [x]) == Elements(s) + {x}
    ensures Distinct(s) && x !in Elements(s) ==> Distinct(s + [x])
  {
  }

  /** What there is to note of the valid records. */
  ghost function Known(folder: Folder): map<string, Seen> {
    map id | id in Files(folder) && Files(folder)[id].Holds? ::
      Seen(Files(folder)[id].record.updatedAt, Files(folder)[id].size)
  }

  /** The entries that are neither hidden nor valid records. */
  ghost function Bad(folder: Folder): set<Name> {
    set n | n in folder && !Hidden(n) && !Usable(n, folder[n])
  }

  /** The scan found exactly the valid records, and exactly the other entries that are not hidden to be bad. */
  ghost predicate ScanOf(folder: Folder, scan: Scan) {
    && scan.known == Known(folder) && Elements(scan.bad) == Bad(folder)
    && Distinct(scan.ids) && Elements(scan.ids) == scan.known.Keys
  }

  /** A further entry that is no valid record, whether hidden or bad. */
  lemma OtherEntry(part: Folder, name: Name, file: File)
    requires name !in part && !Usable(name, file)
    ensures Known(part[name := file]) == Known(part)
    ensures Bad(part[name := file]) == Bad(part) + if Hidden(name) then {} else {name}
  {
    EntryIgnored(part, name, file);
    hide Usable, Files;
  }

  lemma KnownGrows(part: Folder, record: Record, size: nat)
    requires SafeId(record.id)
    ensures Known(part[Json(record.id) := Holds(record, size)]) == Known(part)[record.id := Seen(record.updatedAt, size)]
  {
    FileWritten(part, record, size);
    hide Files, SafeId;
  }

  lemma RecordEntry(part: Folder, name: Name, file: File)
    requires name !in part && Usable(name, file)
    ensures !Hidden(name) && file.Holds? && file.record.id !in Known(part)
    ensures Known(part[name := file]) == Known(part)[file.record.id := Seen(file.record.updatedAt, file.size)]
    ensures Bad(part[name := file]) == Bad(part)
  {
    KnownGrows(part, file.record, file.size);
    assert file.record.id !in Files(part);
    hide SafeId, Files;
  }

  method ScanFolder(folder: Folder, listing: seq<Name>) returns (scan: Scan)
    requires IsListing(folder, listing)
    ensures ScanOf(folder, scan)
  {
    scan := Scan([], map[], []);
    ghost var part: Folder := map[];
    PartBegins(folder, listing);
    assert ScanOf(part, scan);
    hide Known, Bad, Elements, Distinct, IsListing, ListedPart, SafeId;
    for i := 0 to |listing|
      invariant ListedPart(folder, listing, i, part) && ScanOf(part, scan)
    {
      PartGrows(folder, listing, i, part);
      var name := listing[i];
      var file := folder[name];
      if Usable(name, file) { RecordEntry(part, name, file); } else { OtherEntry(part, name, file); }
      part := part[name := file];
      if !Hidden(name) {
        if Usable(name, file) {
          ElementsGrow(scan.ids, file.record.id);
          scan := Scan(scan.ids + [file.record.id], scan.known[file.record.id := Seen(file.record.updatedAt, file.size)], scan.bad);
        } else {
          ElementsGrow(scan.bad, name);
          scan := scan.(bad := scan.bad + [name]);
        }
      }
    }
    PartIsAll(folder, listing, part);
  }

  /** The index, if there is one, is not too large and lists exactly the known ids, with matching entries if it has any. */
  ghost predicate IndexFits(index: Option<Index>, known: map<string, Seen>) {
    match index
    case None => known == map[]
    case Some(Malformed(_)) => false
    case Some(Index(ids, entries, size)) =>
      && size <= MAX_INDEX_FILE_BYTES && Distinct(ids) && (forall id :: id in ids <==> id in known)
      && (entries.Some? ==> EntriesFit(entries.value, |ids|, known))
  }

  ghost predicate EntriesFit(entries: seq<IndexEntry>, count: nat, known: map<string, Seen>) {
    && |entries| == count
    && (forall e :: e in entries ==> e.id in known && known[e.id] == Seen(e.updatedAt, e.size))
    && (forall id :: id in known ==> exists e :: e in entries && e.id == id)
  }

  /** As the known ids are distinct, equal sorted lists mean distinct ids and the same ones. */
  lemma SameSortedIds(ids: seq<string>, known: seq<string>)
    requires Distinct(known)
    ensures Sort(ids) == Sort(known) <==> Distinct(ids) && forall id :: id in ids <==> id in known
  {
    SortedEqualIff(ids, known);
    DistinctCounts(known);
    if multiset(ids) == multiset(known) {
      forall id ensures id in ids <==> id in known {
        assert id in multiset(ids) <==> id in multiset(known);
      }
      CountsDistinct(ids);
    }
    if Distinct(ids) && forall id :: id in ids <==> id in known {
      DistinctCounts(ids);
      forall id ensures multiset(ids)[id] == multiset(known)[id] {
        assert id in ids <==> id in multiset(ids);
        assert id in known <==> id in multiset(known);
      }
      assert multiset(ids) == multiset(known);
    }
  }

  lemma {:induction false} DistinctCounts(s: seq<string>)
    requires Distinct(s)
    ensures forall id :: multiset(s)[id] <= 1
  {
    if s != [] {
      DistinctCounts(s[1..]);
      assert s == [s[0]] + s[1..];
      assert s[0] !in s[1..];
      assert s[0] !in multiset(s[1..]);
    }
  }

  lemma CountsDistinct(s: seq<string>)
    requires forall id :: multiset(s)[id] <= 1
    ensures Distinct(s)
  {
    forall i, j | 0 <= i < j < |s| ensures s[i] != s[j] {
      if s[i] == s[j] {
        CountedTwice(s, i, j);
        assert false;
      }
    }
  }

  lemma CountedTwice(s: seq<string>, i: nat, j: nat)
    requires i < j < |s| && s[i] == s[j]
    ensures multiset(s)[s[i]] >= 2
  {
    assert s == s[..i] + [s[i]] + s[i + 1..j] + [s[j]] + s[j + 1..];
  }

  /** As many distinct ids as there are, each of them known, are all of them. */
  lemma AllNamed(entries: seq<IndexEntry>, seen: set<string>, known: map<string, Seen>)
    requires |entries| == |known| == |seen| && seen <= known.Keys
    requires forall id :: id in seen ==> exists e :: e in entries && e.id == id
    ensures forall id :: id in known ==> exists e :: e in entries && e.id == id
  {
    SubsetOfEqualSize(seen, known.Keys);
  }

  lemma SubsetOfEqualSize(a: set<string>, b: set<string>)
    requires a <= b && |a| == |b|
    ensures a == b
  {
    assert |b - a| == |b| - |a|;
    assert b == a + (b - a);
  }

  lemma KnownCount(ids: seq<string>, known: map<string, Seen>)
    requires Distinct(ids) && forall id :: id in ids <==> id in known
    ensures |ids| == |known|
  {
    DistinctSize(ids);
    assert (set id | id in ids) == known.Keys;
  }

  lemma {:induction false} DistinctSize(s: seq<string>)
    requires Distinct(s)
    ensures |set id | id in s| == |s|
  {
    if s != [] {
      DistinctSize(s[1..]);
      assert (set id | id in s) == (set id | id in s[1..]) + {s[0]};
    }
  }

  /** The entries as the doctor reads them: no id twice, every one known, with its date and size. */
  method CheckEntries(entries: seq<IndexEntry>, ids: seq<string>, known: map<string, Seen>) returns (ok: bool)
    requires Distinct(ids) && forall id :: id in ids <==> id in known
    ensures ok <==> EntriesFit(entries, |ids|, known)
  {
    KnownCount(ids, known);
    if |entries| != |ids| { return false; }
    var seen: set<string> := {};
    for i := 0 to |entries|
      invariant |seen| == i && seen <= known.Keys
      invariant forall k :: 0 <= k < i ==>
        entries[k].id in seen && entries[k].id in known && known[entries[k].id] == Seen(entries[k].updatedAt, entries[k].size)
      invariant forall id :: id in seen ==> exists k :: 0 <= k < i && entries[k].id == id
    {
      var e := entries[i];
      assert e in entries;
      if e.id in seen {
        DuplicateEntry(entries, i, known);
        return false;
      }
      seen := seen + {e.id};
      if e.id !in known || known[e.id].updatedAt != e.updatedAt || known[e.id].size != e.size { return false; }
    }
    forall id | id in seen ensures exists e :: e in entries && e.id == id {
      var k :| 0 <= k < |entries| && entries[k].id == id;
      assert entries[k] in entries;
    }
    AllNamed(entries, seen, known);
    return true;
  }

  /** With an id twice among as many entries as there are ids, some id is missing. */
  lemma DuplicateEntry(entries: seq<IndexEntry>, i: nat, known: map<string, Seen>)
    requires i < |entries| == |known| && exists k :: 0 <= k < i && entries[k].id == entries[i].id
    ensures !forall id :: id in known ==> exists e :: e in entries && e.id == id
  {
    var k :| 0 <= k < i && entries[k].id == entries[i].id;
    var rest := entries[..i] + entries[i + 1..];
    var named := set e | e in rest :: e.id;
    NamedBound(rest);
    if forall id :: id in known ==> exists e :: e in entries && e.id == id {
      assert rest[k] in rest;
      forall id | id in known ensures id in named {
        var e :| e in entries && e.id == id;
        var j :| 0 <= j < |entries| && entries[j] == e;
        assert j < i ==> rest[j] == e;
        assert j > i ==> rest[j - 1] == e;
      }
      assert known.Keys <= named;
      Smaller(known.Keys, named);
      assert false;
    }
  }

  lemma Smaller(a: set<string>, b: set<string>)
    requires a <= b
    ensures |a| <= |b|
  {
    assert |b - a| == |b| - |a|;
  }

  lemma {:induction false} NamedBound(entries: seq<IndexEntry>)
    ensures |set e | e in entries :: e.id| <= |entries|
  {
    if entries != [] {
      NamedBound(entries[1..]);
      assert (set e | e in entries :: e.id) == (set e | e in entries[1..] :: e.id) + {entries[0].id};
    }
  }

  /** The doctor's look at the index. */
  method CheckIndex(index: Option<Index>, scan: Scan) returns (ok: bool)
    requires Distinct(scan.ids) && forall id :: id in scan.ids <==> id in scan.known
    ensures ok <==> IndexFits(index, scan.known)
  {
    match index
    case None =>
      if scan.ids == [] { assert scan.known == map[]; } else { assert scan.ids[0] in scan.known; }
      return scan.ids == [];
    case Some(Malformed(_)) =>
      return false;
    case Some(Index(ids, entries, size)) =>
      if size > MAX_INDEX_FILE_BYTES { return false; }
      SameSortedIds(ids, scan.ids);
      if Sort(ids) != Sort(scan.ids) { return false; }
      KnownCount(scan.ids, scan.known);
      KnownCount(ids, scan.known);
      if entries.None? { return true; }
      ok := CheckEntries(entries.value, scan.ids, scan.known);
  }

  /** Every entry that is not hidden is a valid record, and the index, if any, fits; it may be missing only when there is none. */
  ghost predicate Healthy(folder: Folder, index: Option<Index>) {
    && (forall n :: n in folder && !Hidden(n) ==> Usable(n, folder[n]))
    && match index {
         case None => Records(folder) == map[]
         case Some(i) => i.size <= MAX_INDEX_FILE_BYTES && Agrees(folder, i)
       }
  }

  lemma KnownRecords(folder: Folder)
    ensures Known(folder).Keys == Records(folder).Keys
    ensures forall e: IndexEntry ::
      (e.id in Known(folder) && Known(folder)[e.id] == Seen(e.updatedAt, e.size)) <==> EntryFor(folder, e)
  {
  }

  lemma NoneBad(folder: Folder, scan: Scan)
    requires ScanOf(folder, scan)
    ensures scan.bad == [] <==> forall n :: n in folder && !Hidden(n) ==> Usable(n, folder[n])
  {
    hide Known, Usable, Distinct;
    if scan.bad != [] {
      assert scan.bad[0] in Bad(folder);
    } else {
      assert Bad(folder) == {};
      assert forall n :: n in folder && !Hidden(n) ==> n !in Bad(folder);
    }
  }

  /** The index fits what is known exactly when it agrees with the records, or there are neither. */
  lemma FitsIff(folder: Folder, index: Option<Index>)
    ensures IndexFits(index, Known(folder)) <==>
      match index {
        case None => Records(folder) == map[]
        case Some(i) => i.size <= MAX_INDEX_FILE_BYTES && Agrees(folder, i)
      }
  {
    KnownRecords(folder);
    hide Known, EntryFor, Records;
    if index.None? {
      assert Records(folder) == map[] <==> Records(folder).Keys == {};
      assert Known(folder) == map[] <==> Known(folder).Keys == {};
    }
  }

  /** The doctor's findings amount to that. */
  lemma FindingsExact(folder: Folder, index: Option<Index>, scan: Scan)
    requires ScanOf(folder, scan)
    ensures scan.bad == [] && IndexFits(index, scan.known) <==> Healthy(folder, index)
  {
    NoneBad(folder, scan);
    FitsIff(folder, index);
    hide Known, Usable, Records, IndexFits, Agrees, Distinct;
  }
}
