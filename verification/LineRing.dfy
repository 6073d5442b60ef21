/** The ring buffer that keeps the last lines of a transcript and spills the oldest when they grow too large. */
module LineRing {
  import opened Utf8

  datatype Line = Line(raw: string, unterminated: bool)

  datatype Entry = Entry(raw: string, unterminated: bool, bytes: nat, spilled: bool)

  // ---- Sequences of lines and entries ----

  function BytesOf(lines: seq<Line>): nat {
    if lines == [] then 0 else ByteLength(lines[0].raw) + BytesOf(lines[1..])
  }

  function TotalOf(entries: seq<Entry>): nat {
    if entries == [] then 0 else entries[0].bytes + TotalOf(entries[1..])
  }

  function MemoryOf(entries: seq<Entry>): nat {
    if entries == [] then 0 else (if entries[0].spilled then 0 else entries[0].bytes) + MemoryOf(entries[1..])
  }

  /** The last lines of what was pushed, at most n of them. */
  function LastOf<T>(pushed: seq<T>, n: nat): seq<T> {
    if |pushed| <= n then pushed else pushed[|pushed| - n..]
  }

  lemma {:induction false} SumsAppend(entries: seq<Entry>, e: Entry)
    ensures TotalOf(entries + [e]) == TotalOf(entries) + e.bytes
    ensures MemoryOf(entries + [e]) == MemoryOf(entries) + if e.spilled then 0 else e.bytes
  {
    if entries == [] {
      assert [e][1..] == [];
    } else {
      SumsAppend(entries[1..], e);
      assert (entries + [e])[1..] == entries[1..] + [e];
    }
  }

  lemma {:induction false} MemorySkipsSpilled(entries: seq<Entry>, i: nat)
    requires i <= |entries| && forall h :: 0 <= h < i ==> entries[h].spilled
    ensures MemoryOf(entries) == MemoryOf(entries[i..]) <= TotalOf(entries[i..])
  {
    if i == 0 {
      assert entries[0..] == entries;
      MemoryAtMostTotal(entries);
    } else {
      MemorySkipsSpilled(entries[1..], i - 1);
      assert entries[1..][i - 1..] == entries[i..];
    }
  }

  lemma {:induction false} MemoryAtMostTotal(entries: seq<Entry>)
    ensures MemoryOf(entries) <= TotalOf(entries)
  {
    if entries != [] {
      MemoryAtMostTotal(entries[1..]);
    }
  }

  lemma {:induction false} SuffixAtMostTotal(entries: seq<Entry>, i: nat)
    requires i <= |entries|
    ensures TotalOf(entries[i..]) <= TotalOf(entries)
  {
    if i == 0 {
      assert entries[0..] == entries;
    } else {
      SuffixAtMostTotal(entries[1..], i - 1);
      assert entries[1..][i - 1..] == entries[i..];
    }
  }

  function Spill(entries: seq<Entry>, i: nat): seq<Entry>
    requires i < |entries|
  {
    entries[i := entries[i].(raw := "", spilled := true)]
  }

  lemma {:induction false} SpillSums(entries: seq<Entry>, i: nat)
    requires i < |entries| && !entries[i].spilled
    ensures TotalOf(Spill(entries, i)) == TotalOf(entries)
    ensures MemoryOf(entries) == MemoryOf(Spill(entries, i)) + entries[i].bytes
  {
    if i > 0 {
      SpillSums(entries[1..], i - 1);
      assert Spill(entries, i)[1..] == Spill(entries[1..], i - 1);
    }
  }

  lemma {:induction false} SpillSuffix(entries: seq<Entry>, i: nat, j: nat)
    requires i < |entries| && j <= |entries| && !entries[i].spilled
    ensures TotalOf(Spill(entries, i)[j..]) == TotalOf(entries[j..])
  {
    if j <= i {
      SpillSums(entries[j..], i - j);
      assert Spill(entries, i)[j..] == Spill(entries[j..], i - j);
    } else {
      assert Spill(entries, i)[j..] == entries[j..];
    }
  }

  /** An entry is spilled only while it and what follows it exceed the cap. */
  ghost predicate SpilledForCause(entries: seq<Entry>, maxBytes: nat) {
    forall i :: 0 <= i < |entries| && entries[i].spilled ==> TotalOf(entries[i..]) > maxBytes
  }

  /** An entry records a line, its bytes, and its text unless spilled. */
  ghost predicate Records(e: Entry, line: Line) {
    && e.bytes == ByteLength(line.raw)
    && e.unterminated == line.unterminated
    && e.raw == (if e.spilled then "" else line.raw)
  }

  ghost predicate RecordsAll(entries: seq<Entry>, lines: seq<Line>) {
    |entries| == |lines| && forall i :: 0 <= i < |lines| ==> Records(entries[i], lines[i])
  }

  lemma {:induction false} RecordedBytes(entries: seq<Entry>, lines: seq<Line>)
    requires RecordsAll(entries, lines)
    ensures TotalOf(entries) == BytesOf(lines)
  {
    if entries != [] {
      RecordedBytes(entries[1..], lines[1..]);
    }
  }

  ghost predicate AnySpilled(entries: seq<Entry>) {
    exists i :: 0 <= i < |entries| && entries[i].spilled
  }

  /** The size test fires exactly when the lines really kept exceed the cap. */
  lemma SizeTestExact(entries: seq<Entry>, lines: seq<Line>, maxBytes: nat)
    requires RecordsAll(entries, lines) && SpilledForCause(entries, maxBytes)
    ensures TotalOf(entries) > maxBytes || AnySpilled(entries) <==> BytesOf(lines) > maxBytes
  {
    RecordedBytes(entries, lines);
    if i :| 0 <= i < |entries| && entries[i].spilled {
      SuffixAtMostTotal(entries, i);
    }
  }

  // ---- Positions in the ring ----

  /** The slot of the i-th entry; at most one wrap separates it from the head. */
  function Position(head: nat, i: nat, capacity: nat): (p: nat)
    requires head < capacity && i <= capacity
    ensures p < capacity && p == if head + i < capacity then head + i else head + i - capacity
  {
    if head + i < capacity then
      SmallMod(head + i, capacity);
      (head + i) % capacity
    else
      ModStep(head + i - capacity, capacity);
      (head + i) % capacity
  }

  lemma SmallMod(a: nat, n: nat)
    requires a < n
    ensures a % n == a
  {
  }

  lemma ModStep(a: nat, n: nat)
    requires a < n
    ensures (a + n) % n == a
  {
    assert (a + n) / n == 1 by {
      assert n <= a + n < 2 * n;
    }
  }

  class LineRingBuffer {
    const capacity: nat
    const maxBytes: nat
    const buffer: array<Entry>
    var head: nat
    var count: nat
    var totalBytes: int
    var inMemoryBytes: int
    /** Every line pushed so far. */
    ghost var pushed: seq<Line>
    /** The entries of the ring, oldest first. */
    ghost var entries: seq<Entry>

    constructor (capacity: nat, maxBytes: nat)
      requires capacity > 0
      ensures Valid() && fresh(buffer) && this.capacity == capacity && this.maxBytes == maxBytes && pushed == []
    {
      this.capacity, this.maxBytes := capacity, maxBytes;
      buffer := new Entry[capacity](_ => Entry("", false, 0, false));
      head, count, totalBytes, inMemoryBytes := 0, 0, 0, 0;
      pushed, entries := [], [];
    }

    ghost predicate Layout()
      reads `head, `count, `entries, buffer
    {
      && capacity > 0 && buffer.Length == capacity && head < capacity
      && count == |entries| <= capacity
      && forall i :: 0 <= i < count ==> buffer[Position(head, i, capacity)] == entries[i]
    }

    ghost predicate Counted()
      reads `totalBytes, `inMemoryBytes, `entries
    {
      totalBytes == TotalOf(entries) && inMemoryBytes == MemoryOf(entries)
    }

    ghost predicate Valid()
      reads this, buffer
    {
      && Layout() && Counted()
      && RecordsAll(entries, LastOf(pushed, capacity))
      && SpilledForCause(entries, maxBytes)
      && inMemoryBytes <= maxBytes
    }

    method Evict()
      requires Layout() && Counted() && count == capacity
      modifies this`head, this`count, this`totalBytes, this`inMemoryBytes, this`entries
      ensures Layout() && Counted() && entries == old(entries)[1..]
    {
      var oldest := buffer[head];
      assert Position(head, 0, capacity) == head;
      totalBytes := totalBytes - oldest.bytes;
      if !oldest.spilled {
        inMemoryBytes := inMemoryBytes - oldest.bytes;
      }
      ghost var h := head;
      head := Position(head, 1, capacity);
      count := count - 1;
      entries := entries[1..];
      forall i | 0 <= i < count ensures buffer[Position(head, i, capacity)] == entries[i] {
        assert Position(head, i, capacity) == Position(h, i + 1, capacity);
      }
    }

    method Append(raw: string, unterminated: bool)
      requires Layout() && Counted() && count < capacity
      modifies this`count, this`totalBytes, this`inMemoryBytes, this`entries, buffer
      ensures Layout() && Counted()
      ensures entries == old(entries) + [Entry(raw, unterminated, ByteLength(raw), false)]
    {
      hide ByteLength;
      var bytes := ByteLength(raw);
      var index := Position(head, count, capacity);
      forall i | 0 <= i < count ensures Position(head, i, capacity) != index {
      }
      buffer[index] := Entry(raw, unterminated, bytes, false);
      SumsAppend(entries, Entry(raw, unterminated, bytes, false));
      entries := entries + [Entry(raw, unterminated, bytes, false)];
      count := count + 1;
      totalBytes := totalBytes + bytes;
      inMemoryBytes := inMemoryBytes + bytes;
    }

    method SpillAt(i: nat)
      requires Layout() && Counted() && i < count && !entries[i].spilled
      modifies this`inMemoryBytes, this`entries, buffer
      ensures Layout() && Counted() && entries == Spill(old(entries), i)
    {
      var slot := Position(head, i, capacity);
      forall j | 0 <= j < count && j != i ensures Position(head, j, capacity) != slot {
      }
      SpillSums(entries, i);
      inMemoryBytes := inMemoryBytes - buffer[slot].bytes;
      buffer[slot] := buffer[slot].(raw := "", spilled := true);
      entries := Spill(entries, i);
    }

    lemma LayoutFacts()
      requires Layout()
      ensures capacity > 0 && head < capacity == buffer.Length && count == |entries| <= capacity
    {
    }

    lemma SlotFact(i: nat)
      requires Layout() && i < count
      ensures head < capacity == buffer.Length && i < |entries| <= capacity
      ensures buffer[Position(head, i, capacity)] == entries[i]
    {
    }

    /** Spill the entry at i if it is not spilled yet; those before it already are. */
    method SpillNext(i: nat, ghost lines: seq<Line>)
      requires Layout() && Counted() && SpilledForCause(entries, maxBytes) && RecordsAll(entries, lines)
      requires i < count && inMemoryBytes > maxBytes && forall h :: 0 <= h < i ==> entries[h].spilled
      modifies this`inMemoryBytes, this`entries, buffer
      ensures Layout() && Counted() && SpilledForCause(entries, maxBytes) && RecordsAll(entries, lines)
      ensures i < |entries| == old(|entries|) && forall h :: 0 <= h <= i ==> entries[h].spilled
    {
      hide Position, Layout, Records, SpilledForCause;
      SlotFact(i);
      var entry := buffer[Position(head, i, capacity)];
      if !entry.spilled {
        MemorySkipsSpilled(entries, i);
        SpillKeepsCause(entries, i, maxBytes);
        SpillKeepsRecords(entries, i, lines);
        SpillAt(i);
      }
    }

    /** Spill from the oldest on until the text kept in memory fits. */
    method SpillOldest(ghost lines: seq<Line>)
      requires Layout() && Counted() && SpilledForCause(entries, maxBytes) && RecordsAll(entries, lines)
      modifies this`inMemoryBytes, this`entries, buffer
      ensures Layout() && Counted() && SpilledForCause(entries, maxBytes) && RecordsAll(entries, lines)
      ensures inMemoryBytes <= maxBytes
    {
      hide Layout, RecordsAll, SpilledForCause;
      LayoutFacts();
      if inMemoryBytes > maxBytes {
        var i := 0;
        while i < count && inMemoryBytes > maxBytes
          invariant i <= count == |entries| && Layout() && Counted()
          invariant SpilledForCause(entries, maxBytes) && RecordsAll(entries, lines)
          invariant forall h :: 0 <= h < i ==> entries[h].spilled
        {
          SpillNext(i, lines);
          i := i + 1;
        }
        if i == count {
          MemorySkipsSpilled(entries, i);
        }
      }
    }

    /** After a push the ring holds the last lines pushed, and its text fits in memory. */
    method Push(raw: string, unterminated: bool)
      requires Valid()
      modifies this`head, this`count, this`totalBytes, this`inMemoryBytes, this`entries, this`pushed, buffer
      ensures Valid() && pushed == old(pushed) + [Line(raw, unterminated)]
    {
      hide Layout, Counted, ByteLength, RecordsAll, SpilledForCause, LastOf;
      ghost var line := Line(raw, unterminated);
      ghost var before := entries;
      LayoutFacts();
      if count == capacity {
        Evict();
        LayoutFacts();
      }
      Append(raw, unterminated);
      PushKeeps(before, pushed, line, capacity, maxBytes, entries);
      pushed := pushed + [line];
      SpillOldest(LastOf(pushed, capacity));
    }

    method HasSpilled() returns (spilled: bool)
      requires Valid()
      ensures spilled <==> AnySpilled(entries)
    {
      for i := 0 to count
        invariant forall h :: 0 <= h < i ==> !entries[h].spilled
      {
        if buffer[Position(head, i, capacity)].spilled {
          return true;
        }
      }
      return false;
    }

    method ToArray() returns (lines: seq<Line>)
      requires Valid()
      ensures |lines| == count
      ensures !AnySpilled(entries) ==> lines == LastOf(pushed, capacity)
    {
      hide ByteLength;
      lines := [];
      for i := 0 to count
        invariant |lines| == i && forall h :: 0 <= h < i ==> lines[h] == Line(entries[h].raw, entries[h].unterminated)
      {
        var entry := buffer[Position(head, i, capacity)];
        lines := lines + [Line(entry.raw, entry.unterminated)];
      }
    }

    /** The tail, or nothing when the size test fires; it fires exactly when the last lines are too large. */
    method Tail() returns (tooLarge: bool, lines: seq<Line>)
      requires Valid()
      ensures tooLarge <==> BytesOf(LastOf(pushed, capacity)) > maxBytes
      ensures !tooLarge ==> lines == LastOf(pushed, capacity)
    {
      SizeTestExact(entries, LastOf(pushed, capacity), maxBytes);
      var spilled := HasSpilled();
      tooLarge := totalBytes > maxBytes || spilled;
      lines := ToArray();
    }
  }

  lemma SpillKeepsRecords(entries: seq<Entry>, i: nat, lines: seq<Line>)
    requires i < |entries| && RecordsAll(entries, lines)
    ensures RecordsAll(Spill(entries, i), lines)
  {
  }

  lemma SpillKeepsCause(entries: seq<Entry>, i: nat, maxBytes: nat)
    requires i < |entries| && !entries[i].spilled && SpilledForCause(entries, maxBytes)
    requires TotalOf(entries[i..]) > maxBytes
    ensures SpilledForCause(Spill(entries, i), maxBytes)
  {
    var after := Spill(entries, i);
    forall j | 0 <= j < |after| && after[j].spilled ensures TotalOf(after[j..]) > maxBytes {
      SpillSuffix(entries, i, j);
    }
  }

  /** What is left of a full ring once its oldest entry is dropped. */
  function Remaining(before: seq<Entry>, capacity: nat): seq<Entry> {
    if |before| == capacity && before != [] then before[1..] else before
  }

  lemma RecordsKept(before: seq<Entry>, pushed: seq<Line>, line: Line, capacity: nat)
    requires capacity > 0 && RecordsAll(before, LastOf(pushed, capacity)) && |before| <= capacity
    ensures RecordsAll(Remaining(before, capacity) + [Entry(line.raw, line.unterminated, ByteLength(line.raw), false)],
                       LastOf(pushed + [line], capacity))
  {
    hide ByteLength;
    var kept := Remaining(before, capacity);
    var lines := LastOf(pushed, capacity);
    var keptLines := if |before| == capacity then lines[1..] else lines;
    assert LastOf(pushed + [line], capacity) == keptLines + [line];
    assert forall i :: 0 <= i < |kept| ==>
      kept[i] == before[if |before| == capacity then i + 1 else i]
      && keptLines[i] == lines[if |before| == capacity then i + 1 else i];
  }

  lemma CauseKept(before: seq<Entry>, e: Entry, capacity: nat, maxBytes: nat)
    requires capacity > 0 && SpilledForCause(before, maxBytes) && |before| <= capacity && !e.spilled
    ensures SpilledForCause(Remaining(before, capacity) + [e], maxBytes)
  {
    var kept := Remaining(before, capacity);
    var after := kept + [e];
    forall i | 0 <= i < |after| && after[i].spilled ensures TotalOf(after[i..]) > maxBytes {
      assert i < |kept| && after[i] == kept[i];
      var b := if |before| == capacity then i + 1 else i;
      assert before[b] == kept[i];
      assert before[b..] == kept[i..];
      assert after[i..] == before[b..] + [e];
      SumsAppend(before[b..], e);
    }
  }

  /** Dropping the oldest entry of a full ring and adding one keeps the records of the last lines. */
  lemma PushKeeps(before: seq<Entry>, pushed: seq<Line>, line: Line, capacity: nat, maxBytes: nat, after: seq<Entry>)
    requires capacity > 0 && RecordsAll(before, LastOf(pushed, capacity)) && SpilledForCause(before, maxBytes)
    requires |before| <= capacity
    requires after == (if |before| == capacity then before[1..] else before)
                      + [Entry(line.raw, line.unterminated, ByteLength(line.raw), false)]
    ensures RecordsAll(after, LastOf(pushed + [line], capacity)) && SpilledForCause(after, maxBytes)
  {
    hide ByteLength, RecordsAll, SpilledForCause, LastOf;
    RecordsKept(before, pushed, line, capacity);
    CauseKept(before, Entry(line.raw, line.unterminated, ByteLength(line.raw), false), capacity, maxBytes);
  }
}
