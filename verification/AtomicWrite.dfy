/**
 * The atomic file write: helper processes write a temporary file, commit it by rename or link, and sync the directory.
 * Every operation may fail, every helper may fail to start or be killed before or after any of its operations.
 */
module AtomicWrite {
  import opened Wrappers

  type Name = string

  /** One directory: its names, its inodes, and what of both was synced. */
  datatype Directory = Directory(
    names: map<Name, nat>,
    data: map<nat, string>,
    syncedNames: map<Name, nat>,
    syncedData: map<nat, string>,
    nextInode: nat)

  /** How an operation goes: done, refused with an error, or never reached because the helper was killed. */
  datatype Fault = Fine | Error | Kill

  /** What the parent learns of a helper: its answer, or that it died; a helper that cannot be started does nothing. */
  datatype Reply = NotStarted | Died | Answer(ok: bool, committed: bool)

  datatype CommitPhase = NotCommitted | Committed | DurabilityUnknown

  /** What a power failure leaves of a file: no name, the synced body, or a name without a synced body. */
  datatype Survivor = Gone | Intact(body: string) | Torn

  function Entry(names: map<Name, nat>, n: Name): Option<nat> {
    if n in names then Some(names[n]) else None
  }

  function Read(d: Directory, n: Name): Option<string> {
    if n in d.names && d.names[n] in d.data then Some(d.data[d.names[n]]) else None
  }

  function Survives(entry: Option<nat>, syncedData: map<nat, string>): Survivor {
    match entry
    case None => Gone
    case Some(inode) => if inode in syncedData then Intact(syncedData[inode]) else Torn
  }

  function AsSurvivor(content: Option<string>): Survivor {
    if content.Some? then Intact(content.value) else Gone
  }

  ghost predicate Valid(d: Directory) {
    && (forall n :: n in d.names ==> d.names[n] in d.data)
    && (forall n :: n in d.syncedNames ==> d.syncedNames[n] in d.data)
    && (forall i :: i in d.data ==> i < d.nextInode)
    && (forall i :: i in d.syncedData ==> i in d.data)
  }

  /** A power failure now would leave the file as it reads, whether the old or the new directory entry survives. */
  predicate Durable(d: Directory, n: Name) {
    Entry(d.syncedNames, n) == Entry(d.names, n) && Survives(Entry(d.names, n), d.syncedData) == AsSurvivor(Read(d, n))
  }

  /** What a power failure may leave of the file: the directory entry is the current one or the one last synced. */
  predicate Leaves(d: Directory, n: Name, s: Survivor) {
    s == Survives(Entry(d.names, n), d.syncedData) || s == Survives(Entry(d.syncedNames, n), d.syncedData)
  }

  /** After as before, the file and what a power failure may leave of it are the old body whole or the new one whole. */
  ghost predicate Whole(d: Directory, e: Directory, n: Name, body: string) {
    && (Read(e, n) == Read(d, n) || Read(e, n) == Some(body))
    && forall s :: Leaves(e, n, s) ==> Leaves(d, n, s) || s == Intact(body)
  }

  // ---- What the parts of a helper do to the directory ----

  /** The new file under the temporary name: nothing of it, some of it, all of it, or all of it synced. */
  predicate Written(d: Directory, e: Directory, temp: Name, body: string, f: Fault) {
    || (e == d && f != Fine)
    || (&& temp !in d.names && e.names == d.names[temp := d.nextInode] && e.nextInode == d.nextInode + 1
        && d.nextInode in e.data && e.data == d.data[d.nextInode := e.data[d.nextInode]]
        && e.syncedNames == d.syncedNames
        && (e.syncedData == d.syncedData || e.syncedData == d.syncedData[d.nextInode := body])
        && (f == Fine ==> e.data[d.nextInode] == body && e.syncedData == d.syncedData[d.nextInode := body]))
  }

  /** The temporary file's inode is the target, and the temporary name is gone unless unlinking it failed. */
  predicate Moved(d: Directory, e: Directory, temp: Name, target: Name, exclusive: bool, f: Fault) {
    && temp in d.names && (exclusive ==> target !in d.names)
    && var linked := d.names[target := d.names[temp]];
      || e == d.(names := linked - {temp})
      || (exclusive && f != Fine && e == d.(names := linked))
  }

  predicate Synced(d: Directory, e: Directory, f: Fault) {
    e == d.(syncedNames := d.names) || (e == d && f != Fine)
  }

  // ---- What the target sees of it ----

  /** The file reads as before, and a power failure would leave the same of it. */
  predicate Unchanged(d: Directory, e: Directory, n: Name) {
    && Read(e, n) == Read(d, n)
    && Entry(e.names, n) == Entry(d.names, n) && Entry(e.syncedNames, n) == Entry(d.syncedNames, n)
    && Survives(Entry(e.names, n), e.syncedData) == Survives(Entry(d.names, n), d.syncedData)
    && Survives(Entry(e.syncedNames, n), e.syncedData) == Survives(Entry(d.syncedNames, n), d.syncedData)
  }

  predicate OthersRead(d: Directory, e: Directory, touched: set<Name>) {
    && (forall n :: n in d.names && n !in touched ==> Read(e, n) == Read(d, n))
    && (forall n :: n in e.names && n !in touched ==> n in d.names)
  }

  predicate TempReady(d: Directory, temp: Name, body: string) {
    temp in d.names && Read(d, temp) == Some(body) && Survives(Entry(d.names, temp), d.syncedData) == Intact(body)
  }

  lemma WrittenKeeps(d: Directory, e: Directory, temp: Name, target: Name, body: string, f: Fault)
    requires Valid(d) && Written(d, e, temp, body, f) && temp != target
    ensures Valid(e) && Unchanged(d, e, target) && OthersRead(d, e, {temp})
    ensures temp in d.names ==> f != Fine
    ensures f == Fine ==> TempReady(e, temp, body)
  {
  }

  lemma MovedWhole(d: Directory, e: Directory, temp: Name, target: Name, exclusive: bool, body: string, f: Fault)
    requires Valid(d) && Moved(d, e, temp, target, exclusive, f) && temp != target && TempReady(d, temp, body)
    ensures Valid(e) && TempReady(e, target, body) && Whole(d, e, target, body)
    ensures f == Fine ==> temp !in e.names
    ensures OthersRead(d, e, {temp, target})
  {
  }

  lemma UnchangedWhole(d: Directory, e: Directory, n: Name, body: string)
    requires Unchanged(d, e, n)
    ensures Whole(d, e, n, body) && (Durable(d, n) ==> Durable(e, n))
  {
  }

  /** Where one write can leave the directory, and what the phase reported tells about it. */
  ghost predicate Outcome(d: Directory, e: Directory, target: Name, body: string, exclusive: bool, phase: CommitPhase) {
    && Whole(d, e, target, body)
    && (phase == NotCommitted ==> Unchanged(d, e, target))
    && (phase == Committed ==> Read(e, target) == Some(body) && Durable(e, target))
    && (exclusive && target in d.names ==> Unchanged(d, e, target) && phase != Committed)
  }

  /** Up to the commit nothing happens to the target. */
  lemma BeforeCommit(d: Directory, e: Directory, target: Name, body: string, exclusive: bool, phase: CommitPhase)
    requires Unchanged(d, e, target) && phase != Committed
    ensures Outcome(d, e, target, body, exclusive, phase)
  {
    UnchangedWhole(d, e, target, body);
  }

  /** From the commit on the target holds the new body, which was synced before it got its name. */
  lemma AfterCommit(
    d: Directory, w: Directory, e: Directory, temp: Name, target: Name, body: string, exclusive: bool, f: Fault)
    requires Valid(w) && Unchanged(d, w, target) && OthersRead(d, w, {temp}) && temp != target
    requires TempReady(w, temp, body) && Moved(w, e, temp, target, exclusive, f)
    ensures Valid(e) && Outcome(d, e, target, body, exclusive, DurabilityUnknown) && OthersRead(d, e, {temp, target})
    ensures TempReady(e, target, body) && (f == Fine ==> temp !in e.names)
    ensures exclusive ==> target !in d.names
  {
    MovedWhole(w, e, temp, target, exclusive, body, f);
    hide Durable, Valid, TempReady;
  }

  /** Whoever does not hear of the commit knows less, and nothing false. */
  lemma LessCertain(d: Directory, e: Directory, target: Name, body: string, exclusive: bool)
    requires Outcome(d, e, target, body, exclusive, Committed)
    ensures Outcome(d, e, target, body, exclusive, DurabilityUnknown)
  {
  }

  /** A synced directory makes the commit durable. */
  lemma AfterSync(d: Directory, c: Directory, e: Directory, temp: Name, target: Name, body: string, exclusive: bool, f: Fault)
    requires Valid(c) && Outcome(d, c, target, body, exclusive, DurabilityUnknown) && OthersRead(d, c, {temp, target})
    requires TempReady(c, target, body) && Synced(c, e, f) && (exclusive ==> target !in d.names)
    ensures Valid(e) && OthersRead(d, e, {temp, target}) && e.names == c.names
    ensures Outcome(d, e, target, body, exclusive, if f == Fine then Committed else DurabilityUnknown)
  {
    assert forall s :: Leaves(e, target, s) ==> Leaves(c, target, s);
  }

  /** Clearing away the temporary name, or renaming it, leaves the target alone. */
  predicate Cleared(d: Directory, e: Directory, temp: Name, recovery: Name) {
    || e == d
    || e == d.(names := d.names - {temp})
    || (temp in d.names && e == d.(names := d.names[recovery := d.names[temp]] - {temp}))
  }

  lemma ClearedKeeps(c: Directory, e: Directory, temp: Name, recovery: Name, target: Name)
    requires Valid(c) && Cleared(c, e, temp, recovery) && temp != target && recovery != target
    ensures Valid(e) && Unchanged(c, e, target) && OthersRead(c, e, {temp, recovery})
  {
  }

  lemma OutcomeStays(
    d: Directory, c: Directory, e: Directory, target: Name, body: string, exclusive: bool, phase: CommitPhase)
    requires Outcome(d, c, target, body, exclusive, phase) && Unchanged(c, e, target)
    ensures Outcome(d, e, target, body, exclusive, phase)
  {
  }

  lemma AfterCleanup(
    d: Directory, c: Directory, e: Directory, temp: Name, recovery: Name, target: Name, body: string, exclusive: bool,
    phase: CommitPhase)
    requires Valid(c) && Cleared(c, e, temp, recovery) && temp != target && recovery != target
    requires Outcome(d, c, target, body, exclusive, phase) && OthersRead(d, c, {temp, target})
    ensures Valid(e) && Outcome(d, e, target, body, exclusive, phase) && OthersRead(d, e, {temp, target, recovery})
  {
    ClearedKeeps(c, e, temp, recovery, target);
    OutcomeStays(d, c, e, target, body, exclusive, phase);
    hide Valid, Cleared, Outcome, Unchanged;
  }

  ghost predicate NoFaults(plan: seq<Fault>) {
    forall k :: 0 <= k < |plan| ==> plan[k].Fine?
  }

  ghost predicate NoKills(plan: seq<Fault>) {
    forall k :: 0 <= k < |plan| ==> plan[k] != Kill
  }

  /** The target is the file that was created first. */
  predicate Replaced(d: Directory, e: Directory, target: Name) {
    target in e.names && e.names[target] == d.nextInode
  }

  /** The directory as the helpers see it, and the faults that will meet them. */
  class Disk {
    var d: Directory
    const plan: seq<Fault>
    var at: nat

    constructor (d: Directory, plan: seq<Fault>)
      ensures this.d == d && this.plan == plan
    {
      this.d, this.plan, this.at := d, plan, 0;
    }

    method Next() returns (f: Fault)
      modifies `at
      ensures NoFaults(plan) ==> f == Fine
      ensures NoKills(plan) ==> f != Kill
    {
      f := if at < |plan| then plan[at] else Fine;
      at := at + 1;
    }

    /** Closing happens whatever came before; its own error counts only if there was none. */
    method Close(earlier: Fault) returns (f: Fault)
      modifies `at
      ensures earlier != Fine ==> f != Fine
      ensures NoFaults(plan) && earlier == Fine ==> f == Fine
      ensures NoKills(plan) && earlier != Kill ==> f != Kill
    {
      f := earlier;
      if f != Kill {
        var close := Next();
        if close == Kill || f == Fine { f := close; }
      }
    }

    /** Write the body, of which a failed write leaves a part; set the mode; sync. */
    method Fill(inode: nat, body: string, partial: nat) returns (f: Fault)
      requires partial <= |body| && inode in d.data
      modifies `d, `at
      ensures inode in d.data && d == old(d).(data := old(d).data[inode := d.data[inode]], syncedData := d.syncedData)
      ensures d.syncedData == old(d).syncedData || d.syncedData == old(d).syncedData[inode := body]
      ensures f == Fine ==> d.data[inode] == body && d.syncedData == old(d).syncedData[inode := body]
      ensures NoFaults(plan) ==> f == Fine
      ensures NoKills(plan) ==> f != Kill
    {
      f := Next();
      if f != Fine {
        d := d.(data := d.data[inode := body[..partial]]);
        return;
      }
      d := d.(data := d.data[inode := body]);
      f := Next(); // fchmod
      if f != Fine { return; }
      f := Next();
      if f == Fine { d := d.(syncedData := d.syncedData[inode := body]); }
    }

    /** Create the temporary file exclusively, fill and close it. */
    method WriteTemp(temp: Name, body: string, partial: nat) returns (f: Fault)
      requires partial <= |body|
      modifies `d, `at
      ensures Written(old(d), d, temp, body, f)
      ensures NoFaults(plan) && temp !in old(d).names ==> f == Fine
      ensures NoKills(plan) ==> f != Kill
    {
      f := Next();
      if f != Fine { return; }
      if temp in d.names { return Error; }
      var inode := d.nextInode;
      d := d.(names := d.names[temp := inode], data := d.data[inode := ""], nextInode := inode + 1);
      f := Fill(inode, body, partial);
      f := Close(f);
    }

    /** Move the temporary file onto the target, or, exclusively, link it there and then unlink the temporary name. */
    method Commit(temp: Name, target: Name, exclusive: bool) returns (f: Fault, committed: bool)
      requires temp != target
      modifies `d, `at
      ensures if committed then Moved(old(d), d, temp, target, exclusive, f) else d == old(d) && f != Fine
      ensures NoFaults(plan) && temp in old(d).names && !(exclusive && target in old(d).names) ==> f == Fine
      ensures NoKills(plan) ==> f != Kill
    {
      committed := false;
      f := Next();
      if f != Fine { return; }
      if temp !in d.names || (exclusive && target in d.names) { return Error, false; }
      var linked := d.names[target := d.names[temp]];
      committed := true;
      if exclusive {
        d := d.(names := linked);
        f := Next();
        if f == Fine { d := d.(names := d.names - {temp}); }
      } else {
        d := d.(names := linked - {temp});
      }
    }

    method SyncDirectory() returns (f: Fault)
      modifies `d, `at
      ensures Synced(old(d), d, f)
      ensures NoFaults(plan) ==> f == Fine
      ensures NoKills(plan) ==> f != Kill
    {
      f := Next(); // open
      if f != Fine { return; }
      f := Next();
      if f == Fine { d := d.(syncedNames := d.names); }
      f := Close(f);
    }

    /** The helper's reply, unless it is killed first: before the reply it may have done everything. */
    method Send(f: Fault, committed: bool) returns (reply: Reply)
      modifies `at
      ensures reply == Died || (reply == Answer(f == Fine, committed) && f != Kill)
      ensures f == Kill ==> reply == Died
      ensures NoFaults(plan) && f == Fine ==> reply == Answer(true, committed)
      ensures NoKills(plan) && f != Kill ==> reply != Died
    {
      if f == Kill { return Died; }
      var late := Next();
      reply := if late == Kill then Died else Answer(f == Fine, committed);
    }

    /** A helper that does the whole write. */
    method AtomicAll(temp: Name, target: Name, body: string, partial: nat, exclusive: bool) returns (reply: Reply)
      requires temp != target && partial <= |body| && Valid(d)
      modifies this
      ensures Valid(d) && Outcome(old(d), d, target, body, exclusive, PhaseOf(reply)) && OthersRead(old(d), d, {temp, target})
      ensures PhaseOf(reply) == Committed ==> temp !in d.names
      ensures NoFaults(plan) && temp !in old(d).names && !(exclusive && target in old(d).names) ==> reply == Answer(true, true)
      ensures NoKills(plan) ==> (PhaseOf(reply) != NotCommitted <==> Replaced(old(d), d, target))
    {
      hide Written, Moved, Synced, Whole, Durable, Outcome, OthersRead, Valid, TempReady;
      var before := d;
      BeforeCommit(d, d, target, body, exclusive, NotCommitted);
      NotReplaced(d, target);
      NothingRead(d, {temp, target});
      var f := Next();
      if f != Fine { return NotStarted; }
      f := WriteTemp(temp, body, partial);
      WrittenKeeps(before, d, temp, target, body, f);
      OthersWiden(before, d, {temp}, {temp, target});
      BeforeCommit(before, d, target, body, exclusive, NotCommitted);
      BeforeCommit(before, d, target, body, exclusive, DurabilityUnknown);
      if f != Fine {
        reply := Send(f, false);
        return;
      }
      var written := d;
      var moved;
      f, moved := Commit(temp, target, exclusive);
      if !moved {
        reply := Send(f, false);
        return;
      }
      AfterCommit(before, written, d, temp, target, body, exclusive, f);
      if f == Fine {
        var committed := d;
        f := SyncDirectory();
        AfterSync(before, committed, d, temp, target, body, exclusive, f);
        if f == Fine { LessCertain(before, d, target, body, exclusive); }
      }
      reply := Send(f, true);
    }

    /**
     * The same write as separate helpers, with hooks of the caller between them that may throw. Only the commit helper's
     * death, which may come after its rename and before its reply, leaves the outcome open; committed tells the parent
     * whether to clean up.
     */
    method WriteInSteps(temp: Name, target: Name, body: string, partial: nat, exclusive: bool)
      returns (phase: CommitPhase, committed: bool)
      requires temp != target && partial <= |body| && Valid(d)
      modifies this
      ensures Valid(d) && Outcome(old(d), d, target, body, exclusive, phase) && OthersRead(old(d), d, {temp, target})
      ensures phase == Committed ==> temp !in d.names
      ensures NoFaults(plan) && temp !in old(d).names && !(exclusive && target in old(d).names) ==> phase == Committed
      ensures NoKills(plan) ==> (phase != NotCommitted <==> Replaced(old(d), d, target))
    {
      hide Written, Moved, Synced, Whole, Durable, Outcome, OthersRead, Valid, TempReady;
      var before := d;
      BeforeCommit(d, d, target, body, exclusive, NotCommitted);
      NotReplaced(d, target);
      NothingRead(d, {temp, target});
      var f := Next(); // the sweep of old temporary files
      if f == Fine { f := Next(); } // the hooks
      if f != Fine { return NotCommitted, false; }
      f := Next();
      if f != Fine { return NotCommitted, false; }
      f := WriteTemp(temp, body, partial);
      WrittenKeeps(before, d, temp, target, body, f);
      OthersWiden(before, d, {temp}, {temp, target});
      BeforeCommit(before, d, target, body, exclusive, NotCommitted);
      BeforeCommit(before, d, target, body, exclusive, DurabilityUnknown);
      if f == Fine { f := Next(); } // the hook
      if f == Fine { f := Next(); }
      if f != Fine { return NotCommitted, false; }
      var written := d;
      var moved;
      f, moved := Commit(temp, target, exclusive);
      if moved { AfterCommit(before, written, d, temp, target, body, exclusive, f); }
      var reply := Send(f, moved);
      if reply != Answer(true, true) { return PhaseOf(reply), reply.Answer? && moved; }
      var done := d;
      f := Next(); // the hooks
      if f == Fine { f := Next(); }
      if f != Fine { return DurabilityUnknown, true; }
      f := SyncDirectory();
      AfterSync(before, done, d, temp, target, body, exclusive, f);
      phase, committed := if f == Fine then Committed else DurabilityUnknown, true;
    }

    /** Unlink the temporary file; rename it out of the way when that fails. */
    method CleanUp(temp: Name, recovery: Name)
      modifies `d, `at
      ensures Cleared(old(d), d, temp, recovery)
      ensures NoFaults(plan) ==> temp !in d.names
    {
      var f := Next();
      if f == Fine { f := Next(); }
      if f == Fine {
        d := d.(names := d.names - {temp});
      } else {
        // either the same helper or a second one renames the file aside
        f := Next();
        if f == Fine && temp in d.names {
          d := d.(names := d.names[recovery := d.names[temp]] - {temp});
        }
      }
    }

    /** One atomic write as its caller sees it. */
    method Write(
      temp: Name, target: Name, recovery: Name, body: string, partial: nat, exclusive: bool, inSteps: bool)
      returns (phase: CommitPhase)
      requires temp != target && recovery != target && partial <= |body| && Valid(d)
      modifies this
      ensures Valid(d) && Outcome(old(d), d, target, body, exclusive, phase)
      ensures OthersRead(old(d), d, {temp, target, recovery})
      ensures NoFaults(plan) && temp !in old(d).names ==> temp !in d.names
      ensures NoFaults(plan) && temp !in old(d).names && !(exclusive && target in old(d).names) ==> phase == Committed
      ensures NoKills(plan) ==> (phase != NotCommitted <==> Replaced(old(d), d, target))
    {
      hide Whole, Durable, Outcome, OthersRead, Valid, Cleared;
      var before := d;
      var committed;
      if inSteps {
        phase, committed := WriteInSteps(temp, target, body, partial, exclusive);
      } else {
        var reply := AtomicAll(temp, target, body, partial, exclusive);
        phase, committed := PhaseOf(reply), reply.Answer? && reply.committed;
      }
      OthersWiden(before, d, {temp, target}, {temp, target, recovery});
      if phase != Committed && (!committed || exclusive) {
        var left := d;
        CleanUp(temp, recovery);
        AfterCleanup(before, left, d, temp, recovery, target, body, exclusive, phase);
      }
    }
  }

  lemma NotReplaced(d: Directory, target: Name)
    requires Valid(d)
    ensures !Replaced(d, d, target)
  {
  }

  lemma NothingRead(d: Directory, touched: set<Name>)
    ensures OthersRead(d, d, touched)
  {
  }

  lemma OthersWiden(d: Directory, e: Directory, few: set<Name>, more: set<Name>)
    requires OthersRead(d, e, few) && few <= more
    ensures OthersRead(d, e, more)
  {
  }

  /** What the parent concludes from the reply to a commit-capable request. */
  function PhaseOf(reply: Reply): CommitPhase {
    match reply
    case NotStarted => NotCommitted
    case Died => DurabilityUnknown
    case Answer(ok, committed) => if ok then Committed else if committed then DurabilityUnknown else NotCommitted
  }
}
