/** What the fine-grained lock does allow: concrete histories, built from whole helper runs. */
module DirectoryLockRaces {
  import opened DirectoryLockSteps
  import opened LockOwners
  import opened Wrappers

  ghost predicate CanRun(ids: Identities, w: World, events: seq<Event>)
    decreases events
  {
    events == [] || (Possible(ids, w, events[0]) && CanRun(ids, Happen(ids, w, events[0]), events[1..]))
  }

  ghost function Run(ids: Identities, w: World, events: seq<Event>): World
    requires CanRun(ids, w, events)
    decreases events
  {
    if events == [] then w else Run(ids, Happen(ids, w, events[0]), events[1..])
  }

  /** v comes after w in some history. */
  ghost predicate Leads(ids: Identities, w: World, v: World) {
    exists events :: CanRun(ids, w, events) && Run(ids, w, events) == v
  }

  lemma {:induction false} RunAppend(ids: Identities, w: World, a: seq<Event>, b: seq<Event>)
    requires CanRun(ids, w, a) && CanRun(ids, Run(ids, w, a), b)
    ensures CanRun(ids, w, a + b) && Run(ids, w, a + b) == Run(ids, Run(ids, w, a), b)
    decreases a
  {
    hide Possible, Happen;
    if a == [] {
      assert a + b == b;
    } else {
      RunAppend(ids, Happen(ids, w, a[0]), a[1..], b);
      assert (a + b)[0] == a[0] && (a + b)[1..] == a[1..] + b;
    }
  }

  lemma LeadsOn(ids: Identities, u: World, w: World, v: World)
    requires Leads(ids, u, w) && Leads(ids, w, v)
    ensures Leads(ids, u, v)
  {
    var a :| CanRun(ids, u, a) && Run(ids, u, a) == w;
    var b :| CanRun(ids, w, b) && Run(ids, w, b) == v;
    RunAppend(ids, u, a, b);
  }

  lemma StepLeads(ids: Identities, u: World, w: World, e: Event)
    requires Leads(ids, u, w) && Possible(ids, w, e)
    ensures Leads(ids, u, Happen(ids, w, e))
  {
    hide Possible, Happen;
    var v := Happen(ids, w, e);
    assert CanRun(ids, w, [e]) && Run(ids, w, [e]) == v by {
      assert [e][1..] == [];
      assert CanRun(ids, v, []) && Run(ids, v, []) == v;
    }
    LeadsOn(ids, u, w, v);
  }

  lemma HelperLeads(ids: Identities, u: World, w: World, p: Proc, dead: bool)
    requires Leads(ids, u, w) && p in w.tasks && Running(w.tasks[p])
    requires Probing(w.tasks[p]) && dead ==> NoneAlive(ids, w.alive, w.tasks[p].seen.pid)
    ensures Leads(ids, u, HelperStep(w, p, dead, true))
  {
    hide Leads, HelperStep;
    StepLeads(ids, u, w, Step(p, dead, true));
  }

  lemma Stays(ids: Identities, w: World)
    ensures Leads(ids, w, w)
  {
    assert CanRun(ids, w, []) && Run(ids, w, []) == w;
  }

  lemma {:induction false} RunHasHistory(ids: Identities, w: World, events: seq<Event>, history: seq<World>)
    requires IsHistory(ids, history) && history[|history| - 1] == w && CanRun(ids, w, events)
    ensures exists h :: IsHistory(ids, h) && h[|h| - 1] == Run(ids, w, events)
    decreases events
  {
    hide Possible, Happen, Beginning;
    if events != [] {
      var v := Happen(ids, w, events[0]);
      var longer := history + [v];
      forall k | 0 <= k < |longer| - 1 ensures Follows(ids, longer[k], longer[k + 1]) {
        if k < |history| - 1 {
          assert Follows(ids, history[k], history[k + 1]);
        }
      }
      RunHasHistory(ids, v, events[1..], longer);
    }
  }

  lemma LeadsIsHistory(ids: Identities, w: World, v: World) returns (history: seq<World>)
    requires Beginning(w) && Leads(ids, w, v)
    ensures IsHistory(ids, history) && history[|history| - 1] == v
  {
    var events :| CanRun(ids, w, events) && Run(ids, w, events) == v;
    RunHasHistory(ids, w, events, [w]);
    history :| IsHistory(ids, history) && history[|history| - 1] == v;
  }

  // ---- Whole helper runs that nothing interrupts ----

  /** The world once p has acquired the free lock. */
  function Acquired(ids: Identities, w: World, p: Proc): World {
    var owner := OwnerFor(ids, p, w.nextToken, 0);
    w.(dirs := w.dirs[w.nextInode := Some(owner)], lock := Some(w.nextInode), nextInode := w.nextInode + 1,
       tasks := w.tasks[p := Ended(Succeeded)], phases := w.phases[p := InSection(owner)],
       makers := w.makers[w.nextInode := p], publisher := w.publisher[w.nextInode := p],
       issued := w.issued[w.nextToken := p], nextToken := w.nextToken + 1)
  }

  /** The acquire has made its directory and entered it. */
  function Inside(ids: Identities, w: World, p: Proc): World {
    var owner := OwnerFor(ids, p, w.nextToken, 0);
    w.(dirs := w.dirs[w.nextInode := None], lock := Some(w.nextInode), nextInode := w.nextInode + 1,
       tasks := w.tasks[p := Acquire(owner, Entered(w.nextInode))], phases := w.phases[p := Acquiring(owner)],
       makers := w.makers[w.nextInode := p], issued := w.issued[w.nextToken := p], nextToken := w.nextToken + 1)
  }

  lemma EnterAlone(ids: Identities, u: World, w: World, p: Proc)
    requires Leads(ids, u, w) && Live(w, p) && w.phases[p] == Resting && w.lock.None?
    ensures Leads(ids, u, Inside(ids, w, p))
  {
    hide Leads, OwnerFor;
    var owner := OwnerFor(ids, p, w.nextToken, 0);
    StepLeads(ids, u, w, StartAcquire(p, 0));
    var w1 := Happen(ids, w, StartAcquire(p, 0));
    hide Happen, Possible;
    HelperLeads(ids, u, w1, p, false);
    var w2 := Mkdir(w1, p, owner);
    HelperLeads(ids, u, w2, p, false);
    var w3 := WithTask(w2, p, Acquire(owner, Looked(w.nextInode)));
    HelperLeads(ids, u, w3, p, false);
    var w4 := WithTask(w3, p, Acquire(owner, Entered(w.nextInode)));
    assert w4.tasks == w.tasks[p := Acquire(owner, Entered(w.nextInode))];
    assert w4 == Inside(ids, w, p);
  }

  /** With the lock name free and nobody in the way, an acquire succeeds. */
  lemma AcquireAlone(ids: Identities, u: World, w: World, p: Proc)
    requires Leads(ids, u, w) && Live(w, p) && w.phases[p] == Resting && w.lock.None?
    ensures Leads(ids, u, Acquired(ids, w, p))
  {
    hide Leads, OwnerFor;
    var owner := OwnerFor(ids, p, w.nextToken, 0);
    EnterAlone(ids, u, w, p);
    var w4 := Inside(ids, w, p);
    HelperLeads(ids, u, w4, p, false);
    var w5 := Publish(w4, p, owner, w.nextInode);
    HelperLeads(ids, u, w5, p, false);
    var w6 := EndTask(w5, p, Succeeded);
    StepLeads(ids, u, w6, Return(p));
    var w7 := WithPhase(w6, p, InSection(owner));
    assert w7.tasks == w.tasks[p := Ended(Succeeded)];
    assert w7.phases == w.phases[p := InSection(owner)];
    assert w7.dirs == w.dirs[w.nextInode := Some(owner)];
    assert w7 == Acquired(ids, w, p);
  }

  /** p is about to reclaim the lock it saw in u. */
  function Poised(w: World, p: Proc, inode: nat, seen: Owner): World {
    w.(tasks := w.tasks[p := Reclaim(inode, seen, ToRename)], phases := w.phases[p := Waiting])
  }

  lemma PoiseAlone(ids: Identities, u: World, w: World, p: Proc)
    requires Leads(ids, u, w) && Live(w, p) && w.phases[p] == Resting
    requires w.lock.Some? && LockOwner(w).Some? && NoneAlive(ids, w.alive, LockOwner(w).value.pid)
    ensures Leads(ids, u, Poised(w, p, w.lock.value, LockOwner(w).value))
  {
    hide Leads, NoneAlive;
    var inode, seen := w.lock.value, LockOwner(w).value;
    StepLeads(ids, u, w, StartLook(p));
    var w1 := WithPhase(w, p, LookedAt(inode));
    StepLeads(ids, u, w1, ReadSeen(p));
    var w2 := WithPhase(w1, p, Judging(inode, seen));
    StepLeads(ids, u, w2, StartReclaim(p));
    var w3 := Happen(ids, w2, StartReclaim(p));
    assert w3.phases == w.phases[p := Waiting];
    assert w3 == Poised(w, p, inode, seen);
  }

  /** The world once p's reclaim has removed the lock directory. */
  function Reclaimed(w: World, p: Proc, inode: nat, seen: Owner): World {
    w.(dirs := w.dirs - {inode}, lock := None, quarantine := w.quarantine - {p}, tasks := w.tasks[p := Ended(Succeeded)],
       seenDead := w.seenDead + {seen.pid}, deletions := w.deletions + {Deletion(p, inode, ByReclaim, Some(seen))})
  }

  lemma ReclaimAlone(ids: Identities, u: World, w: World, p: Proc, inode: nat, seen: Owner)
    requires Leads(ids, u, w) && p in w.tasks && w.tasks[p] == Reclaim(inode, seen, ToRename)
    requires w.lock == Some(inode) && LockOwner(w) == Some(seen) && NoneAlive(ids, w.alive, seen.pid)
    ensures Leads(ids, u, Reclaimed(w, p, inode, seen))
  {
    hide Leads, NoneAlive, Happen, Possible;
    HelperLeads(ids, u, w, p, true);
    var w1 := RenameAway(w, p, Reclaim(inode, seen, ToStat));
    HelperLeads(ids, u, w1, p, true);
    var w2 := WithTask(w1, p, Reclaim(inode, seen, ToRead));
    HelperLeads(ids, u, w2, p, true);
    var w3 := WithTask(w2, p, Reclaim(inode, seen, ToProbe));
    HelperLeads(ids, u, w3, p, true);
    var w4 := WithTask(w3, p, Reclaim(inode, seen, ToRemove)).(seenDead := w.seenDead + {seen.pid});
    HelperLeads(ids, u, w4, p, true);
    var w5 := RemoveQuarantined(w4, p, ByReclaim);
    assert w5.tasks == w.tasks[p := Ended(Succeeded)];
    assert w5.quarantine == w.quarantine - {p};
    assert w5 == Reclaimed(w, p, inode, seen);
  }

  /** p is about to release its lock. */
  function Parting(w: World, p: Proc, inode: nat, owner: Owner): World {
    w.(tasks := w.tasks[p := Release(inode, owner, ToRename)], phases := w.phases[p := Waiting])
  }

  lemma PartAlone(ids: Identities, u: World, w: World, p: Proc, owner: Owner)
    requires Leads(ids, u, w) && Live(w, p) && w.phases[p] == InSection(owner)
    requires w.lock.Some? && LockOwner(w).Some? && SameOwner(LockOwner(w).value, owner)
    ensures Leads(ids, u, Parting(w, p, w.lock.value, owner))
  {
    hide Leads, SameOwner;
    StepLeads(ids, u, w, CheckOwner(p));
    var w1 := WithPhase(w, p, Leaving(owner));
    StepLeads(ids, u, w1, StartRelease(p));
    var w2 := Happen(ids, w1, StartRelease(p));
    assert w2.phases == w.phases[p := Waiting];
    assert w2 == Parting(w, p, w.lock.value, owner);
  }

  /** The world once p's release has removed its lock directory. */
  function Released(w: World, p: Proc, inode: nat, found: Owner): World {
    w.(dirs := w.dirs - {inode}, lock := None, quarantine := w.quarantine - {p}, tasks := w.tasks[p := Ended(Succeeded)],
       phases := w.phases[p := Resting], deletions := w.deletions + {Deletion(p, inode, ByRelease, Some(found))})
  }

  lemma RemoveOwnAlone(ids: Identities, u: World, w: World, p: Proc, inode: nat, owner: Owner, found: Owner)
    requires Leads(ids, u, w) && p in w.tasks && w.tasks[p] == Release(inode, owner, ToRename)
    requires w.lock == Some(inode) && LockOwner(w) == Some(found) && SameOwner(found, owner)
    ensures Leads(ids, u, Released(w, p, inode, found).(phases := w.phases))
  {
    hide Leads, SameOwner, Happen, Possible;
    HelperLeads(ids, u, w, p, false);
    var w1 := RenameAway(w, p, Release(inode, owner, ToStat));
    HelperLeads(ids, u, w1, p, false);
    var w2 := WithTask(w1, p, Release(inode, owner, ToRead));
    HelperLeads(ids, u, w2, p, false);
    var w3 := WithTask(w2, p, Release(inode, owner, ToRemove));
    HelperLeads(ids, u, w3, p, false);
    var w4 := RemoveQuarantined(w3, p, ByRelease);
    assert w4.tasks == w.tasks[p := Ended(Succeeded)];
    assert w4.quarantine == w.quarantine - {p};
    assert w4 == Released(w, p, inode, found).(phases := w.phases);
  }

  /** With nobody in the way a release of the own lock removes exactly that and leaves the section. */
  lemma ReleaseAlone(ids: Identities, u: World, w: World, p: Proc, owner: Owner)
    requires Leads(ids, u, w) && Live(w, p) && w.phases[p] == InSection(owner)
    requires w.lock.Some? && LockOwner(w).Some? && SameOwner(LockOwner(w).value, owner)
    ensures Leads(ids, u, Released(w, p, w.lock.value, LockOwner(w).value))
  {
    hide Leads, SameOwner;
    var inode, found := w.lock.value, LockOwner(w).value;
    PartAlone(ids, u, w, p, owner);
    var w1 := Parting(w, p, inode, owner);
    RemoveOwnAlone(ids, u, w1, p, inode, owner, found);
    var w2 := Released(w1, p, inode, found).(phases := w1.phases);
    StepLeads(ids, u, w2, Return(p));
    assert Happen(ids, w2, Return(p)) == WithPhase(w2, p, Resting);
    assert w.phases[p := Waiting][p := Resting] == w.phases[p := Resting];
    assert w1.tasks[p := Ended(Succeeded)] == w.tasks[p := Ended(Succeeded)];
    assert WithPhase(w2, p, Resting) == Released(w, p, inode, found);
  }

  /** A reclaim that finds another directory than the one it judged puts it back when nothing took the name meanwhile. */
  lemma MistakenReclaimAlone(ids: Identities, u: World, w: World, p: Proc, inode: nat, seen: Owner)
    requires Leads(ids, u, w) && p in w.tasks && w.tasks[p] == Reclaim(inode, seen, ToRename)
    requires w.lock.Some? && w.lock != Some(inode) && p !in w.quarantine
    ensures Leads(ids, u, w.(tasks := w.tasks[p := Ended(Failed(None))]))
  {
    hide Leads, Happen, Possible;
    HelperLeads(ids, u, w, p, false);
    var w1 := RenameAway(w, p, Reclaim(inode, seen, ToStat));
    HelperLeads(ids, u, w1, p, false);
    var w2 := WithTask(w1, p, Restore);
    HelperLeads(ids, u, w2, p, false);
    var w3 := RenameBack(w2, p, true);
    assert w3.tasks == w.tasks[p := Ended(Failed(None))];
    assert w3.quarantine == w.quarantine;
    assert w3 == w.(tasks := w.tasks[p := Ended(Failed(None))]);
  }

  // ---- The races ----

  const PLAIN := Identities((p: Proc) => p as int, (p: Proc) => "")

  /** A lock left behind by process 9, which is gone. */
  const DEAD := Owner(9, "", 0, 0)
  const LEFTOVER := World(map[0 := Some(DEAD)], Some(0), map[], map[], map[], {}, 1, 1, map[], map[], map[], {}, {})

  /** Processes 1 to 4 are there, and nothing else has happened. */
  function Gathered(): World {
    LEFTOVER.(alive := {1, 2, 3, 4},
              tasks := map[1 := NoHelper, 2 := NoHelper, 3 := NoHelper, 4 := NoHelper],
              phases := map[1 := Resting, 2 := Resting, 3 := Resting, 4 := Resting])
  }

  lemma Gather()
    ensures Leads(PLAIN, LEFTOVER, Gathered())
  {
    hide Leads;
    Stays(PLAIN, LEFTOVER);
    StepLeads(PLAIN, LEFTOVER, LEFTOVER, Spawn(1));
    var w1 := Happen(PLAIN, LEFTOVER, Spawn(1));
    StepLeads(PLAIN, LEFTOVER, w1, Spawn(2));
    var w2 := Happen(PLAIN, w1, Spawn(2));
    StepLeads(PLAIN, LEFTOVER, w2, Spawn(3));
    var w3 := Happen(PLAIN, w2, Spawn(3));
    StepLeads(PLAIN, LEFTOVER, w3, Spawn(4));
    assert Happen(PLAIN, w3, Spawn(4)) == Gathered();
  }

  /** Processes 1 and 2 both judge the leftover lock dead. */
  lemma BothPoised()
    ensures Leads(PLAIN, LEFTOVER, Poised(Poised(Gathered(), 1, 0, DEAD), 2, 0, DEAD))
  {
    hide Leads;
    Gather();
    PoiseAlone(PLAIN, LEFTOVER, Gathered(), 1);
    PoiseAlone(PLAIN, LEFTOVER, Poised(Gathered(), 1, 0, DEAD), 2);
  }

  /**
   * Process 1 has judged the leftover lock dead but not yet renamed it. Process 2 reclaims it, process 3 acquires, and
   * only then does 1's rename come, which takes 3's directory away.
   */
  lemma LateRename() returns (w: World, owner: Owner)
    ensures Leads(PLAIN, LEFTOVER, w)
    ensures w.lock.None? && w.dirs == map[1 := Some(owner)] && w.nextInode == 2 && w.quarantine == map[1 := 1]
    ensures w.alive == {1, 2, 3, 4} && w.phases.Keys == w.tasks.Keys == {1, 2, 3, 4}
    ensures w.tasks[1] == Reclaim(0, DEAD, ToStat)
    ensures w.phases[3] == InSection(owner) && w.phases[4] == Resting
    ensures w.publisher == map[1 := 3]
  {
    hide Leads;
    BothPoised();
    var w2 := Poised(Poised(Gathered(), 1, 0, DEAD), 2, 0, DEAD);
    ReclaimAlone(PLAIN, LEFTOVER, w2, 2, 0, DEAD);
    var w3 := Reclaimed(w2, 2, 0, DEAD);
    AcquireAlone(PLAIN, LEFTOVER, w3, 3);
    var w4 := Acquired(PLAIN, w3, 3);
    owner := OwnerFor(PLAIN, 3, 1, 0);
    HelperLeads(PLAIN, LEFTOVER, w4, 1, false);
    w := RenameAway(w4, 1, Reclaim(0, DEAD, ToStat));
  }

  /** Mutual exclusion fails as soon as a reclaim's rename and its owner check are separate steps. */
  lemma ExclusionFailsInSmallSteps() returns (ids: Identities, history: seq<World>)
    ensures IsHistory(ids, history) && !Exclusive(history[|history| - 1])
  {
    var w, owner := LateRename();
    AcquireAlone(PLAIN, LEFTOVER, w, 4);
    var v := Acquired(PLAIN, w, 4);
    ids := PLAIN;
    history := LeadsIsHistory(PLAIN, LEFTOVER, v);
    assert InCritical(v, 3) && InCritical(v, 4);
  }

  /** A directory was deleted while the process that published it is alive and between acquire and release. */
  ghost predicate LiveLockDeleted(w: World, d: Deletion) {
    && d in w.deletions && d.inode in w.publisher && w.publisher[d.inode] != d.remover
    && Live(w, w.publisher[d.inode]) && w.phases[w.publisher[d.inode]].InSection?
  }

  /** An acquire that enters a directory which already holds a record fails, and remembers that directory. */
  lemma PublishRefused(ids: Identities, u: World, w: World, p: Proc, mine: Owner, inode: nat)
    requires Leads(ids, u, w) && p in w.tasks && w.tasks[p] == Acquire(mine, Looked(inode))
    requires w.lock == Some(inode) && inode in w.dirs && w.dirs[inode].Some?
    ensures Leads(ids, u, EndTask(w, p, Failed(Some(inode))))
  {
    hide Leads;
    HelperLeads(ids, u, w, p, false);
    var w1 := WithTask(w, p, Acquire(mine, Entered(inode)));
    HelperLeads(ids, u, w1, p, false);
    assert EndTask(w1, p, Failed(Some(inode))).tasks == w.tasks[p := Ended(Failed(Some(inode)))];
  }

  /** Its cleanup deletes whatever then carries the remembered inode and the lock name. */
  lemma CleanedUp(ids: Identities, u: World, w: World, p: Proc, inode: nat) returns (v: World)
    requires Leads(ids, u, w) && Live(w, p) && w.phases[p].Acquiring? && w.tasks[p] == Ended(Failed(Some(inode)))
    requires w.lock == Some(inode) && inode in w.dirs
    ensures Leads(ids, u, v) && v.deletions == w.deletions + {Deletion(p, inode, ByCleanup, w.dirs[inode])}
    ensures v.publisher == w.publisher && v.alive == w.alive && v.phases == w.phases[p := Waiting]
    ensures v.tasks.Keys == w.tasks.Keys
  {
    hide Leads;
    StepLeads(ids, u, w, StartCleanup(p));
    var w1 := WithTask(WithPhase(w, p, Waiting), p, Cleanup(inode, false));
    hide Happen, Possible;
    HelperLeads(ids, u, w1, p, false);
    var w2 := WithTask(w1, p, Cleanup(inode, true));
    HelperLeads(ids, u, w2, p, false);
    v := CleanupStep(w2, p, inode, true);
  }

  /** A restore replaces a fresh directory that is still empty. */
  lemma RestoredOver(ids: Identities, u: World, w: World, q: Proc, seen: Owner, inode: nat, added: nat) returns (v: World)
    requires Leads(ids, u, w) && q in w.tasks && w.tasks[q] == Reclaim(inode, seen, ToStat)
    requires q in w.quarantine && w.quarantine[q] != inode && w.lock == Some(added) && w.quarantine[q] != added
    requires added in w.dirs && w.dirs[added].None?
    ensures Leads(ids, u, v) && v.lock == Some(w.quarantine[q]) && v.dirs == w.dirs - {added}
    ensures v.publisher == w.publisher && v.alive == w.alive && v.phases == w.phases
    ensures v.tasks == w.tasks[q := Ended(Failed(None))]
  {
    hide Leads;
    HelperLeads(ids, u, w, q, false);
    var w1 := WithTask(w, q, Restore);
    HelperLeads(ids, u, w1, q, false);
    v := RenameBack(w1, q, true);
    assert v.tasks == w.tasks[q := Ended(Failed(None))];
  }

  /** Process 1's restore puts 3's directory back in place of the one that 4 has just made, before 4 looks at it. */
  lemma Misled() returns (w: World, owner: Owner, mine: Owner)
    ensures Leads(PLAIN, LEFTOVER, w)
    ensures w.lock == Some(1) && 1 in w.dirs && w.dirs[1] == Some(owner) && w.publisher == map[1 := 3]
    ensures Live(w, 3) && Live(w, 4)
    ensures w.phases[3] == InSection(owner) && w.phases[4] == Acquiring(mine) && w.tasks[4] == Acquire(mine, Looked(1))
  {
    w, owner := LateRename();
    hide Leads;
    mine := OwnerFor(PLAIN, 4, w.nextToken, 0);
    StepLeads(PLAIN, LEFTOVER, w, StartAcquire(4, 0));
    var w1 := Happen(PLAIN, w, StartAcquire(4, 0));
    hide Happen, Possible;
    HelperLeads(PLAIN, LEFTOVER, w1, 4, false);
    var w2 := Mkdir(w1, 4, mine);
    var w3 := RestoredOver(PLAIN, LEFTOVER, w2, 1, DEAD, 0, 2);
    HelperLeads(PLAIN, LEFTOVER, w3, 4, false);
    w := WithTask(w3, 4, Acquire(mine, Looked(1)));
  }

  /** lock-cleanup is not covered by the deletion claim: misled like this, process 4 cleans up 3's lock. */
  lemma CleanupCanDeleteALiveLock() returns (ids: Identities, history: seq<World>, d: Deletion)
    ensures IsHistory(ids, history) && LiveLockDeleted(history[|history| - 1], d) && d.kind == ByCleanup
  {
    var w, owner, mine := Misled();
    hide Leads;
    PublishRefused(PLAIN, LEFTOVER, w, 4, mine, 1);
    var v := CleanedUp(PLAIN, LEFTOVER, EndTask(w, 4, Failed(Some(1))), 4, 1);
    ids, d := PLAIN, Deletion(4, 1, ByCleanup, Some(owner));
    history := LeadsIsHistory(PLAIN, LEFTOVER, v);
  }
}
