/**
 * When the fine-grained lock does exclude: what the order of renames, looks and cleanups must spare, stated step by step
 * over its histories.
 */
module DirectoryLockOrder {
  import opened DirectoryLockSteps
  import opened LockOwners
  import opened Wrappers

  /** A history with the event that makes each step. */
  ghost predicate IsTrace(ids: Identities, history: seq<World>, events: seq<Event>) {
    && |history| == |events| + 1 && Beginning(history[0])
    && forall k :: 0 <= k < |events| ==> Takes(ids, history[k], events[k], history[k + 1])
  }

  predicate Takes(ids: Identities, w: World, e: Event, v: World) {
    Possible(ids, w, e) && v == Happen(ids, w, e)
  }

  lemma TraceIsHistory(ids: Identities, history: seq<World>, events: seq<Event>)
    requires IsTrace(ids, history, events)
    ensures IsHistory(ids, history)
  {
    hide Possible, Happen, Beginning;
    forall k | 0 <= k < |history| - 1 ensures Follows(ids, history[k], history[k + 1]) {
      assert Takes(ids, history[k], events[k], history[k + 1]);
    }
  }

  lemma {:induction false} HistoryHasTrace(ids: Identities, history: seq<World>)
    requires IsHistory(ids, history)
    ensures exists events :: IsTrace(ids, history, events)
    decreases |history|
  {
    hide Possible, Happen, Beginning;
    if |history| == 1 {
      assert IsTrace(ids, history, []);
    } else {
      var n := |history| - 1;
      var before := history[..n];
      forall k | 0 <= k < n - 1 ensures Follows(ids, before[k], before[k + 1]) {
        assert Follows(ids, history[k], history[k + 1]);
      }
      HistoryHasTrace(ids, before);
      var events :| IsTrace(ids, before, events);
      assert Follows(ids, history[n - 1], history[n - 1 + 1]);
      var e :| Possible(ids, history[n - 1], e) && history[n] == Happen(ids, history[n - 1], e);
      var all := events + [e];
      forall k | 0 <= k < n ensures Takes(ids, history[k], all[k], history[k + 1]) {
        if k < n - 1 {
          assert Takes(ids, before[k], events[k], before[k + 1]);
        }
      }
      assert IsTrace(ids, history, all);
    }
  }

  // ---- The conditions ----

  /** A reclaim or release renames nothing away but the directory, with the record, that it judged. */
  predicate Judged(w: World, e: Event) {
    e.Step? && e.p in w.tasks && w.lock.Some? ==>
      match w.tasks[e.p]
      case Reclaim(inode, seen, ToRename) => w.lock == Some(inode) && LockOwner(w) == Some(seen)
      case Release(inode, owner, ToRename) => w.lock == Some(inode) && HeldBy(LockOwner(w), owner)
      case _ => true
  }

  /** A cleanup that has compared the inode removes nothing that another process published. */
  predicate OwnCleanup(w: World, e: Event) {
    e.Step? && e.p in w.tasks && w.tasks[e.p].Cleanup? && w.tasks[e.p].matched && w.lock.Some? ==>
      (w.lock.value in w.publisher ==> w.publisher[w.lock.value] == e.p)
  }

  /** An acquire's look finds a directory it made itself, and a cleanup still finds the inode it compared. */
  predicate Steady(w: World, e: Event) {
    e.Step? && e.p in w.tasks && w.lock.Some? ==>
      match w.tasks[e.p]
      case Acquire(_, Made) => MadeBy(w.makers, e.p, w.lock.value)
      case Cleanup(inode, true) => w.lock == Some(inode)
      case _ => true
  }

  predicate HeldBy(found: Option<Owner>, owner: Owner) {
    found.Some? && SameOwner(found.value, owner)
  }

  // ---- The invariant, one conjunct for each group of fields ----

  /** A helper runs only while its parent's phase waits for it. */
  predicate Fits(t: Task, phase: Phase) {
    Running(t) ==> if t.Acquire? then phase == Acquiring(t.owner) else phase == Waiting
  }

  ghost predicate Busy(tasks: map<Proc, Task>, phases: map<Proc, Phase>) {
    forall p :: p in tasks && p in phases ==> Fits(tasks[p], phases[p])
  }

  /** The process is in its section, or its acquire has published. */
  predicate Claims(t: Task, phase: Phase) {
    || phase.InSection? || phase.Leaving?
    || (phase.Acquiring? && (t == Ended(Succeeded) || (t.Acquire? && t.stage.Linked?)))
  }

  predicate ClaimStands(found: Option<Owner>, t: Task, phase: Phase) {
    Claims(t, phase) ==> HeldBy(found, phase.owner)
  }

  ghost predicate ClaimsStand(
    found: Option<Owner>, alive: set<Proc>, tasks: map<Proc, Task>, phases: map<Proc, Phase>)
  {
    forall p :: p in alive && p in tasks && p in phases ==> ClaimStands(found, tasks[p], phases[p])
  }

  /** A directory entered and still without a record is the one under the lock name. */
  predicate EntryNamed(lock: Option<nat>, dirs: map<nat, Option<Owner>>, t: Task) {
    t.Acquire? && t.stage.Entered? && t.stage.inode in dirs && dirs[t.stage.inode].None? ==> lock == Some(t.stage.inode)
  }

  ghost predicate EntriesNamed(lock: Option<nat>, dirs: map<nat, Option<Owner>>, tasks: map<Proc, Task>) {
    forall p :: p in tasks ==> EntryNamed(lock, dirs, tasks[p])
  }

  /** The token of a record was drawn before, and if in this history then for the process of that pid. */
  predicate RecordTrue(ids: Identities, issued: map<nat, Proc>, nextToken: nat, owner: Owner) {
    owner.token < nextToken && (owner.token in issued ==> owner.pid == ids.pidOf(issued[owner.token]))
  }

  ghost predicate RecordsTrue(
    ids: Identities, issued: map<nat, Proc>, nextToken: nat, publisher: map<nat, Proc>, dirs: map<nat, Option<Owner>>)
  {
    forall i :: i in dirs && dirs[i].Some? ==>
      RecordTrue(ids, issued, nextToken, dirs[i].value) && (dirs[i].value.token in issued ==> i in publisher)
  }

  predicate SeenTrue(ids: Identities, issued: map<nat, Proc>, nextToken: nat, phase: Phase) {
    phase.Judging? ==> RecordTrue(ids, issued, nextToken, phase.seen)
  }

  ghost predicate AllSeenTrue(ids: Identities, issued: map<nat, Proc>, nextToken: nat, phases: map<Proc, Phase>) {
    forall p :: p in phases ==> SeenTrue(ids, issued, nextToken, phases[p])
  }

  /** The process whose token a reclaim has read was dead when the reclaim began. */
  predicate ReclaimSure(ids: Identities, issued: map<nat, Proc>, nextToken: nat, alive: set<Proc>, t: Task) {
    t.Reclaim? ==>
      RecordTrue(ids, issued, nextToken, t.seen) && (t.seen.token in issued ==> issued[t.seen.token] !in alive)
  }

  ghost predicate ReclaimsSure(
    ids: Identities, issued: map<nat, Proc>, nextToken: nat, alive: set<Proc>, tasks: map<Proc, Task>)
  {
    forall p :: p in tasks ==> ReclaimSure(ids, issued, nextToken, alive, tasks[p])
  }

  ghost predicate HoldersKnown(issued: map<nat, Proc>, known: set<Proc>) {
    forall token :: token in issued ==> issued[token] in known
  }

  ghost predicate Ordered(ids: Identities, w: World) {
    && Busy(w.tasks, w.phases)
    && ClaimsStand(LockOwner(w), w.alive, w.tasks, w.phases)
    && EntriesNamed(w.lock, w.dirs, w.tasks)
    && RecordsTrue(ids, w.issued, w.nextToken, w.publisher, w.dirs)
    && AllSeenTrue(ids, w.issued, w.nextToken, w.phases)
    && ReclaimsSure(ids, w.issued, w.nextToken, w.alive, w.tasks)
    && HoldersKnown(w.issued, w.phases.Keys)
  }

  /** Two claims are of the same token, which was drawn for one process. */
  lemma OrderedExcludes(ids: Identities, w: World)
    requires Consistent(ids, w) && Ordered(ids, w)
    ensures Exclusive(w)
  {
    hide Consistent, Busy, EntriesNamed, RecordsTrue, AllSeenTrue, ReclaimsSure, HoldersKnown, LockOwner;
    forall p, q | InCritical(w, p) && InCritical(w, q) ensures p == q {
      PhaseKnows(ids, w, p);
      PhaseKnows(ids, w, q);
      assert ClaimStands(LockOwner(w), w.tasks[p], w.phases[p]);
      assert ClaimStands(LockOwner(w), w.tasks[q], w.phases[q]);
    }
  }

  // ---- Steps that move no directory ----

  lemma TaskTaken(ids: Identities, w: World, p: Proc, t: Task)
    requires Ordered(ids, w) && p in w.tasks && p in w.phases
    requires Fits(t, w.phases[p]) && EntryNamed(w.lock, w.dirs, t)
    requires ReclaimSure(ids, w.issued, w.nextToken, w.alive, t)
    requires p in w.alive ==> ClaimStands(LockOwner(w), t, w.phases[p])
    ensures Ordered(ids, WithTask(w, p, t))
  {
    hide Fits, EntryNamed, ReclaimSure, ClaimStands, RecordsTrue, AllSeenTrue, HoldersKnown;
    assert LockOwner(WithTask(w, p, t)) == LockOwner(w);
    hide LockOwner;
  }

  lemma PhaseTaken(ids: Identities, w: World, p: Proc, phase: Phase)
    requires Ordered(ids, w) && p in w.tasks && p in w.phases
    requires Fits(w.tasks[p], phase) && SeenTrue(ids, w.issued, w.nextToken, phase)
    requires p in w.alive ==> ClaimStands(LockOwner(w), w.tasks[p], phase)
    ensures Ordered(ids, WithPhase(w, p, phase))
  {
    hide Fits, EntriesNamed, ReclaimsSure, ClaimStands, RecordsTrue, SeenTrue, HoldersKnown;
    var v := WithPhase(w, p, phase);
    assert LockOwner(v) == LockOwner(w) && v.phases.Keys == w.phases.Keys;
    hide LockOwner;
  }

  /** A process that is not in its section starts a helper and waits for it. */
  lemma HelperStarts(ids: Identities, w: World, p: Proc, t: Task)
    requires Ordered(ids, w) && p in w.tasks && p in w.phases && !t.Acquire? && Running(t)
    requires ReclaimSure(ids, w.issued, w.nextToken, w.alive, t)
    ensures Ordered(ids, WithTask(WithPhase(w, p, Waiting), p, t))
  {
    hide EntriesNamed, ReclaimSure, RecordsTrue, AllSeenTrue, HoldersKnown, ClaimsStand, Busy, Ordered;
    TaskTakenIdle(ids, w, p);
    var u := WithTask(w, p, NoHelper);
    PhaseTaken(ids, u, p, Waiting);
    var v := WithPhase(u, p, Waiting);
    TaskTaken(ids, v, p, t);
    assert WithTask(WithPhase(w, p, Waiting), p, t) == WithTask(v, p, t) by {
      assert w.tasks[p := NoHelper][p := t] == w.tasks[p := t];
    }
  }

  lemma TaskTakenIdle(ids: Identities, w: World, p: Proc)
    requires Ordered(ids, w) && p in w.tasks && p in w.phases
    ensures Ordered(ids, WithTask(w, p, NoHelper))
  {
    TaskKept(ids, w, p);
    hide Ordered;
    TaskTaken(ids, w, p, NoHelper);
  }

  lemma TaskKept(ids: Identities, w: World, p: Proc)
    requires Ordered(ids, w) && p in w.tasks && p in w.phases
    ensures Fits(w.tasks[p], w.phases[p]) && EntryNamed(w.lock, w.dirs, w.tasks[p])
    ensures ReclaimSure(ids, w.issued, w.nextToken, w.alive, w.tasks[p])
    ensures SeenTrue(ids, w.issued, w.nextToken, w.phases[p])
    ensures p in w.alive ==> ClaimStands(LockOwner(w), w.tasks[p], w.phases[p])
  {
    hide Fits, EntryNamed, ReclaimSure, ClaimStands, RecordsTrue, SeenTrue, HoldersKnown, LockOwner;
  }

  /** A helper that has not published ends. */
  lemma HelperEnds(ids: Identities, w: World, p: Proc, end: End)
    requires Ordered(ids, w) && p in w.tasks && p in w.phases && Running(w.tasks[p])
    requires end == Succeeded && w.tasks[p].Acquire? ==> w.tasks[p].stage.Linked?
    ensures Ordered(ids, EndTask(w, p, end))
  {
    TaskKept(ids, w, p);
    hide Ordered, LockOwner, HeldBy;
    TaskTaken(ids, w, p, Ended(end));
  }

  /** A process that was never there has no token, so no reclaim has judged it. */
  lemma SureOfSpawned(ids: Identities, w: World, p: Proc)
    requires ReclaimsSure(ids, w.issued, w.nextToken, w.alive, w.tasks) && HoldersKnown(w.issued, w.phases.Keys)
    requires p !in w.phases
    ensures ReclaimsSure(ids, w.issued, w.nextToken, w.alive + {p}, w.tasks[p := NoHelper])
  {
    hide RecordTrue;
  }

  lemma Spawned(ids: Identities, w: World, p: Proc)
    requires w.alive <= w.phases.Keys == w.tasks.Keys && Ordered(ids, w) && Possible(ids, w, Spawn(p))
    ensures Ordered(ids, Happen(ids, w, Spawn(p)))
  {
    var v := Happen(ids, w, Spawn(p));
    assert LockOwner(v) == LockOwner(w) && v.phases.Keys == w.phases.Keys + {p};
    SureOfSpawned(ids, w, p);
    assert Fits(NoHelper, Resting) && ClaimStands(LockOwner(w), NoHelper, Resting) && EntryNamed(w.lock, w.dirs, NoHelper);
    assert SeenTrue(ids, w.issued, w.nextToken, Resting);
    hide LockOwner, RecordsTrue, ReclaimsSure, Fits, ClaimStands, EntryNamed, SeenTrue;
  }

  lemma Died(ids: Identities, w: World, p: Proc)
    requires Ordered(ids, w) && Possible(ids, w, Die(p))
    ensures Ordered(ids, Happen(ids, w, Die(p)))
  {
    assert LockOwner(Happen(ids, w, Die(p))) == LockOwner(w);
    hide LockOwner, RecordTrue, RecordsTrue, AllSeenTrue, Busy, EntriesNamed, HoldersKnown, ClaimStands;
  }

  /** Drawing a token takes none away, and no record has it yet. */
  lemma TokenDrawn(ids: Identities, w: World, p: Proc)
    requires Ordered(ids, w) && p in w.phases
    ensures Ordered(ids, w.(nextToken := w.nextToken + 1, issued := w.issued[w.nextToken := p]))
  {
    var issued := w.issued[w.nextToken := p];
    forall o | RecordTrue(ids, w.issued, w.nextToken, o)
      ensures RecordTrue(ids, issued, w.nextToken + 1, o) && (o.token in issued <==> o.token in w.issued)
      ensures o.token in w.issued ==> issued[o.token] == w.issued[o.token]
    {
    }
    assert LockOwner(w.(nextToken := w.nextToken + 1, issued := issued)) == LockOwner(w);
    hide LockOwner, RecordTrue, Busy, ClaimsStand, EntriesNamed;
  }

  lemma AcquireStarted(ids: Identities, w: World, p: Proc, now: int)
    requires Ordered(ids, w) && Possible(ids, w, StartAcquire(p, now))
    ensures Ordered(ids, Happen(ids, w, StartAcquire(p, now)))
  {
    hide Ordered, OwnerFor;
    var owner := OwnerFor(ids, p, w.nextToken, now);
    TokenDrawn(ids, w, p);
    var u := w.(nextToken := w.nextToken + 1, issued := w.issued[w.nextToken := p]);
    assert Happen(ids, w, StartAcquire(p, now)) == WithTask(WithPhase(u, p, Acquiring(owner)), p, Acquire(owner, ToMake));
    hide Happen, Possible;
    AcquireBegun(ids, u, p, owner);
  }

  lemma AcquireBegun(ids: Identities, u: World, p: Proc, owner: Owner)
    requires Ordered(ids, u) && p in u.tasks && p in u.phases
    ensures Ordered(ids, WithTask(WithPhase(u, p, Acquiring(owner)), p, Acquire(owner, ToMake)))
  {
    hide Ordered, LockOwner;
    TaskTakenIdle(ids, u, p);
    var x := WithTask(u, p, NoHelper);
    PhaseTaken(ids, x, p, Acquiring(owner));
    var v := WithPhase(x, p, Acquiring(owner));
    TaskTaken(ids, v, p, Acquire(owner, ToMake));
    assert u.tasks[p := NoHelper][p := Acquire(owner, ToMake)] == u.tasks[p := Acquire(owner, ToMake)];
  }

  // ---- Steps that move, make, publish or delete a directory ----

  ghost predicate Unclaimed(w: World) {
    forall q :: q in w.alive && q in w.tasks && q in w.phases ==> !Claims(w.tasks[q], w.phases[q])
  }

  /** Nobody claims a free lock, or one without a record. */
  lemma NoRecordUnclaimed(ids: Identities, w: World)
    requires Ordered(ids, w) && LockOwner(w).None?
    ensures Unclaimed(w)
  {
    hide Busy, EntriesNamed, RecordsTrue, AllSeenTrue, ReclaimsSure, HoldersKnown, LockOwner, Claims;
    forall q | q in w.alive && q in w.tasks && q in w.phases ensures !Claims(w.tasks[q], w.phases[q]) {
      assert ClaimStands(LockOwner(w), w.tasks[q], w.phases[q]);
    }
  }

  /** While nobody claims the lock, directories may move, and records may go. */
  lemma UnclaimedMoves(ids: Identities, w: World, v: World)
    requires Ordered(ids, w) && Unclaimed(w)
    requires v.tasks == w.tasks && v.phases == w.phases && v.alive == w.alive
    requires v.issued == w.issued && v.nextToken == w.nextToken && v.publisher == w.publisher
    requires forall i :: i in v.dirs && v.dirs[i].Some? ==> i in w.dirs && w.dirs[i] == v.dirs[i]
    requires EntriesNamed(v.lock, v.dirs, v.tasks)
    ensures Ordered(ids, v)
  {
    hide Busy, EntriesNamed, AllSeenTrue, ReclaimsSure, HoldersKnown, LockOwner, Claims, RecordTrue;
  }

  /** A directory that the lock name does not lead to may go, whoever claims the lock. */
  lemma OtherDirectoryGone(ids: Identities, w: World, v: World, inode: nat)
    requires Ordered(ids, w) && w.lock != Some(inode) && v.dirs == w.dirs - {inode} && v.lock == w.lock
    requires v.tasks == w.tasks && v.phases == w.phases && v.alive == w.alive
    requires v.issued == w.issued && v.nextToken == w.nextToken && v.publisher == w.publisher
    ensures Ordered(ids, v)
  {
    assert LockOwner(v) == LockOwner(w);
    hide Busy, AllSeenTrue, ReclaimsSure, HoldersKnown, LockOwner, ClaimsStand, RecordTrue;
  }

  /** What a live process claims is recorded under the lock name with a token drawn for it. */
  lemma ClaimIsOwn(ids: Identities, w: World, q: Proc)
    requires Consistent(ids, w) && Ordered(ids, w)
    requires q in w.alive && q in w.tasks && q in w.phases && Claims(w.tasks[q], w.phases[q])
    ensures LockOwner(w).Some? && LockOwner(w).value.token in w.issued && w.issued[LockOwner(w).value.token] == q
  {
    PhaseKnows(ids, w, q);
    TaskKept(ids, w, q);
    hide Consistent, Ordered, LockOwner;
  }

  /** The process of the record that a reclaim judged is dead, so nobody claims what the reclaim takes. */
  lemma JudgedUnclaimed(ids: Identities, w: World, p: Proc)
    requires Consistent(ids, w) && Ordered(ids, w) && p in w.tasks && p in w.phases && w.tasks[p].Reclaim?
    requires LockOwner(w) == Some(w.tasks[p].seen)
    ensures Unclaimed(w)
  {
    TaskKept(ids, w, p);
    hide Consistent, Ordered, LockOwner, Claims;
    forall q | q in w.alive && q in w.tasks && q in w.phases ensures !Claims(w.tasks[q], w.phases[q]) {
      if Claims(w.tasks[q], w.phases[q]) { ClaimIsOwn(ids, w, q); }
    }
  }

  /** Only p could claim a lock with p's token, and p waits for a helper. */
  lemma OwnUnclaimed(ids: Identities, w: World, p: Proc)
    requires Consistent(ids, w) && Ordered(ids, w) && p in w.tasks && p in w.phases && w.phases[p] == Waiting
    requires LockOwner(w).Some? && LockOwner(w).value.token in w.issued ==> w.issued[LockOwner(w).value.token] == p
    ensures Unclaimed(w)
  {
    hide Consistent, Ordered, LockOwner;
    forall q | q in w.alive && q in w.tasks && q in w.phases ensures !Claims(w.tasks[q], w.phases[q]) {
      if Claims(w.tasks[q], w.phases[q]) { ClaimIsOwn(ids, w, q); }
    }
  }

  /** What is renamed away holds a record, so no entered directory loses its name. */
  lemma RenamedAway(ids: Identities, w: World, p: Proc, next: Task)
    requires Ordered(ids, w) && p in w.tasks && p in w.phases && Fits(next, w.phases[p]) && !next.Acquire? && Running(next)
    requires ReclaimSure(ids, w.issued, w.nextToken, w.alive, next) && w.phases[p] == Waiting && Running(w.tasks[p])
    requires w.lock.Some? ==> LockOwner(w).Some? && Unclaimed(w)
    ensures Ordered(ids, RenameAway(w, p, next))
  {
    if w.lock.None? {
      TaskKept(ids, w, p);
      hide Ordered;
      HelperEnds(ids, w, p, Failed(None));
    } else {
      TaskTaken(ids, w, p, next);
      var u := WithTask(w, p, next);
      var v := RenameAway(w, p, next);
      assert EntriesNamed(v.lock, v.dirs, v.tasks) by { hide RecordsTrue, Busy, ClaimsStand, AllSeenTrue, ReclaimsSure; }
      hide Ordered, EntriesNamed, LockOwner, ReclaimSure, Fits;
      assert Unclaimed(u);
      UnclaimedMoves(ids, u, v);
    }
  }

  lemma MadeDirectory(ids: Identities, w: World, p: Proc, owner: Owner)
    requires Ordered(ids, w) && p in w.tasks && p in w.phases && w.phases[p] == Acquiring(owner) && w.lock.None?
    ensures Ordered(ids, Mkdir(w, p, owner))
  {
    NoRecordUnclaimed(ids, w);
    TaskTaken(ids, w, p, Acquire(owner, Made));
    var u, v := WithTask(w, p, Acquire(owner, Made)), Mkdir(w, p, owner);
    assert EntriesNamed(v.lock, v.dirs, v.tasks) by { hide RecordsTrue, Busy, ClaimsStand, AllSeenTrue, ReclaimsSure; }
    hide Ordered, EntriesNamed, LockOwner;
    assert Unclaimed(u);
    UnclaimedMoves(ids, u, v);
  }

  /** The entered directory without a record is under the lock name, so the record linked there is the lock's. */
  lemma RecordLinkedOrdered(ids: Identities, w: World, p: Proc, owner: Owner, inode: nat)
    requires Ordered(ids, w) && p in w.tasks && p in w.phases && w.phases[p] == Acquiring(owner)
    requires w.tasks[p] == Acquire(owner, Entered(inode)) && inode in w.dirs && w.dirs[inode].None?
    requires Own(ids, w.issued, p, owner) && owner.token < w.nextToken
    ensures Ordered(ids, Publish(w, p, owner, inode))
  {
    TaskKept(ids, w, p);
    NoRecordUnclaimed(ids, w);
    var v := Publish(w, p, owner, inode);
    assert LockOwner(v) == Some(owner);
    assert RecordsTrue(ids, v.issued, v.nextToken, v.publisher, v.dirs) by { hide Busy, ClaimsStand, EntriesNamed; }
    assert EntriesNamed(v.lock, v.dirs, v.tasks) by { hide RecordsTrue, Busy, ClaimsStand; }
    hide RecordsTrue, EntriesNamed, LockOwner, AllSeenTrue, HoldersKnown, RecordTrue, Own;
    assert Busy(v.tasks, v.phases) && ReclaimsSure(ids, v.issued, v.nextToken, v.alive, v.tasks);
    assert ClaimsStand(Some(owner), v.alive, v.tasks, v.phases);
  }

  lemma AcquireOrdered(ids: Identities, w: World, p: Proc, owner: Owner, stage: AcquireStage, ok: bool)
    requires Ordered(ids, w) && p in w.tasks && p in w.phases && w.tasks[p] == Acquire(owner, stage)
    requires Own(ids, w.issued, p, owner) && owner.token < w.nextToken
    ensures Ordered(ids, AcquireStep(w, p, owner, stage, ok))
  {
    TaskKept(ids, w, p);
    hide Ordered, Own, Mkdir, Publish, ClaimStands, LockOwner;
    forall end | end != Succeeded || stage.Linked? { HelperEnds(ids, w, p, end); }
    match stage
    case ToMake =>
      if w.lock.None? { MadeDirectory(ids, w, p, owner); }
    case Made =>
      if w.lock.Some? { Onward(ids, w, p, owner, Looked(w.lock.value)); }
    case Looked(inode) =>
      if w.lock == Some(inode) { Onward(ids, w, p, owner, Entered(inode)); }
    case Entered(inode) =>
      if inode in w.dirs && w.dirs[inode].None? { RecordLinkedOrdered(ids, w, p, owner, inode); }
    case Linked(inode) =>
  }

  lemma Onward(ids: Identities, w: World, p: Proc, owner: Owner, next: AcquireStage)
    requires Ordered(ids, w) && p in w.tasks && p in w.phases && w.phases[p] == Acquiring(owner)
    requires next.Looked? || (next.Entered? && w.lock == Some(next.inode))
    ensures Ordered(ids, WithTask(w, p, Acquire(owner, next)))
  {
    hide Ordered, LockOwner;
    TaskTaken(ids, w, p, Acquire(owner, next));
  }

  /** A waiting parent's helper takes its next task. */
  lemma HelperGoesOn(ids: Identities, w: World, p: Proc, t: Task)
    requires Ordered(ids, w) && p in w.tasks && p in w.phases && w.phases[p] == Waiting && !t.Acquire? && Running(t)
    requires ReclaimSure(ids, w.issued, w.nextToken, w.alive, t)
    ensures Ordered(ids, WithTask(w, p, t))
  {
    hide Ordered, LockOwner, ReclaimSure;
    assert ReclaimSure(ids, w.issued, w.nextToken, w.alive, t);
    TaskTaken(ids, w, p, t);
  }

  /** The quarantined directory goes; the lock name never led there. */
  lemma QuarantineRemoved(ids: Identities, w: World, p: Proc, kind: Kind)
    requires Ordered(ids, w) && NamesApart(w.quarantine, w.lock)
    requires p in w.tasks && p in w.phases && w.phases[p] == Waiting && Running(w.tasks[p]) && !w.tasks[p].Acquire?
    ensures Ordered(ids, RemoveQuarantined(w, p, kind))
  {
    hide Ordered;
    HelperEnds(ids, w, p, Succeeded);
    var u, v := EndTask(w, p, Succeeded), RemoveQuarantined(w, p, kind);
    if p in w.quarantine {
      if w.quarantine[p] !in w.dirs { assert w.dirs - {w.quarantine[p]} == w.dirs; }
      OtherDirectoryGone(ids, u, v, w.quarantine[p]);
    }
  }

  /** The name comes back only to a free lock, or over a directory without a record: nobody claims either. */
  lemma RenamedBack(ids: Identities, w: World, p: Proc, empty: bool)
    requires Ordered(ids, w) && p in w.tasks && p in w.phases && w.tasks[p] == Restore
    ensures Ordered(ids, RenameBack(w, p, empty))
  {
    TaskKept(ids, w, p);
    HelperEnds(ids, w, p, Failed(None));
    var u, v := EndTask(w, p, Failed(None)), RenameBack(w, p, empty);
    if v != u {
      NoRecordUnclaimed(ids, u);
      assert EntriesNamed(v.lock, v.dirs, v.tasks) by { hide RecordsTrue, Busy, ClaimsStand, AllSeenTrue, ReclaimsSure; }
      hide Ordered, EntriesNamed, LockOwner, EndTask;
      UnclaimedMoves(ids, u, v);
    }
  }

  lemma CleanedUp(ids: Identities, w: World, p: Proc, inode: nat)
    requires Consistent(ids, w) && Ordered(ids, w)
    requires p in w.tasks && p in w.phases && w.tasks[p] == Cleanup(inode, true) && w.lock.Some?
    requires w.lock.value in w.publisher ==> w.publisher[w.lock.value] == p
    ensures Ordered(ids, CleanupStep(w, p, inode, true))
  {
    hide Consistent, Ordered, LockOwner;
    TaskKept(ids, w, p);
    PublishedByOwner(ids, w, p);
    OwnUnclaimed(ids, w, p);
    HelperEnds(ids, w, p, Succeeded);
    DirectoryCleanedUp(ids, EndTask(w, p, Succeeded), p);
  }

  lemma DirectoryCleanedUp(ids: Identities, u: World, p: Proc)
    requires Ordered(ids, u) && Unclaimed(u) && u.lock.Some?
    ensures Ordered(ids, Delete(u, p, u.lock.value, ByCleanup).(lock := None))
  {
    hide Ordered, EntriesNamed, LockOwner, Unclaimed;
    var v := Delete(u, p, u.lock.value, ByCleanup).(lock := None);
    assert v == u.(dirs := u.dirs - {u.lock.value}, deletions := v.deletions, lock := None);
    hide Delete;
    EntryCleanedUp(ids, u, v);
    UnclaimedMoves(ids, u, v);
  }

  lemma EntryCleanedUp(ids: Identities, u: World, v: World)
    requires Ordered(ids, u) && u.lock.Some? && v.tasks == u.tasks && v.dirs == u.dirs - {u.lock.value}
    ensures EntriesNamed(v.lock, v.dirs, v.tasks)
  {
    hide RecordsTrue, Busy, ClaimsStand, AllSeenTrue, ReclaimsSure, HoldersKnown;
    forall q | q in v.tasks ensures EntryNamed(v.lock, v.dirs, v.tasks[q]) {
      assert EntryNamed(u.lock, u.dirs, u.tasks[q]);
    }
  }

  /** A lock whose record has a token of this history was published, by the process of the token. */
  lemma PublishedByOwner(ids: Identities, w: World, p: Proc)
    requires Consistent(ids, w) && Ordered(ids, w)
    requires w.lock.Some? && w.lock.value in w.publisher ==> w.publisher[w.lock.value] == p
    ensures LockOwner(w).Some? && LockOwner(w).value.token in w.issued ==> w.issued[LockOwner(w).value.token] == p
  {
    hide OnlyJustifiedDeletions, TasksOwn, TasksHold, TasksSaw, PhasesOwn, NamesApart, InodesBelow, TokensBelow, DeletedGone,
      Busy, ClaimsStand, EntriesNamed, AllSeenTrue, ReclaimsSure, HoldersKnown;
  }

  lemma CleanupOrdered(ids: Identities, w: World, p: Proc, inode: nat, matched: bool)
    requires Consistent(ids, w) && Ordered(ids, w) && OwnCleanup(w, Step(p, false, false))
    requires p in w.tasks && p in w.phases && w.tasks[p] == Cleanup(inode, matched)
    ensures Ordered(ids, CleanupStep(w, p, inode, matched))
  {
    TaskKept(ids, w, p);
    hide Consistent, Ordered, LockOwner;
    if matched && w.lock.Some? {
      CleanedUp(ids, w, p, inode);
    } else {
      HelperEnds(ids, w, p, Succeeded);
      HelperEnds(ids, w, p, Failed(None));
      HelperGoesOn(ids, w, p, Cleanup(inode, true));
    }
  }

  lemma NamesKept(ids: Identities, w: World)
    requires Consistent(ids, w)
    ensures NamesApart(w.quarantine, w.lock)
  {
  }

  lemma ReclaimTakes(ids: Identities, w: World, p: Proc)
    requires Consistent(ids, w) && Ordered(ids, w) && Judged(w, Step(p, false, false))
    requires p in w.tasks && p in w.phases && w.tasks[p].Reclaim? && w.tasks[p].check.ToRename?
    ensures Ordered(ids, RenameAway(w, p, Reclaim(w.tasks[p].inode, w.tasks[p].seen, ToStat)))
  {
    TaskKept(ids, w, p);
    hide Consistent, Ordered, RenameAway, LockOwner;
    if w.lock.Some? { JudgedUnclaimed(ids, w, p); }
    RenamedAway(ids, w, p, Reclaim(w.tasks[p].inode, w.tasks[p].seen, ToStat));
  }

  /** The probe of a reclaim changes its task and a history variable. */
  lemma ReclaimProbes(ids: Identities, w: World, p: Proc, t: Task)
    requires Ordered(ids, w) && p in w.tasks && p in w.phases && w.phases[p] == Waiting && t.Reclaim?
    requires ReclaimSure(ids, w.issued, w.nextToken, w.alive, t)
    ensures Ordered(ids, WithTask(w, p, t).(seenDead := w.seenDead + {t.seen.pid}))
  {
    hide Ordered, ReclaimSure;
    HelperGoesOn(ids, w, p, t);
    SeenDeadNoted(ids, WithTask(w, p, t), t.seen.pid);
  }

  lemma ReclaimOrdered(ids: Identities, w: World, p: Proc, dead: bool)
    requires Consistent(ids, w) && Ordered(ids, w) && Judged(w, Step(p, dead, false))
    requires p in w.tasks && p in w.phases && w.tasks[p].Reclaim?
    ensures var t := w.tasks[p]; Ordered(ids, ReclaimStep(w, p, t.inode, t.seen, t.check, dead))
  {
    TaskKept(ids, w, p);
    NamesKept(ids, w);
    hide Consistent, Ordered, RenameAway, RemoveQuarantined, QuarantinedOwner, LockOwner, NamesApart, RecordTrue;
    var t := w.tasks[p];
    HelperGoesOn(ids, w, p, Restore);
    match t.check
    case ToRename => ReclaimTakes(ids, w, p);
    case ToStat => HelperGoesOn(ids, w, p, Reclaim(t.inode, t.seen, ToRead));
    case ToRead => HelperGoesOn(ids, w, p, Reclaim(t.inode, t.seen, ToProbe));
    case ToProbe => ReclaimProbes(ids, w, p, Reclaim(t.inode, t.seen, ToRemove));
    case ToRemove => QuarantineRemoved(ids, w, p, ByReclaim);
  }

  lemma SeenDeadNoted(ids: Identities, w: World, pid: int)
    requires Ordered(ids, w)
    ensures Ordered(ids, w.(seenDead := w.seenDead + {pid}))
  {
    assert LockOwner(w.(seenDead := w.seenDead + {pid})) == LockOwner(w);
    hide LockOwner, Busy, ClaimsStand, EntriesNamed, RecordsTrue, AllSeenTrue, ReclaimsSure, HoldersKnown;
  }

  lemma ReleaseTakes(ids: Identities, w: World, p: Proc)
    requires Consistent(ids, w) && Ordered(ids, w) && Judged(w, Step(p, false, false))
    requires p in w.tasks && p in w.phases && w.tasks[p].Release? && w.tasks[p].check.ToRename?
    ensures Ordered(ids, RenameAway(w, p, Release(w.tasks[p].inode, w.tasks[p].owner, ToStat)))
  {
    TaskKept(ids, w, p);
    TaskKnows(ids, w, p);
    hide Consistent, Ordered, RenameAway, LockOwner, TaskHolds;
    if w.lock.Some? { OwnUnclaimed(ids, w, p); }
    RenamedAway(ids, w, p, Release(w.tasks[p].inode, w.tasks[p].owner, ToStat));
  }

  lemma ReleaseOrdered(ids: Identities, w: World, p: Proc, ok: bool)
    requires Consistent(ids, w) && Ordered(ids, w) && Judged(w, Step(p, false, ok))
    requires p in w.tasks && p in w.phases && w.tasks[p].Release?
    ensures var t := w.tasks[p]; Ordered(ids, ReleaseStep(w, p, t.inode, t.owner, t.check, ok))
  {
    TaskKept(ids, w, p);
    NamesKept(ids, w);
    hide Consistent, Ordered, RenameAway, RemoveQuarantined, QuarantinedOwner, LockOwner, NamesApart, SameOwner;
    var t := w.tasks[p];
    HelperGoesOn(ids, w, p, Restore);
    match t.check
    case ToRename => ReleaseTakes(ids, w, p);
    case ToStat => HelperGoesOn(ids, w, p, Release(t.inode, t.owner, ToRead));
    case ToRead => HelperGoesOn(ids, w, p, Release(t.inode, t.owner, ToRemove));
    case _ => QuarantineRemoved(ids, w, p, ByRelease);
  }

  lemma HelperOrdered(ids: Identities, w: World, p: Proc, dead: bool, ok: bool)
    requires Consistent(ids, w) && Ordered(ids, w) && Possible(ids, w, Step(p, dead, ok))
    requires Judged(w, Step(p, dead, ok)) && OwnCleanup(w, Step(p, dead, ok))
    ensures Ordered(ids, HelperStep(w, p, dead, ok))
  {
    assert p in w.phases && TokensBelow(w.issued, w.nextToken);
    TaskKnows(ids, w, p);
    hide Consistent, Ordered, AcquireStep, ReclaimStep, ReleaseStep, RenameBack, CleanupStep, NoneAlive, LockOwner;
    match w.tasks[p]
    case Acquire(owner, stage) => AcquireOrdered(ids, w, p, owner, stage, ok);
    case Reclaim(_, _, _) => ReclaimOrdered(ids, w, p, dead);
    case Release(_, _, _) => ReleaseOrdered(ids, w, p, ok);
    case Restore => RenamedBack(ids, w, p, ok);
    case Cleanup(inode, matched) => CleanupOrdered(ids, w, p, inode, matched);
  }

  /** The record under the lock name, once read, is true of its token. */
  lemma SeenRecordTrue(ids: Identities, w: World)
    requires Ordered(ids, w) && LockOwner(w).Some?
    ensures RecordTrue(ids, w.issued, w.nextToken, LockOwner(w).value)
  {
    hide Busy, ClaimsStand, EntriesNamed, AllSeenTrue, ReclaimsSure, HoldersKnown, RecordTrue;
  }

  lemma LookOrdered(ids: Identities, w: World, e: Event)
    requires Ordered(ids, w) && Possible(ids, w, e) && (e.StartLook? || e.ReadSeen?)
    ensures Ordered(ids, Happen(ids, w, e))
  {
    TaskKept(ids, w, e.p);
    if e.ReadSeen? && LockOwner(w).Some? { SeenRecordTrue(ids, w); }
    hide Ordered, LockOwner, RecordTrue;
    if !(e.StartLook? && w.lock.None?) {
      PhaseTaken(ids, w, e.p, Happen(ids, w, e).phases[e.p]);
    }
  }

  lemma CheckOrdered(ids: Identities, w: World, p: Proc)
    requires Ordered(ids, w) && Possible(ids, w, CheckOwner(p))
    ensures Ordered(ids, Happen(ids, w, CheckOwner(p)))
  {
    TaskKept(ids, w, p);
    hide Ordered, LockOwner, SameOwner;
    PhaseTaken(ids, w, p, Happen(ids, w, CheckOwner(p)).phases[p]);
  }

  /** The section is entered by an acquire that has published, or that finds its own record under the lock name. */
  lemma ReturnOrdered(ids: Identities, w: World, p: Proc)
    requires Ordered(ids, w) && Possible(ids, w, Return(p))
    ensures Ordered(ids, Happen(ids, w, Return(p)))
  {
    TaskKept(ids, w, p);
    hide Ordered, LockOwner, SameOwner;
    PhaseTaken(ids, w, p, Happen(ids, w, Return(p)).phases[p]);
  }

  lemma StartOrdered(ids: Identities, w: World, e: Event)
    requires Ordered(ids, w) && Possible(ids, w, e) && (e.StartReclaim? || e.StartRelease? || e.StartCleanup?)
    ensures Ordered(ids, Happen(ids, w, e))
  {
    TaskKept(ids, w, e.p);
    hide Ordered, LockOwner;
    if e.StartRelease? && w.lock.None? {
      PhaseTaken(ids, w, e.p, Resting);
    } else {
      HelperStarts(ids, w, e.p, Happen(ids, w, e).tasks[e.p]);
    }
  }

  lemma StepOrdered(ids: Identities, w: World, e: Event)
    requires Consistent(ids, w) && Ordered(ids, w) && Possible(ids, w, e) && Judged(w, e) && OwnCleanup(w, e)
    ensures Ordered(ids, Happen(ids, w, e))
  {
    assert w.alive <= w.phases.Keys == w.tasks.Keys;
    hide Consistent, Ordered, HelperStep, LockOwner, Judged, OwnCleanup;
    match e
    case Spawn(p) => Spawned(ids, w, p);
    case Die(p) => Died(ids, w, p);
    case Crash(p) => HelperEnds(ids, w, p, Crashed);
    case StartAcquire(p, now) => AcquireStarted(ids, w, p, now);
    case Step(p, dead, ok) => HelperOrdered(ids, w, p, dead, ok);
    case StartReclaim(_) => StartOrdered(ids, w, e);
    case StartRelease(_) => StartOrdered(ids, w, e);
    case StartCleanup(_) => StartOrdered(ids, w, e);
    case CheckOwner(p) => CheckOrdered(ids, w, p);
    case Return(p) => ReturnOrdered(ids, w, p);
    case _ => LookOrdered(ids, w, e);
  }

  lemma BeginningOrdered(ids: Identities, w: World)
    requires Beginning(w)
    ensures Ordered(ids, w)
  {
  }

  lemma {:induction false} TraceOrdered(ids: Identities, history: seq<World>, events: seq<Event>, k: nat)
    requires IsTrace(ids, history, events) && k < |history|
    requires forall j :: 0 <= j < |events| ==> Judged(history[j], events[j]) && OwnCleanup(history[j], events[j])
    ensures Consistent(ids, history[k]) && Ordered(ids, history[k])
    decreases k
  {
    hide Consistent, Ordered, Judged, OwnCleanup, Possible, Happen, IsHistory, Beginning;
    TraceIsHistory(ids, history, events);
    HistoryConsistent(ids, history, k);
    if k == 0 {
      BeginningOrdered(ids, history[0]);
    } else {
      TraceOrdered(ids, history, events, k - 1);
      assert Takes(ids, history[k - 1], events[k - 1], history[k - 1 + 1]);
      StepOrdered(ids, history[k - 1], events[k - 1]);
    }
  }

  /**
   * As long as every rename takes the directory with the record its helper judged, and no cleanup removes what another
   * process published, at most one live process is between acquire and release, whatever else is interleaved or crashes.
   */
  lemma JudgedRenamesExclude(ids: Identities, history: seq<World>, events: seq<Event>)
    requires IsTrace(ids, history, events)
    requires forall j :: 0 <= j < |events| ==> Judged(history[j], events[j]) && OwnCleanup(history[j], events[j])
    ensures forall k :: 0 <= k < |history| ==> Exclusive(history[k])
  {
    hide IsTrace, Judged, OwnCleanup, Exclusive, Consistent, Ordered;
    forall k | 0 <= k < |history| ensures Exclusive(history[k]) {
      TraceOrdered(ids, history, events, k);
      OrderedExcludes(ids, history[k]);
    }
  }

  // ---- What a cleanup may delete ----

  /** Past its look, an acquire, and the cleanup that follows it, know only a directory of their own. */
  predicate KnowsOwn(makers: map<nat, Proc>, p: Proc, t: Task) {
    match t
    case Acquire(_, Looked(inode)) => MadeBy(makers, p, inode)
    case Acquire(_, Entered(inode)) => MadeBy(makers, p, inode)
    case Acquire(_, Linked(inode)) => MadeBy(makers, p, inode)
    case Ended(Failed(Some(inode))) => MadeBy(makers, p, inode)
    case Cleanup(inode, _) => MadeBy(makers, p, inode)
    case _ => true
  }

  ghost predicate AllKnowOwn(makers: map<nat, Proc>, tasks: map<Proc, Task>) {
    forall p :: p in tasks ==> KnowsOwn(makers, p, tasks[p])
  }

  /** Nobody publishes in a directory another made. */
  ghost predicate PublishersMade(makers: map<nat, Proc>, publisher: map<nat, Proc>) {
    forall i :: i in publisher ==> MadeBy(makers, publisher[i], i)
  }

  /** The deletion took a directory its remover made, which nobody else published. */
  ghost predicate CleanedOwn(w: World, d: Deletion) {
    d.kind == ByCleanup ==>
      MadeBy(w.makers, d.remover, d.inode) && (d.inode in w.publisher ==> w.publisher[d.inode] == d.remover)
  }

  ghost predicate CleanupsMade(makers: map<nat, Proc>, deletions: set<Deletion>) {
    forall d :: d in deletions && d.kind == ByCleanup ==> MadeBy(makers, d.remover, d.inode)
  }

  ghost predicate MadeBelow(makers: map<nat, Proc>, nextInode: nat) {
    forall i :: i in makers ==> i < nextInode
  }

  ghost predicate Tidy(w: World) {
    && AllKnowOwn(w.makers, w.tasks)
    && PublishersMade(w.makers, w.publisher)
    && CleanupsMade(w.makers, w.deletions)
    && MadeBelow(w.makers, w.nextInode)
  }

  lemma TidyCleans(w: World, d: Deletion)
    requires Tidy(w) && d in w.deletions
    ensures CleanedOwn(w, d)
  {
    hide AllKnowOwn, MadeBelow;
  }

  lemma TaskTidied(w: World, p: Proc, t: Task)
    requires Tidy(w) && KnowsOwn(w.makers, p, t)
    ensures Tidy(WithTask(w, p, t))
  {
    hide KnowsOwn, MadeBelow, MadeBy;
  }

  /** Names move and records are read; at most one directory is deleted, and in a cleanup it is the remover's. */
  lemma MovesTidy(w: World, v: World, d: Deletion)
    requires Tidy(w) && (d.kind == ByCleanup ==> MadeBy(w.makers, d.remover, d.inode))
    requires v.makers == w.makers && v.publisher == w.publisher && v.tasks == w.tasks && v.nextInode == w.nextInode
    requires v.deletions == w.deletions || v.deletions == w.deletions + {d}
    ensures Tidy(v)
  {
    hide AllKnowOwn, MadeBelow, MadeBy, PublishersMade;
  }

  lemma PublishTidy(w: World, p: Proc, owner: Owner, inode: nat)
    requires Tidy(w) && MadeBy(w.makers, p, inode)
    ensures Tidy(Publish(w, p, owner, inode))
  {
    TaskTidied(w, p, Acquire(owner, Linked(inode)));
    hide KnowsOwn, MadeBelow, MadeBy, CleanupsMade;
  }

  lemma MkdirTidy(w: World, p: Proc, owner: Owner)
    requires Tidy(w)
    ensures Tidy(Mkdir(w, p, owner))
  {
    var makers := w.makers[w.nextInode := p];
    forall q, i | MadeBy(w.makers, q, i) ensures MadeBy(makers, q, i) {}
    hide MadeBy;
    forall q | q in w.tasks ensures KnowsOwn(makers, q, w.tasks[q]) {
      assert KnowsOwn(w.makers, q, w.tasks[q]);
    }
  }

  lemma TaskTidy(w: World, p: Proc)
    requires Tidy(w) && p in w.tasks
    ensures KnowsOwn(w.makers, p, w.tasks[p])
  {
    hide KnowsOwn, PublishersMade, CleanupsMade, MadeBelow;
  }

  lemma AcquireTidy(w: World, p: Proc, owner: Owner, stage: AcquireStage, ok: bool)
    requires Tidy(w) && p in w.tasks && w.tasks[p] == Acquire(owner, stage)
    requires stage.Made? && w.lock.Some? ==> MadeBy(w.makers, p, w.lock.value)
    ensures Tidy(AcquireStep(w, p, owner, stage, ok))
  {
    TaskTidy(w, p);
    hide Tidy, MadeBy, Mkdir, Publish;
    forall end | KnowsOwn(w.makers, p, Ended(end)) { TaskTidied(w, p, Ended(end)); }
    match stage
    case ToMake =>
      if w.lock.None? { MkdirTidy(w, p, owner); }
    case Made =>
      if w.lock.Some? { TaskTidied(w, p, Acquire(owner, Looked(w.lock.value))); }
    case Looked(inode) => TaskTidied(w, p, Acquire(owner, Entered(inode)));
    case Entered(inode) => PublishTidy(w, p, owner, inode);
    case Linked(inode) =>
  }

  lemma RenameAwayTidy(w: World, p: Proc, next: Task)
    requires Tidy(w) && KnowsOwn(w.makers, p, next)
    ensures Tidy(RenameAway(w, p, next))
  {
    TaskTidied(w, p, Ended(Failed(None)));
    TaskTidied(w, p, next);
    hide Tidy;
    if w.lock.Some? {
      MovesTidy(WithTask(w, p, next), RenameAway(w, p, next), Deletion(p, 0, ByRestore, None));
    }
  }

  lemma RemoveTidy(w: World, p: Proc, kind: Kind)
    requires Tidy(w) && kind != ByCleanup
    ensures Tidy(RemoveQuarantined(w, p, kind))
  {
    TaskTidied(w, p, Ended(Succeeded));
    hide Tidy;
    if p in w.quarantine {
      var i := w.quarantine[p];
      var found := if i in w.dirs then w.dirs[i] else None;
      MovesTidy(EndTask(w, p, Succeeded), RemoveQuarantined(w, p, kind), Deletion(p, i, kind, found));
    }
  }

  lemma RenameBackTidy(w: World, p: Proc, empty: bool)
    requires Tidy(w)
    ensures Tidy(RenameBack(w, p, empty))
  {
    TaskTidied(w, p, Ended(Failed(None)));
    hide Tidy;
    var inode := if w.lock.Some? then w.lock.value else 0;
    MovesTidy(EndTask(w, p, Failed(None)), RenameBack(w, p, empty), Deletion(p, inode, ByRestore, None));
  }

  /** A reclaim knows no directory to clean up. */
  lemma ReclaimTidy(w: World, p: Proc, dead: bool)
    requires Tidy(w) && p in w.tasks && w.tasks[p].Reclaim?
    ensures var t := w.tasks[p]; Tidy(ReclaimStep(w, p, t.inode, t.seen, t.check, dead))
  {
    var t := w.tasks[p];
    hide Tidy, QuarantinedOwner, RenameAway, RemoveQuarantined;
    TaskTidied(w, p, Restore);
    match t.check
    case ToRename => RenameAwayTidy(w, p, Reclaim(t.inode, t.seen, ToStat));
    case ToStat => TaskTidied(w, p, Reclaim(t.inode, t.seen, ToRead));
    case ToRead => TaskTidied(w, p, Reclaim(t.inode, t.seen, ToProbe));
    case ToProbe =>
      var u := WithTask(w, p, Reclaim(t.inode, t.seen, ToRemove));
      TaskTidied(w, p, Reclaim(t.inode, t.seen, ToRemove));
      MovesTidy(u, u.(seenDead := u.seenDead + {t.seen.pid}), Deletion(p, 0, ByReclaim, None));
    case ToRemove => RemoveTidy(w, p, ByReclaim);
  }

  lemma ReleaseTidy(w: World, p: Proc, ok: bool)
    requires Tidy(w) && p in w.tasks && w.tasks[p].Release?
    ensures var t := w.tasks[p]; Tidy(ReleaseStep(w, p, t.inode, t.owner, t.check, ok))
  {
    var t := w.tasks[p];
    hide Tidy, QuarantinedOwner, RenameAway, RemoveQuarantined, SameOwner;
    TaskTidied(w, p, Restore);
    match t.check
    case ToRename => RenameAwayTidy(w, p, Release(t.inode, t.owner, ToStat));
    case ToStat => TaskTidied(w, p, Release(t.inode, t.owner, ToRead));
    case ToRead => TaskTidied(w, p, Release(t.inode, t.owner, ToRemove));
    case _ => RemoveTidy(w, p, ByRelease);
  }

  lemma CleanupTidy(w: World, p: Proc, inode: nat, matched: bool)
    requires Tidy(w) && p in w.tasks && w.tasks[p] == Cleanup(inode, matched)
    requires matched && w.lock.Some? ==> w.lock == Some(inode)
    ensures Tidy(CleanupStep(w, p, inode, matched))
  {
    TaskTidy(w, p);
    hide Tidy, MadeBy;
    TaskTidied(w, p, Cleanup(inode, true));
    TaskTidied(w, p, Ended(Failed(None)));
    TaskTidied(w, p, Ended(Succeeded));
    if matched && w.lock.Some? {
      var found := if inode in w.dirs then w.dirs[inode] else None;
      MovesTidy(EndTask(w, p, Succeeded), CleanupStep(w, p, inode, matched), Deletion(p, inode, ByCleanup, found));
    }
  }

  lemma HelperTidy(w: World, p: Proc, dead: bool, ok: bool)
    requires Tidy(w) && p in w.tasks && Running(w.tasks[p]) && Steady(w, Step(p, dead, ok))
    ensures Tidy(HelperStep(w, p, dead, ok))
  {
    hide Tidy, AcquireStep, ReclaimStep, ReleaseStep, RenameBack, CleanupStep, MadeBy;
    match w.tasks[p]
    case Acquire(owner, stage) => AcquireTidy(w, p, owner, stage, ok);
    case Reclaim(_, _, _) => ReclaimTidy(w, p, dead);
    case Release(_, _, _) => ReleaseTidy(w, p, ok);
    case Restore => RenameBackTidy(w, p, ok);
    case Cleanup(inode, matched) => CleanupTidy(w, p, inode, matched);
  }

  lemma PhaseTidied(w: World, p: Proc, phase: Phase)
    requires Tidy(w)
    ensures Tidy(WithPhase(w, p, phase))
  {
    hide AllKnowOwn, PublishersMade, CleanupsMade, MadeBelow;
  }

  lemma DeathTidy(w: World, p: Proc)
    requires Tidy(w)
    ensures Tidy(w.(alive := w.alive - {p}))
  {
    hide AllKnowOwn, PublishersMade, CleanupsMade, MadeBelow;
  }

  /** A process looks, decides or dies. */
  lemma QuietTidy(ids: Identities, w: World, e: Event)
    requires Tidy(w) && Possible(ids, w, e)
    requires e.Die? || e.StartLook? || e.ReadSeen? || e.CheckOwner? || e.Return?
    ensures Tidy(Happen(ids, w, e))
  {
    hide Tidy, LockOwner, SameOwner, WithPhase;
    forall phase { PhaseTidied(w, e.p, phase); }
    DeathTidy(w, e.p);
  }

  /** A process begins, ends or starts a helper, which knows at most the directory its acquire left behind. */
  lemma StartTidy(ids: Identities, w: World, e: Event)
    requires Tidy(w) && Possible(ids, w, e)
    requires e.Spawn? || e.Crash? || e.StartAcquire? || e.StartReclaim? || e.StartRelease? || e.StartCleanup?
    ensures Tidy(Happen(ids, w, e))
  {
    if e.StartCleanup? { TaskTidy(w, e.p); }
    hide Tidy, MadeBy;
    var v := Happen(ids, w, e);
    var none := Deletion(e.p, 0, ByRestore, None);
    if e.StartRelease? && w.lock.None? {
      MovesTidy(w, v, none);
    } else {
      TaskTidied(w, e.p, v.tasks[e.p]);
      MovesTidy(WithTask(w, e.p, v.tasks[e.p]), v, none);
    }
  }

  lemma StepTidy(ids: Identities, w: World, e: Event)
    requires Tidy(w) && Possible(ids, w, e) && Steady(w, e)
    ensures Tidy(Happen(ids, w, e))
  {
    hide Tidy, HelperStep, Steady;
    if e.Step? {
      HelperTidy(w, e.p, e.dead, e.ok);
    } else if e.Die? || e.StartLook? || e.ReadSeen? || e.CheckOwner? || e.Return? {
      QuietTidy(ids, w, e);
    } else {
      StartTidy(ids, w, e);
    }
  }

  lemma SteadyOwnCleanup(w: World, e: Event)
    requires Tidy(w) && Steady(w, e)
    ensures OwnCleanup(w, e)
  {
    if e.p in w.tasks { TaskTidy(w, e.p); }
    hide AllKnowOwn, CleanupsMade, MadeBelow;
  }

  lemma {:induction false} TraceTidy(ids: Identities, history: seq<World>, events: seq<Event>, k: nat)
    requires IsTrace(ids, history, events) && k < |history|
    requires forall j :: 0 <= j < |events| ==> Steady(history[j], events[j])
    ensures Tidy(history[k])
    decreases k
  {
    if k > 0 {
      TraceTidy(ids, history, events, k - 1);
      hide Tidy, Steady, Possible, Happen;
      assert Takes(ids, history[k - 1], events[k - 1], history[k - 1 + 1]);
      StepTidy(ids, history[k - 1], events[k - 1]);
    }
  }

  /**
   * As long as every look of an acquire finds a directory of its own and the lock name keeps its inode between a cleanup's
   * comparison and its removal, a cleanup removes nothing but what its own process made, and nothing another published.
   */
  lemma SteadyCleanupsRemoveOwn(ids: Identities, history: seq<World>, events: seq<Event>)
    requires IsTrace(ids, history, events)
    requires forall j :: 0 <= j < |events| ==> Steady(history[j], events[j])
    ensures forall k, d :: 0 <= k < |history| && d in history[k].deletions ==> CleanedOwn(history[k], d)
    ensures forall j :: 0 <= j < |events| ==> OwnCleanup(history[j], events[j])
  {
    hide Steady, Tidy, CleanedOwn, OwnCleanup, Possible, Happen;
    forall k, d | 0 <= k < |history| && d in history[k].deletions ensures CleanedOwn(history[k], d) {
      TraceTidy(ids, history, events, k);
      TidyCleans(history[k], d);
    }
    forall j | 0 <= j < |events| ensures OwnCleanup(history[j], events[j]) {
      TraceTidy(ids, history, events, j);
      SteadyOwnCleanup(history[j], events[j]);
    }
  }

  /** Judged renames and steady names together are enough: both are conditions on single steps. */
  lemma SteadyHistoriesExclude(ids: Identities, history: seq<World>, events: seq<Event>)
    requires IsTrace(ids, history, events)
    requires forall j :: 0 <= j < |events| ==> Judged(history[j], events[j]) && Steady(history[j], events[j])
    ensures forall k :: 0 <= k < |history| ==> Exclusive(history[k])
  {
    hide IsTrace, Judged, Steady, Exclusive, OwnCleanup, CleanedOwn;
    SteadyCleanupsRemoveOwn(ids, history, events);
    JudgedRenamesExclude(ids, history, events);
  }
}
