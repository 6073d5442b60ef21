/**
 * The directory lock with every rename, check and removal of its helpers as a step of its own.
 * Directories are inodes that keep their identity while names move; heartbeats and the aged-artifact sweep are left out.
 */
module DirectoryLockSteps {
  import opened LockOwners
  import opened Wrappers

  /** The helper a process has started; it goes on when its parent dies. */
  datatype Task =
    | NoHelper
    | Acquire(owner: Owner, stage: AcquireStage)
    | Reclaim(inode: nat, seen: Owner, check: Check)
    | Release(inode: nat, owner: Owner, check: Check)
    // a failed check renames the quarantined directory back, as best it can
    | Restore
    | Cleanup(inode: nat, matched: bool)
    | Ended(end: End)

  /** What lock-acquire has done: made the directory, looked at its inode, entered it, linked the record. */
  datatype AcquireStage = ToMake | Made | Looked(inode: nat) | Entered(inode: nat) | Linked(inode: nat)

  /** The next step of lock-reclaim or lock-release; only a reclaim probes. */
  datatype Check = ToRename | ToStat | ToRead | ToProbe | ToRemove

  datatype End = Succeeded | LockExists | Failed(cleanup: Option<nat>) | Crashed

  datatype Phase =
    | Resting
    | Acquiring(owner: Owner)
    | InSection(owner: Owner)
    | LookedAt(inode: nat)
    | Judging(inode: nat, seen: Owner)
    | Leaving(owner: Owner)
    | Waiting

  datatype Kind = ByReclaim | ByRelease | ByCleanup | ByRestore

  /** The history of deleted directories: who deleted which, how, and what its owner record said. */
  datatype Deletion = Deletion(remover: Proc, inode: nat, kind: Kind, owner: Option<Owner>)

  datatype World = World(
    dirs: map<nat, Option<Owner>>,
    lock: Option<nat>,
    quarantine: map<Proc, nat>,
    tasks: map<Proc, Task>,
    phases: map<Proc, Phase>,
    alive: set<Proc>,
    nextInode: nat,
    nextToken: nat,
    // history: who made and who published each directory, whose each token is
    makers: map<nat, Proc>,
    publisher: map<nat, Proc>,
    issued: map<nat, Proc>,
    seenDead: set<int>,
    deletions: set<Deletion>)

  datatype Event =
    | Spawn(p: Proc)
    | Die(p: Proc)
    | Crash(p: Proc)
    | StartAcquire(p: Proc, now: int)
    | StartLook(p: Proc)
    | ReadSeen(p: Proc)
    | StartReclaim(p: Proc)
    | CheckOwner(p: Proc)
    | StartRelease(p: Proc)
    | StartCleanup(p: Proc)
    | Step(p: Proc, dead: bool, ok: bool)
    | Return(p: Proc)

  predicate Live(w: World, p: Proc) {
    p in w.alive && p in w.phases && p in w.tasks
  }

  predicate Running(t: Task) {
    !t.NoHelper? && !t.Ended?
  }

  predicate Probing(t: Task) {
    t.Reclaim? && t.check.ToProbe?
  }

  predicate Removing(t: Task) {
    t.Reclaim? && t.check.ToRemove?
  }

  /** The owner record under the lock name. */
  function LockOwner(w: World): Option<Owner> {
    if w.lock.Some? && w.lock.value in w.dirs then w.dirs[w.lock.value] else None
  }

  predicate Possible(ids: Identities, w: World, e: Event) {
    match e
    case Spawn(p) => p !in w.phases && NoneAlive(ids, w.alive, ids.pidOf(p))
    case Die(p) => p in w.alive
    case Crash(p) => p in w.tasks && Running(w.tasks[p])
    case StartAcquire(p, _) => Live(w, p) && w.phases[p] == Resting
    case StartLook(p) => Live(w, p) && w.phases[p] == Resting
    case ReadSeen(p) => Live(w, p) && w.phases[p].LookedAt?
    case StartReclaim(p) => Live(w, p) && w.phases[p].Judging? && NoneAlive(ids, w.alive, w.phases[p].seen.pid)
    case CheckOwner(p) => Live(w, p) && w.phases[p].InSection?
    case StartRelease(p) => Live(w, p) && w.phases[p].Leaving?
    case StartCleanup(p) =>
      && Live(w, p) && w.phases[p].Acquiring?
      && w.tasks[p].Ended? && w.tasks[p].end.Failed? && w.tasks[p].end.cleanup.Some?
    case Step(p, dead, _) =>
      && p in w.tasks && Running(w.tasks[p])
      && (Probing(w.tasks[p]) && dead ==> NoneAlive(ids, w.alive, w.tasks[p].seen.pid))
    case Return(p) => Live(w, p) && (w.phases[p].Acquiring? || w.phases[p].Waiting?) && !Running(w.tasks[p])
  }

  function WithTask(w: World, p: Proc, t: Task): World {
    w.(tasks := w.tasks[p := t])
  }

  function WithPhase(w: World, p: Proc, phase: Phase): World {
    w.(phases := w.phases[p := phase])
  }

  /** Delete a directory that is still there, and record it. */
  function Delete(w: World, p: Proc, inode: nat, kind: Kind): World {
    if inode in w.dirs then
      w.(dirs := w.dirs - {inode}, deletions := w.deletions + {Deletion(p, inode, kind, w.dirs[inode])})
    else w
  }

  function Unquarantine(w: World, p: Proc): World {
    w.(quarantine := w.quarantine - {p})
  }

  function EndTask(w: World, p: Proc, end: End): World {
    WithTask(w, p, Ended(end))
  }

  /** Rename the lock to the helper's own fresh name; ENOENT ends the helper. */
  function RenameAway(w: World, p: Proc, next: Task): World {
    if w.lock.Some? then WithTask(w, p, next).(quarantine := w.quarantine[p := w.lock.value], lock := None)
    else EndTask(w, p, Failed(None))
  }

  /** Rename back. The rename succeeds when the name is free, or names an empty directory, which it replaces. */
  function RenameBack(w: World, p: Proc, empty: bool): World {
    var done := EndTask(w, p, Failed(None));
    if p !in w.quarantine then done
    else if w.lock.None? then Unquarantine(done, p).(lock := Some(w.quarantine[p]))
    else if w.lock.value in w.dirs && w.dirs[w.lock.value].None? && empty then
      Unquarantine(Delete(done, p, w.lock.value, ByRestore), p).(lock := Some(w.quarantine[p]))
    else done
  }

  /** Remove the quarantined directory; with force unset a missing one would be an error, but it is never missing. */
  function RemoveQuarantined(w: World, p: Proc, kind: Kind): World {
    var done := EndTask(w, p, Succeeded);
    if p in w.quarantine then Unquarantine(Delete(done, p, w.quarantine[p], kind), p) else done
  }

  /** The owner record in p's quarantined directory. */
  function Quarantined(dirs: map<nat, Option<Owner>>, quarantine: map<Proc, nat>, p: Proc): Option<Owner> {
    if p in quarantine && quarantine[p] in dirs then dirs[quarantine[p]] else None
  }

  function QuarantinedOwner(w: World, p: Proc): Option<Owner> {
    Quarantined(w.dirs, w.quarantine, p)
  }

  function Mkdir(w: World, p: Proc, owner: Owner): World {
    WithTask(w, p, Acquire(owner, Made))
    .(lock := Some(w.nextInode), dirs := w.dirs[w.nextInode := None], nextInode := w.nextInode + 1,
       makers := w.makers[w.nextInode := p])
  }

  function Publish(w: World, p: Proc, owner: Owner, inode: nat): World {
    WithTask(w, p, Acquire(owner, Linked(inode)))
    .(dirs := w.dirs[inode := Some(owner)], publisher := w.publisher[inode := p])
  }

  function AcquireStep(w: World, p: Proc, owner: Owner, stage: AcquireStage, ok: bool): World {
    match stage
    case ToMake => if w.lock.Some? then EndTask(w, p, LockExists) else Mkdir(w, p, owner)
    case Made =>
      if w.lock.Some? then WithTask(w, p, Acquire(owner, Looked(w.lock.value))) else EndTask(w, p, Failed(None))
    case Looked(inode) =>
      if w.lock == Some(inode) then WithTask(w, p, Acquire(owner, Entered(inode))) else EndTask(w, p, Failed(Some(inode)))
    case Entered(inode) =>
      if inode in w.dirs && w.dirs[inode].None? then Publish(w, p, owner, inode) else EndTask(w, p, Failed(Some(inode)))
    case Linked(inode) => EndTask(w, p, if ok then Succeeded else Failed(Some(inode)))
  }

  function ReclaimStep(w: World, p: Proc, inode: nat, seen: Owner, check: Check, dead: bool): World {
    match check
    case ToRename => RenameAway(w, p, Reclaim(inode, seen, ToStat))
    case ToStat =>
      WithTask(w, p, if p in w.quarantine && w.quarantine[p] == inode then Reclaim(inode, seen, ToRead) else Restore)
    case ToRead =>
      WithTask(w, p, if QuarantinedOwner(w, p) == Some(seen) then Reclaim(inode, seen, ToProbe) else Restore)
    case ToProbe =>
      if dead then WithTask(w, p, Reclaim(inode, seen, ToRemove)).(seenDead := w.seenDead + {seen.pid})
      else WithTask(w, p, Restore)
    case ToRemove => RemoveQuarantined(w, p, ByReclaim)
  }

  function ReleaseStep(w: World, p: Proc, inode: nat, owner: Owner, check: Check, ok: bool): World {
    match check
    case ToRename => RenameAway(w, p, Release(inode, owner, ToStat))
    case ToStat =>
      WithTask(w, p, if p in w.quarantine && w.quarantine[p] == inode then Release(inode, owner, ToRead) else Restore)
    case ToRead =>
      var found := QuarantinedOwner(w, p);
      WithTask(w, p, if found.Some? && SameOwner(found.value, owner) then Release(inode, owner, ToRemove) else Restore)
    case _ => if ok then RemoveQuarantined(w, p, ByRelease) else WithTask(w, p, Restore)
  }

  /** lock-cleanup compares the inode under the lock name and then removes whatever the name leads to. */
  function CleanupStep(w: World, p: Proc, inode: nat, matched: bool): World {
    if !matched then if w.lock == Some(inode) then WithTask(w, p, Cleanup(inode, true)) else EndTask(w, p, Failed(None))
    else if w.lock.Some? then Delete(EndTask(w, p, Succeeded), p, w.lock.value, ByCleanup).(lock := None)
    else EndTask(w, p, Succeeded)
  }

  function HelperStep(w: World, p: Proc, dead: bool, ok: bool): World
    requires p in w.tasks && Running(w.tasks[p])
  {
    match w.tasks[p]
    case Acquire(owner, stage) => AcquireStep(w, p, owner, stage, ok)
    case Reclaim(inode, seen, check) => ReclaimStep(w, p, inode, seen, check, dead)
    case Release(inode, owner, check) => ReleaseStep(w, p, inode, owner, check, ok)
    case Restore => RenameBack(w, p, ok)
    case Cleanup(inode, matched) => CleanupStep(w, p, inode, matched)
  }

  function Happen(ids: Identities, w: World, e: Event): World
    requires Possible(ids, w, e)
  {
    match e
    case Spawn(p) => WithTask(WithPhase(w, p, Resting), p, NoHelper).(alive := w.alive + {p})
    case Die(p) => w.(alive := w.alive - {p})
    case Crash(p) => EndTask(w, p, Crashed)
    case StartAcquire(p, now) =>
      var owner := OwnerFor(ids, p, w.nextToken, now);
      WithTask(WithPhase(w, p, Acquiring(owner)), p, Acquire(owner, ToMake))
      .(nextToken := w.nextToken + 1, issued := w.issued[w.nextToken := p])
    case StartLook(p) => if w.lock.Some? then WithPhase(w, p, LookedAt(w.lock.value)) else w
    case ReadSeen(p) =>
      var found := LockOwner(w);
      WithPhase(w, p, if found.Some? then Judging(w.phases[p].inode, found.value) else Resting)
    case StartReclaim(p) =>
      WithTask(WithPhase(w, p, Waiting), p, Reclaim(w.phases[p].inode, w.phases[p].seen, ToRename))
    case CheckOwner(p) =>
      var owner := w.phases[p].owner;
      WithPhase(w, p, if LockOwner(w).Some? && SameOwner(LockOwner(w).value, owner) then Leaving(owner) else Resting)
    case StartRelease(p) =>
      if w.lock.Some? then WithTask(WithPhase(w, p, Waiting), p, Release(w.lock.value, w.phases[p].owner, ToRename))
      else WithPhase(w, p, Resting)
    case StartCleanup(p) => WithTask(WithPhase(w, p, Waiting), p, Cleanup(w.tasks[p].end.cleanup.value, false))
    case Step(p, dead, ok) => HelperStep(w, p, dead, ok)
    case Return(p) =>
      if w.phases[p].Waiting? then WithPhase(w, p, Resting)
      else
        var owner := w.phases[p].owner;
        if w.tasks[p] == Ended(Succeeded) then WithPhase(w, p, InSection(owner))
        else if w.tasks[p] == Ended(Crashed) && LockOwner(w).Some? && SameOwner(LockOwner(w).value, owner) then
          // the helper may have died after publishing: adopt exactly our own owner record
          WithPhase(w, p, InSection(owner))
        else WithPhase(w, p, Resting)
  }

  /** Nobody runs; there may be a lock directory left by earlier processes, whose tokens are not drawn again. */
  ghost predicate Beginning(w: World) {
    && w.quarantine == map[] && w.tasks == map[] && w.phases == map[] && w.alive == {}
    && w.makers == map[] && w.publisher == map[] && w.issued == map[] && w.seenDead == {} && w.deletions == {}
    && (forall i :: i in w.dirs ==> i < w.nextInode)
    && (w.lock.Some? ==> w.lock.value in w.dirs)
    && (forall i :: i in w.dirs && w.dirs[i].Some? ==> w.dirs[i].value.token < w.nextToken)
  }

  ghost predicate Follows(ids: Identities, w: World, v: World) {
    exists e :: Possible(ids, w, e) && v == Happen(ids, w, e)
  }

  ghost predicate IsHistory(ids: Identities, history: seq<World>) {
    && history != [] && Beginning(history[0])
    && forall k :: 0 <= k < |history| - 1 ==> Follows(ids, history[k], history[k + 1])
  }

  /** Between acquire and release. */
  predicate InCritical(w: World, p: Proc) {
    Live(w, p) && (w.phases[p].InSection? || w.phases[p].Leaving?)
  }

  ghost predicate Exclusive(w: World) {
    forall p, q :: InCritical(w, p) && InCritical(w, q) ==> p == q
  }

  // ---- What reclaim and release may delete ----

  /**
   * A reclaim deletes a directory whose recorded process was seen dead, a release one that carries the releaser's own token.
   * When the directory was published in this history, the publisher of a reclaimed one is dead and that of a released one
   * is the releaser. A restore replaces only directories nobody published.
   */
  ghost predicate Justified(ids: Identities, w: World, d: Deletion) {
    && (d.kind == ByReclaim ==>
          && d.owner.Some? && d.owner.value.pid in w.seenDead
          && (d.inode in w.publisher ==> w.publisher[d.inode] !in w.alive))
    && (d.kind == ByRelease ==>
          && d.owner.Some? && Own(ids, w.issued, d.remover, d.owner.value)
          && (d.inode in w.publisher ==> w.publisher[d.inode] == d.remover))
    && (d.kind == ByRestore ==> d.owner.None? && d.inode !in w.publisher)
  }

  ghost predicate OnlyJustifiedDeletions(ids: Identities, w: World) {
    forall d :: d in w.deletions ==> Justified(ids, w, d)
  }

  // ---- The invariant, one conjunct for each group of fields ----

  ghost predicate TasksOwn(ids: Identities, issued: map<nat, Proc>, tasks: map<Proc, Task>) {
    forall p :: p in tasks ==> TaskOwn(ids, issued, p, tasks[p])
  }

  predicate TaskOwn(ids: Identities, issued: map<nat, Proc>, p: Proc, t: Task) {
    t.Acquire? || t.Release? ==> Own(ids, issued, p, t.owner)
  }

  ghost predicate PhasesOwn(ids: Identities, issued: map<nat, Proc>, phases: map<Proc, Phase>) {
    forall p :: p in phases ==> PhaseOwn(ids, issued, p, phases[p])
  }

  predicate PhaseOwn(ids: Identities, issued: map<nat, Proc>, p: Proc, phase: Phase) {
    match phase
    case Acquiring(owner) => Own(ids, issued, p, owner)
    case InSection(owner) => Own(ids, issued, p, owner)
    case Leaving(owner) => Own(ids, issued, p, owner)
    case _ => true
  }

  /** Past its reading step, a helper's quarantined directory still holds the record it read. */
  ghost predicate TasksHold(dirs: map<nat, Option<Owner>>, quarantine: map<Proc, nat>, tasks: map<Proc, Task>) {
    forall p :: p in tasks ==> TaskHolds(Quarantined(dirs, quarantine, p), tasks[p])
  }

  predicate TaskHolds(held: Option<Owner>, t: Task) {
    && (t.Reclaim? && (t.check.ToProbe? || t.check.ToRemove?) ==> held == Some(t.seen))
    && (t.Release? && (t.check.ToProbe? || t.check.ToRemove?) ==> held.Some? && SameOwner(held.value, t.owner))
  }

  /** Past its probe, a reclaim knows that the recorded process, and whoever published the directory, is dead. */
  ghost predicate TasksSaw(
    publisher: map<nat, Proc>, alive: set<Proc>, seenDead: set<int>, quarantine: map<Proc, nat>, tasks: map<Proc, Task>)
  {
    forall p :: p in tasks && Removing(tasks[p]) ==>
      && tasks[p].seen.pid in seenDead
      && (p in quarantine && quarantine[p] in publisher ==> publisher[quarantine[p]] !in alive)
  }

  /** Every directory has at most one name: the lock, or one helper's quarantine. */
  ghost predicate NamesApart(quarantine: map<Proc, nat>, lock: Option<nat>) {
    && (forall p :: p in quarantine ==> lock != Some(quarantine[p]))
    && forall p, q :: p in quarantine && q in quarantine && quarantine[p] == quarantine[q] ==> p == q
  }

  ghost predicate InodesBelow(
    quarantine: map<Proc, nat>, lock: Option<nat>, dirs: map<nat, Option<Owner>>, nextInode: nat)
  {
    && (forall i :: i in dirs ==> i < nextInode)
    && (forall p :: p in quarantine ==> quarantine[p] < nextInode)
    && (lock.Some? ==> lock.value < nextInode)
  }

  ghost predicate TokensBelow(issued: map<nat, Proc>, nextToken: nat) {
    forall t :: t in issued ==> t < nextToken
  }

  /** A directory published in this history holds the record of the process that published it. */
  ghost predicate PublishersTrue(
    ids: Identities, issued: map<nat, Proc>, publisher: map<nat, Proc>, dirs: map<nat, Option<Owner>>,
    known: set<Proc>, nextInode: nat)
  {
    forall i :: i in publisher ==>
      && i < nextInode && publisher[i] in known
      && (i in dirs ==> dirs[i].Some? && Own(ids, issued, publisher[i], dirs[i].value))
  }

  ghost predicate DeletedGone(deletions: set<Deletion>, dirs: map<nat, Option<Owner>>, nextInode: nat) {
    forall d :: d in deletions ==> d.inode < nextInode && d.inode !in dirs
  }

  ghost predicate Consistent(ids: Identities, w: World) {
    && w.alive <= w.phases.Keys == w.tasks.Keys
    && TasksOwn(ids, w.issued, w.tasks)
    && PhasesOwn(ids, w.issued, w.phases)
    && TasksHold(w.dirs, w.quarantine, w.tasks)
    && TasksSaw(w.publisher, w.alive, w.seenDead, w.quarantine, w.tasks)
    && NamesApart(w.quarantine, w.lock)
    && InodesBelow(w.quarantine, w.lock, w.dirs, w.nextInode)
    && TokensBelow(w.issued, w.nextToken)
    && PublishersTrue(ids, w.issued, w.publisher, w.dirs, w.phases.Keys, w.nextInode)
    && DeletedGone(w.deletions, w.dirs, w.nextInode)
    && OnlyJustifiedDeletions(ids, w)
  }

  /** Nothing that speaks for the deletions made so far was taken back. */
  lemma StaysJustified(ids: Identities, w: World, v: World)
    requires OnlyJustifiedDeletions(ids, w) && v.deletions == w.deletions
    requires w.seenDead <= v.seenDead
    requires forall t :: t in w.issued ==> t in v.issued && v.issued[t] == w.issued[t]
    requires forall d :: d in w.deletions ==> (d.inode in v.publisher <==> d.inode in w.publisher)
    requires forall d :: d in w.deletions && d.inode in w.publisher ==>
      && v.publisher[d.inode] == w.publisher[d.inode]
      && (w.publisher[d.inode] in v.alive ==> w.publisher[d.inode] in w.alive)
    ensures OnlyJustifiedDeletions(ids, v)
  {
    forall d | d in v.deletions ensures Justified(ids, v, d) {
      assert Justified(ids, w, d);
    }
  }

  // ---- One process takes a new task, and the others keep what they knew ----

  lemma OneOwns(ids: Identities, issued: map<nat, Proc>, tasks: map<Proc, Task>, p: Proc, t: Task)
    requires TasksOwn(ids, issued, tasks) && TaskOwn(ids, issued, p, t)
    ensures TasksOwn(ids, issued, tasks[p := t])
  {
    hide TaskOwn;
  }

  /** The others' quarantined records stay. */
  ghost predicate OthersHeld(
    dirs: map<nat, Option<Owner>>, quarantine: map<Proc, nat>, p: Proc,
    newDirs: map<nat, Option<Owner>>, newQuarantine: map<Proc, nat>)
  {
    forall q :: q != p && Quarantined(dirs, quarantine, q).Some? ==>
      Quarantined(newDirs, newQuarantine, q) == Quarantined(dirs, quarantine, q)
  }

  /** p takes task t, and v differs from w only in p's quarantine name, the lock name, and directories nobody else judged. */
  lemma OneTask(ids: Identities, w: World, v: World, p: Proc, t: Task)
    requires Consistent(ids, w) && p in w.tasks && v.tasks == w.tasks[p := t]
    requires v.issued == w.issued && TaskOwn(ids, w.issued, p, t) && !Removing(t)
    requires TaskHolds(QuarantinedOwner(v, p), t) && OthersHeld(w.dirs, w.quarantine, p, v.dirs, v.quarantine)
    requires v.publisher == w.publisher && v.alive == w.alive && v.seenDead == w.seenDead
    requires forall q :: q != p ==> (q in v.quarantine <==> q in w.quarantine)
    requires forall q :: q != p && q in w.quarantine ==> v.quarantine[q] == w.quarantine[q]
    ensures v.tasks.Keys == w.tasks.Keys
    ensures TasksOwn(ids, v.issued, v.tasks) && TasksHold(v.dirs, v.quarantine, v.tasks)
    ensures TasksSaw(v.publisher, v.alive, v.seenDead, v.quarantine, v.tasks)
  {
    hide OnlyJustifiedDeletions, Justified, TaskOwn, PhasesOwn, NamesApart, InodesBelow, TokensBelow, PublishersTrue,
      DeletedGone, Quarantined;
  }

  lemma OneHolds(
    dirs: map<nat, Option<Owner>>, quarantine: map<Proc, nat>, tasks: map<Proc, Task>, p: Proc, t: Task,
    newDirs: map<nat, Option<Owner>>, newQuarantine: map<Proc, nat>)
    requires TasksHold(dirs, quarantine, tasks)
    requires TaskHolds(Quarantined(newDirs, newQuarantine, p), t) && OthersHeld(dirs, quarantine, p, newDirs, newQuarantine)
    ensures TasksHold(newDirs, newQuarantine, tasks[p := t])
  {
    hide Quarantined;
  }

  lemma OnePhaseOwns(ids: Identities, issued: map<nat, Proc>, phases: map<Proc, Phase>, p: Proc, phase: Phase)
    requires PhasesOwn(ids, issued, phases) && PhaseOwn(ids, issued, p, phase)
    ensures PhasesOwn(ids, issued, phases[p := phase])
  {
    hide PhaseOwn;
  }

  /** Drawing a token takes none away. */
  lemma IssuedGrows(ids: Identities, w: World, p: Proc)
    requires Consistent(ids, w)
    ensures var issued := w.issued[w.nextToken := p];
      && TasksOwn(ids, issued, w.tasks) && PhasesOwn(ids, issued, w.phases) && TokensBelow(issued, w.nextToken + 1)
      && PublishersTrue(ids, issued, w.publisher, w.dirs, w.phases.Keys, w.nextInode)
  {
    hide OnlyJustifiedDeletions, TasksHold, TasksSaw, NamesApart, InodesBelow, DeletedGone;
    assert forall q, owner :: Own(ids, w.issued, q, owner) ==> Own(ids, w.issued[w.nextToken := p], q, owner);
  }

  // ---- Steps that move no directory ----

  lemma TaskChanges(ids: Identities, w: World, p: Proc, t: Task)
    requires Consistent(ids, w) && p in w.tasks
    requires TaskOwn(ids, w.issued, p, t) && TaskHolds(QuarantinedOwner(w, p), t) && !Removing(t)
    ensures Consistent(ids, WithTask(w, p, t))
  {
    hide OnlyJustifiedDeletions, Justified, TasksOwn, TasksHold, TasksSaw, PhasesOwn, NamesApart, InodesBelow, TokensBelow,
      PublishersTrue, DeletedGone, Quarantined;
    OneTask(ids, w, WithTask(w, p, t), p, t);
    StaysJustified(ids, w, WithTask(w, p, t));
  }

  lemma PhaseChanges(ids: Identities, w: World, p: Proc, phase: Phase)
    requires Consistent(ids, w) && p in w.phases && PhaseOwn(ids, w.issued, p, phase)
    ensures Consistent(ids, WithPhase(w, p, phase))
  {
    hide OnlyJustifiedDeletions, Justified, TasksOwn, TasksHold, TasksSaw, PhasesOwn, NamesApart, InodesBelow, TokensBelow,
      PublishersTrue, DeletedGone;
    OnePhaseOwns(ids, w.issued, w.phases, p, phase);
    assert WithPhase(w, p, phase).phases.Keys == w.phases.Keys;
    StaysJustified(ids, w, WithPhase(w, p, phase));
  }

  /** A process that was never there published nothing, so no recorded publisher comes back to life. */
  lemma SpawnStep(ids: Identities, w: World, p: Proc)
    requires Consistent(ids, w) && Possible(ids, w, Spawn(p))
    ensures Consistent(ids, Happen(ids, w, Spawn(p)))
  {
    hide OnlyJustifiedDeletions, Justified, TasksOwn, TasksHold, PhasesOwn, NamesApart, InodesBelow, TokensBelow, DeletedGone,
      Own;
    OneOwns(ids, w.issued, w.tasks, p, NoHelper);
    OneHolds(w.dirs, w.quarantine, w.tasks, p, NoHelper, w.dirs, w.quarantine);
    OnePhaseOwns(ids, w.issued, w.phases, p, Resting);
    StaysJustified(ids, w, Happen(ids, w, Spawn(p)));
  }

  lemma DieStep(ids: Identities, w: World, p: Proc)
    requires Consistent(ids, w) && Possible(ids, w, Die(p))
    ensures Consistent(ids, Happen(ids, w, Die(p)))
  {
    hide OnlyJustifiedDeletions, Justified, TasksOwn, TasksHold, PhasesOwn, NamesApart, InodesBelow, TokensBelow, DeletedGone,
      PublishersTrue;
    StaysJustified(ids, w, Happen(ids, w, Die(p)));
  }

  lemma StartAcquireStep(ids: Identities, w: World, p: Proc, now: int)
    requires Consistent(ids, w) && Possible(ids, w, StartAcquire(p, now))
    ensures Consistent(ids, Happen(ids, w, StartAcquire(p, now)))
  {
    hide OnlyJustifiedDeletions, Justified, TasksOwn, TasksHold, PhasesOwn, NamesApart, InodesBelow, DeletedGone,
      PublishersTrue;
    var v := Happen(ids, w, StartAcquire(p, now));
    var owner := OwnerFor(ids, p, w.nextToken, now);
    IssuedGrows(ids, w, p);
    OneOwns(ids, v.issued, w.tasks, p, Acquire(owner, ToMake));
    OneHolds(w.dirs, w.quarantine, w.tasks, p, Acquire(owner, ToMake), w.dirs, w.quarantine);
    OnePhaseOwns(ids, v.issued, w.phases, p, Acquiring(owner));
    assert v.phases.Keys == w.phases.Keys;
    StaysJustified(ids, w, v);
  }

  /** Whoever published the directory that a reclaim has read has the recorded pid. */
  lemma PublisherGone(ids: Identities, w: World, p: Proc)
    requires Consistent(ids, w) && p in w.tasks && Probing(w.tasks[p])
    requires NoneAlive(ids, w.alive, w.tasks[p].seen.pid)
    ensures p in w.quarantine && w.quarantine[p] in w.publisher ==> w.publisher[w.quarantine[p]] !in w.alive
  {
    TaskKnows(ids, w, p);
    hide OnlyJustifiedDeletions, TasksOwn, TasksHold, TasksSaw, PhasesOwn, NamesApart, InodesBelow, TokensBelow, DeletedGone;
  }

  /** The recorded process is seen dead, and with it every process of that pid, the publisher included. */
  lemma ProbeStep(ids: Identities, w: World, p: Proc)
    requires Consistent(ids, w) && p in w.tasks && Probing(w.tasks[p])
    requires NoneAlive(ids, w.alive, w.tasks[p].seen.pid)
    ensures var t := w.tasks[p]; Consistent(ids, ReclaimStep(w, p, t.inode, t.seen, t.check, true))
  {
    TaskKnows(ids, w, p);
    PublisherGone(ids, w, p);
    hide OnlyJustifiedDeletions, Justified, TasksOwn, TasksHold, PhasesOwn, NamesApart, InodesBelow, TokensBelow, DeletedGone,
      PublishersTrue, NoneAlive, QuarantinedOwner;
    var t := w.tasks[p];
    OneOwns(ids, w.issued, w.tasks, p, Reclaim(t.inode, t.seen, ToRemove));
    OneHolds(w.dirs, w.quarantine, w.tasks, p, Reclaim(t.inode, t.seen, ToRemove), w.dirs, w.quarantine);
    StaysJustified(ids, w, ReclaimStep(w, p, t.inode, t.seen, t.check, true));
  }

  // ---- Steps that move, make, publish or delete a directory ----

  lemma LockQuarantined(
    quarantine: map<Proc, nat>, lock: nat, p: Proc, dirs: map<nat, Option<Owner>>, nextInode: nat)
    requires NamesApart(quarantine, Some(lock)) && InodesBelow(quarantine, Some(lock), dirs, nextInode)
    ensures NamesApart(quarantine[p := lock], None) && InodesBelow(quarantine[p := lock], None, dirs, nextInode)
    ensures OthersHeld(dirs, quarantine, p, dirs, quarantine[p := lock])
  {
  }

  lemma RenameAwayStep(ids: Identities, w: World, p: Proc, next: Task)
    requires Consistent(ids, w) && p in w.tasks
    requires TaskOwn(ids, w.issued, p, next) && (next.Reclaim? || next.Release?) && next.check.ToStat?
    ensures Consistent(ids, RenameAway(w, p, next))
  {
    if w.lock.None? {
      TaskEnds(ids, w, p, Failed(None));
    } else {
      hide OnlyJustifiedDeletions, Justified, TasksOwn, TaskOwn, TasksHold, TasksSaw, PhasesOwn, NamesApart, InodesBelow,
        TokensBelow, DeletedGone, PublishersTrue, Quarantined, OthersHeld;
      var v := RenameAway(w, p, next);
      LockQuarantined(w.quarantine, w.lock.value, p, w.dirs, w.nextInode);
      OneTask(ids, w, v, p, next);
      StaysJustified(ids, w, v);
    }
  }

  lemma FreshDirectory(ids: Identities, w: World, makers: map<nat, Proc>)
    requires Consistent(ids, w) && w.lock.None?
    ensures Consistent(ids, w.(lock := Some(w.nextInode), dirs := w.dirs[w.nextInode := None],
                               nextInode := w.nextInode + 1, makers := makers))
  {
    hide OnlyJustifiedDeletions, Justified, TasksOwn, TaskHolds, TasksSaw, PhasesOwn, TokensBelow, Own;
    StaysJustified(ids, w, w.(lock := Some(w.nextInode), dirs := w.dirs[w.nextInode := None],
                              nextInode := w.nextInode + 1, makers := makers));
    forall q ensures Quarantined(w.dirs[w.nextInode := None], w.quarantine, q) == Quarantined(w.dirs, w.quarantine, q) {}
  }

  lemma MkdirStep(ids: Identities, w: World, p: Proc, owner: Owner)
    requires Consistent(ids, w) && p in w.tasks && Own(ids, w.issued, p, owner) && w.lock.None?
    ensures Consistent(ids, Mkdir(w, p, owner))
  {
    hide Consistent, Own;
    TaskChanges(ids, w, p, Acquire(owner, Made));
    FreshDirectory(ids, WithTask(w, p, Acquire(owner, Made)), w.makers[w.nextInode := p]);
  }

  /** Nobody has judged a directory that holds no record. */
  lemma UnpublishedNotRemoved(ids: Identities, w: World, inode: nat)
    requires Consistent(ids, w) && inode in w.dirs && w.dirs[inode].None?
    ensures inode !in w.publisher
    ensures forall q :: q in w.tasks && Removing(w.tasks[q]) && q in w.quarantine ==> w.quarantine[q] != inode
  {
    hide OnlyJustifiedDeletions, TasksOwn, TasksSaw, PhasesOwn, NamesApart, InodesBelow, TokensBelow, DeletedGone, Own;
    forall q | q in w.tasks && Removing(w.tasks[q]) && q in w.quarantine ensures w.quarantine[q] != inode {
      assert TaskHolds(QuarantinedOwner(w, q), w.tasks[q]);
    }
  }

  lemma RecordLinked(ids: Identities, w: World, p: Proc, owner: Owner, inode: nat)
    requires Consistent(ids, w) && p in w.tasks && Own(ids, w.issued, p, owner) && inode in w.dirs && w.dirs[inode].None?
    ensures var dirs := w.dirs[inode := Some(owner)]; var publisher := w.publisher[inode := p];
      && InodesBelow(w.quarantine, w.lock, dirs, w.nextInode) && DeletedGone(w.deletions, dirs, w.nextInode)
      && PublishersTrue(ids, w.issued, publisher, dirs, w.phases.Keys, w.nextInode)
      && OthersHeld(w.dirs, w.quarantine, p, dirs, w.quarantine)
  {
    hide OnlyJustifiedDeletions, TasksOwn, TasksHold, TasksSaw, PhasesOwn, TokensBelow, NamesApart, Own;
  }

  lemma PublishStep(ids: Identities, w: World, p: Proc, owner: Owner, inode: nat)
    requires Consistent(ids, w) && p in w.tasks && Own(ids, w.issued, p, owner)
    requires inode in w.dirs && w.dirs[inode].None?
    ensures Consistent(ids, Publish(w, p, owner, inode))
  {
    UnpublishedNotRemoved(ids, w, inode);
    RecordLinked(ids, w, p, owner, inode);
    hide OnlyJustifiedDeletions, Justified, TasksOwn, TasksHold, PhasesOwn, TokensBelow, NamesApart, Own, InodesBelow,
      PublishersTrue, Quarantined, OthersHeld;
    var v := Publish(w, p, owner, inode);
    OneTask(ids, w, v.(publisher := w.publisher), p, Acquire(owner, Linked(inode)));
    StaysJustified(ids, w, v);
  }

  /** A directory that no running helper has quarantined disappears. */
  lemma DirectoryGone(ids: Identities, w: World, p: Proc, inode: nat, kind: Kind)
    requires Consistent(ids, w) && inode in w.dirs
    requires Justified(ids, w, Deletion(p, inode, kind, w.dirs[inode]))
    requires forall q :: q in w.quarantine && q in w.tasks && w.quarantine[q] == inode ==> !Running(w.tasks[q])
    ensures Consistent(ids, Delete(w, p, inode, kind))
  {
    hide NamesApart, TokensBelow, PhasesOwn, TasksOwn, TasksSaw, Own;
    var v := Delete(w, p, inode, kind);
    forall d | d in v.deletions ensures Justified(ids, v, d) {
      assert d in w.deletions ==> Justified(ids, w, d);
    }
  }

  /** An ended helper's quarantine name goes away or becomes the lock name again. */
  lemma NameMoves(ids: Identities, w: World, p: Proc, lock: Option<nat>)
    requires Consistent(ids, w) && p in w.tasks && !Running(w.tasks[p]) && p in w.quarantine
    requires lock == w.lock || lock == Some(w.quarantine[p])
    ensures Consistent(ids, Unquarantine(w, p).(lock := lock))
  {
    hide OnlyJustifiedDeletions, Justified, TokensBelow, PublishersTrue, PhasesOwn, TasksOwn, DeletedGone;
    StaysJustified(ids, w, Unquarantine(w, p).(lock := lock));
  }

  lemma TaskEnds(ids: Identities, w: World, p: Proc, end: End)
    requires Consistent(ids, w) && p in w.tasks
    ensures Consistent(ids, EndTask(w, p, end))
  {
    hide Consistent;
    TaskChanges(ids, w, p, Ended(end));
  }

  /** The helper deletes the directory it has quarantined, and is done. */
  lemma RemoveStep(ids: Identities, w: World, p: Proc, kind: Kind)
    requires Consistent(ids, w) && p in w.tasks && p in w.quarantine && w.quarantine[p] in w.dirs
    requires Justified(ids, w, Deletion(p, w.quarantine[p], kind, w.dirs[w.quarantine[p]]))
    ensures Consistent(ids, RemoveQuarantined(w, p, kind))
  {
    hide OnlyJustifiedDeletions, TasksOwn, TasksHold, TasksSaw, PhasesOwn, InodesBelow, TokensBelow, PublishersTrue, DeletedGone;
    TaskEnds(ids, w, p, Succeeded);
    var u := EndTask(w, p, Succeeded);
    var inode := w.quarantine[p];
    assert Justified(ids, u, Deletion(p, inode, kind, u.dirs[inode]));
    DirectoryGone(ids, u, p, inode, kind);
    var v := Delete(u, p, inode, kind);
    NameMoves(ids, v, p, v.lock);
  }

  lemma RenameBackStep(ids: Identities, w: World, p: Proc, empty: bool)
    requires Consistent(ids, w) && p in w.tasks
    ensures Consistent(ids, RenameBack(w, p, empty))
  {
    hide OnlyJustifiedDeletions, TasksOwn, TasksHold, TasksSaw, PhasesOwn, InodesBelow, TokensBelow, DeletedGone;
    TaskEnds(ids, w, p, Failed(None));
    var done := EndTask(w, p, Failed(None));
    if p in w.quarantine && w.lock.None? {
      NameMoves(ids, done, p, Some(w.quarantine[p]));
    } else if p in w.quarantine && w.lock.value in w.dirs && w.dirs[w.lock.value].None? && empty {
      assert Justified(ids, done, Deletion(p, w.lock.value, ByRestore, None));
      DirectoryGone(ids, done, p, w.lock.value, ByRestore);
      NameMoves(ids, Delete(done, p, w.lock.value, ByRestore), p, Some(w.quarantine[p]));
    }
  }

  lemma CleanupRemoves(ids: Identities, u: World, p: Proc)
    requires Consistent(ids, u) && p in u.tasks && !Running(u.tasks[p]) && u.lock.Some?
    ensures Consistent(ids, Delete(u, p, u.lock.value, ByCleanup).(lock := None))
  {
    hide OnlyJustifiedDeletions, TasksOwn, TasksHold, TasksSaw, PhasesOwn, TokensBelow, PublishersTrue, DeletedGone;
    if u.lock.value in u.dirs {
      assert Justified(ids, u, Deletion(p, u.lock.value, ByCleanup, u.dirs[u.lock.value]));
      DirectoryGone(ids, u, p, u.lock.value, ByCleanup);
    }
    LockNameGoes(ids, Delete(u, p, u.lock.value, ByCleanup));
  }

  lemma LockNameGoes(ids: Identities, w: World)
    requires Consistent(ids, w)
    ensures Consistent(ids, w.(lock := None))
  {
    hide OnlyJustifiedDeletions, Justified, TasksOwn, TasksHold, TasksSaw, PhasesOwn, TokensBelow, PublishersTrue, DeletedGone;
    StaysJustified(ids, w, w.(lock := None));
  }

  lemma CleanupKeeps(ids: Identities, w: World, p: Proc, inode: nat, matched: bool)
    requires Consistent(ids, w) && p in w.tasks
    ensures Consistent(ids, CleanupStep(w, p, inode, matched))
  {
    hide Consistent;
    TaskEnds(ids, w, p, Failed(None));
    TaskEnds(ids, w, p, Succeeded);
    TaskChanges(ids, w, p, Cleanup(inode, true));
    if matched && w.lock.Some? {
      CleanupRemoves(ids, EndTask(w, p, Succeeded), p);
    }
  }

  lemma TaskKnows(ids: Identities, w: World, p: Proc)
    requires Consistent(ids, w) && p in w.tasks
    ensures TaskOwn(ids, w.issued, p, w.tasks[p])
    ensures TaskHolds(QuarantinedOwner(w, p), w.tasks[p])
  {
    hide OnlyJustifiedDeletions, TasksSaw, PhasesOwn, NamesApart, InodesBelow, TokensBelow, PublishersTrue, DeletedGone;
  }

  lemma ReclaimJustified(ids: Identities, w: World, p: Proc)
    requires Consistent(ids, w) && p in w.tasks && Removing(w.tasks[p])
    ensures p in w.quarantine && w.quarantine[p] in w.dirs
    ensures Justified(ids, w, Deletion(p, w.quarantine[p], ByReclaim, w.dirs[w.quarantine[p]]))
  {
    TaskKnows(ids, w, p);
    hide OnlyJustifiedDeletions, PhasesOwn, NamesApart, InodesBelow, TokensBelow, PublishersTrue, DeletedGone;
  }

  /** The quarantined directory carries the releaser's token, so if it was published in this history the releaser did it. */
  lemma ReleaseJustified(ids: Identities, w: World, p: Proc)
    requires Consistent(ids, w) && p in w.tasks && w.tasks[p].Release?
    requires w.tasks[p].check.ToProbe? || w.tasks[p].check.ToRemove?
    ensures p in w.quarantine && w.quarantine[p] in w.dirs
    ensures Justified(ids, w, Deletion(p, w.quarantine[p], ByRelease, w.dirs[w.quarantine[p]]))
  {
    hide OnlyJustifiedDeletions, TasksSaw, PhasesOwn, NamesApart, InodesBelow, TokensBelow, DeletedGone;
    TaskKnows(ids, w, p);
  }

  lemma AcquireKeeps(ids: Identities, w: World, p: Proc, owner: Owner, stage: AcquireStage, ok: bool)
    requires Consistent(ids, w) && p in w.tasks && Own(ids, w.issued, p, owner)
    ensures Consistent(ids, AcquireStep(w, p, owner, stage, ok))
  {
    hide Consistent, Own, Mkdir, Publish;
    forall end { TaskEnds(ids, w, p, end); }
    forall next { TaskChanges(ids, w, p, Acquire(owner, next)); }
    if stage == ToMake && w.lock.None? {
      MkdirStep(ids, w, p, owner);
    } else if stage.Entered? && stage.inode in w.dirs && w.dirs[stage.inode].None? {
      PublishStep(ids, w, p, owner, stage.inode);
    }
  }

  lemma ReclaimKeeps(ids: Identities, w: World, p: Proc, dead: bool)
    requires Consistent(ids, w) && p in w.tasks && w.tasks[p].Reclaim?
    requires w.tasks[p].check.ToProbe? && dead ==> NoneAlive(ids, w.alive, w.tasks[p].seen.pid)
    ensures var t := w.tasks[p]; Consistent(ids, ReclaimStep(w, p, t.inode, t.seen, t.check, dead))
  {
    hide Consistent, RenameAway, RemoveQuarantined, QuarantinedOwner, NoneAlive;
    var t := w.tasks[p];
    TaskChanges(ids, w, p, Restore);
    match t.check
    case ToRename => RenameAwayStep(ids, w, p, Reclaim(t.inode, t.seen, ToStat));
    case ToStat => TaskChanges(ids, w, p, Reclaim(t.inode, t.seen, ToRead));
    case ToRead =>
      if QuarantinedOwner(w, p) == Some(t.seen) { TaskChanges(ids, w, p, Reclaim(t.inode, t.seen, ToProbe)); }
    case ToProbe =>
      if dead { ProbeStep(ids, w, p); }
    case ToRemove =>
      ReclaimJustified(ids, w, p);
      RemoveStep(ids, w, p, ByReclaim);
  }

  lemma ReleaseKeeps(ids: Identities, w: World, p: Proc, ok: bool)
    requires Consistent(ids, w) && p in w.tasks && w.tasks[p].Release?
    ensures var t := w.tasks[p]; Consistent(ids, ReleaseStep(w, p, t.inode, t.owner, t.check, ok))
  {
    TaskKnows(ids, w, p);
    hide Consistent, RenameAway, RemoveQuarantined, QuarantinedOwner, SameOwner, Own;
    var t := w.tasks[p];
    TaskChanges(ids, w, p, Restore);
    match t.check
    case ToRename => RenameAwayStep(ids, w, p, Release(t.inode, t.owner, ToStat));
    case ToStat => TaskChanges(ids, w, p, Release(t.inode, t.owner, ToRead));
    case ToRead =>
      var found := QuarantinedOwner(w, p);
      if found.Some? && SameOwner(found.value, t.owner) { TaskChanges(ids, w, p, Release(t.inode, t.owner, ToRemove)); }
    case _ =>
      ReleaseJustified(ids, w, p);
      RemoveStep(ids, w, p, ByRelease);
  }

  lemma HelperKeeps(ids: Identities, w: World, p: Proc, dead: bool, ok: bool)
    requires Consistent(ids, w) && Possible(ids, w, Step(p, dead, ok))
    ensures Consistent(ids, HelperStep(w, p, dead, ok))
  {
    TaskKnows(ids, w, p);
    hide Consistent, AcquireStep, ReclaimStep, ReleaseStep, RenameBack, CleanupStep, NoneAlive, Own;
    match w.tasks[p]
    case Acquire(owner, stage) => AcquireKeeps(ids, w, p, owner, stage, ok);
    case Reclaim(_, _, _) => ReclaimKeeps(ids, w, p, dead);
    case Release(_, _, _) => ReleaseKeeps(ids, w, p, ok);
    case Restore => RenameBackStep(ids, w, p, ok);
    case Cleanup(inode, matched) => CleanupKeeps(ids, w, p, inode, matched);
  }

  /** A process starts a helper, which knows its owner record if it is to use one. */
  lemma StartStep(ids: Identities, w: World, p: Proc, phase: Phase, t: Task)
    requires Consistent(ids, w) && p in w.phases && p in w.tasks && PhaseOwn(ids, w.issued, p, phase)
    requires TaskOwn(ids, w.issued, p, t) && TaskHolds(QuarantinedOwner(w, p), t) && !Removing(t)
    ensures Consistent(ids, WithTask(WithPhase(w, p, phase), p, t))
  {
    hide Consistent, TaskOwn, TaskHolds, PhaseOwn;
    PhaseChanges(ids, w, p, phase);
    TaskChanges(ids, WithPhase(w, p, phase), p, t);
  }

  lemma PhaseKnows(ids: Identities, w: World, p: Proc)
    requires Consistent(ids, w) && p in w.phases
    ensures PhaseOwn(ids, w.issued, p, w.phases[p])
  {
    hide OnlyJustifiedDeletions, TasksOwn, TasksHold, TasksSaw, NamesApart, InodesBelow, TokensBelow, PublishersTrue,
      DeletedGone;
  }

  lemma StepConsistent(ids: Identities, w: World, e: Event)
    requires Consistent(ids, w) && Possible(ids, w, e)
    ensures Consistent(ids, Happen(ids, w, e))
  {
    hide Consistent, HelperStep, LockOwner;
    if !e.Spawn? && e.p in w.phases { PhaseKnows(ids, w, e.p); }
    match e
    case Spawn(p) => SpawnStep(ids, w, p);
    case Die(p) => DieStep(ids, w, p);
    case Crash(p) => TaskEnds(ids, w, p, Crashed);
    case StartAcquire(p, now) => StartAcquireStep(ids, w, p, now);
    case StartReclaim(p) => StartStep(ids, w, p, Waiting, Reclaim(w.phases[p].inode, w.phases[p].seen, ToRename));
    case StartRelease(p) =>
      if w.lock.Some? { StartStep(ids, w, p, Waiting, Release(w.lock.value, w.phases[p].owner, ToRename)); }
      else { PhaseChanges(ids, w, p, Resting); }
    case StartCleanup(p) => StartStep(ids, w, p, Waiting, Cleanup(w.tasks[p].end.cleanup.value, false));
    case Step(p, dead, ok) => HelperKeeps(ids, w, p, dead, ok);
    case StartLook(p) => if w.lock.Some? { PhaseChanges(ids, w, p, LookedAt(w.lock.value)); }
    case ReadSeen(p) => PhaseChanges(ids, w, p, Happen(ids, w, e).phases[p]);
    case CheckOwner(p) => PhaseChanges(ids, w, p, Happen(ids, w, e).phases[p]);
    case Return(p) => PhaseChanges(ids, w, p, Happen(ids, w, e).phases[p]);
  }

  lemma HistoryConsistent(ids: Identities, history: seq<World>, k: nat)
    requires IsHistory(ids, history) && k < |history|
    ensures Consistent(ids, history[k])
  {
    if k > 0 {
      HistoryConsistent(ids, history, k - 1);
      assert Follows(ids, history[k - 1], history[k - 1 + 1]);
      var e :| Possible(ids, history[k - 1], e) && history[k] == Happen(ids, history[k - 1], e);
      StepConsistent(ids, history[k - 1], e);
    }
  }

  /**
   * Whatever the interleaving and wherever processes and helpers crash, every deletion made by a reclaim, a release or a
   * restore so far is justified.
   */
  lemma DeletionsAreJustified(ids: Identities, history: seq<World>)
    requires IsHistory(ids, history)
    ensures forall k :: 0 <= k < |history| ==> OnlyJustifiedDeletions(ids, history[k])
  {
    forall k | 0 <= k < |history| ensures OnlyJustifiedDeletions(ids, history[k]) {
      HistoryConsistent(ids, history, k);
    }
  }
}
