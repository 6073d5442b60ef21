/**
 * The owner-fenced directory lock, with the rename-check-restore-or-remove of each helper taken as one step.
 * Processes and helpers may crash anywhere else, and every helper goes on when its parent dies; heartbeats are off.
 */
module DirectoryLock {
  import opened LockOwners
  import opened Wrappers

  /** The lock directory; it has an owner once owner.json is linked into it. */
  datatype Dir = Dir(inode: nat, owner: Option<Owner>)

  /** What a process is doing about the lock. */
  datatype Stage =
    | Idle
    | Acquiring(owner: Owner)
    | CleaningUp(inode: nat)
    | Holding(owner: Owner)
    | SawDir(inode: nat)
    | SawOwner(inode: nat, seen: Owner)
    | SawDead(inode: nat, seen: Owner)
    | Releasing(owner: Owner)
    | ReleaseReady(owner: Owner, inode: nat)

  /** The lock-acquire helper of a process; it goes on when its parent dies. */
  datatype Helper =
    | Ready(owner: Owner)
    | Exists
    | MadeDir(owner: Owner, inode: nat)
    | Published(owner: Owner, inode: nat)
    | Succeeded(owner: Owner, inode: nat)
    | Failed(inode: nat)
    | Crashed

  /** The history variables record which process's helper made each directory, and for whom each token was drawn. */
  datatype State = State(
    lock: Option<Dir>,
    stages: map<Proc, Stage>,
    helpers: map<Proc, Helper>,
    alive: set<Proc>,
    nextInode: nat,
    nextToken: nat,
    makers: map<nat, Proc>,
    issued: map<nat, Proc>)

  datatype Action =
    | Spawn(p: Proc)
    | Die(p: Proc)
    | StartAcquire(p: Proc, now: int)
    | HelperMkdir(p: Proc)
    | HelperPublish(p: Proc)
    | HelperSucceed(p: Proc)
    | HelperFail(p: Proc)
    | HelperCrash(p: Proc)
    | Resume(p: Proc)
    | CleanUp(p: Proc, removed: bool)
    | StatLock(p: Proc)
    | ReadOwner(p: Proc)
    | Probe(p: Proc, dead: bool)
    | Reclaim(p: Proc, dead: bool)
    | StartRelease(p: Proc)
    | StatRelease(p: Proc)
    | Release(p: Proc, removed: bool)

  predicate AtStage(s: State, p: Proc) {
    p in s.alive && p in s.stages
  }

  /** A cleanup, reclaim or release helper runs on from the last stage of its parent, dead or alive. */
  predicate Enabled(ids: Identities, s: State, a: Action) {
    match a
    case Spawn(p) => p !in s.stages && NoneAlive(ids, s.alive, ids.pidOf(p))
    case Die(p) => p in s.alive
    case StartAcquire(p, _) => AtStage(s, p) && s.stages[p] == Idle
    case HelperMkdir(p) => p in s.helpers && s.helpers[p].Ready?
    case HelperPublish(p) => p in s.helpers && s.helpers[p].MadeDir?
    case HelperSucceed(p) => p in s.helpers && s.helpers[p].Published?
    case HelperFail(p) => p in s.helpers && (s.helpers[p].MadeDir? || s.helpers[p].Published?)
    case HelperCrash(p) =>
      p in s.helpers && (s.helpers[p].Ready? || s.helpers[p].MadeDir? || s.helpers[p].Published?)
    case Resume(p) =>
      && AtStage(s, p) && s.stages[p].Acquiring? && p in s.helpers
      && (s.helpers[p].Exists? || s.helpers[p].Succeeded? || s.helpers[p].Failed? || s.helpers[p].Crashed?)
    case CleanUp(p, _) => p in s.stages && s.stages[p].CleaningUp?
    case StatLock(p) => AtStage(s, p) && s.stages[p] == Idle
    case ReadOwner(p) => AtStage(s, p) && s.stages[p].SawDir?
    case Probe(p, dead) =>
      AtStage(s, p) && s.stages[p].SawOwner? && (dead ==> NoneAlive(ids, s.alive, s.stages[p].seen.pid))
    case Reclaim(p, dead) =>
      p in s.stages && s.stages[p].SawDead? && (dead ==> NoneAlive(ids, s.alive, s.stages[p].seen.pid))
    case StartRelease(p) => AtStage(s, p) && s.stages[p].Holding?
    case StatRelease(p) => AtStage(s, p) && s.stages[p].Releasing?
    case Release(p, _) => p in s.stages && s.stages[p].ReleaseReady?
  }

  /** The owner readLockOwner finds under the lock name, if any. */
  function OwnerAt(lock: Option<Dir>): Option<Owner> {
    if lock.Some? then lock.value.owner else None
  }

  function At(s: State, p: Proc, stage: Stage): State {
    s.(stages := s.stages[p := stage])
  }

  function WithHelper(s: State, p: Proc, helper: Helper): State {
    s.(helpers := s.helpers[p := helper])
  }

  function Apply(ids: Identities, s: State, a: Action): State
    requires Enabled(ids, s, a)
  {
    match a
    case Spawn(p) => s.(stages := s.stages[p := Idle], alive := s.alive + {p})
    case Die(p) => s.(alive := s.alive - {p})
    case StartAcquire(p, now) =>
      var owner := OwnerFor(ids, p, s.nextToken, now);
      WithHelper(At(s, p, Acquiring(owner)), p, Ready(owner))
      .(nextToken := s.nextToken + 1, issued := s.issued[s.nextToken := p])
    case HelperMkdir(p) =>
      if s.lock.Some? then WithHelper(s, p, Exists)
      else
        WithHelper(s, p, MadeDir(s.helpers[p].owner, s.nextInode))
        .(lock := Some(Dir(s.nextInode, None)), nextInode := s.nextInode + 1, makers := s.makers[s.nextInode := p])
    case HelperPublish(p) =>
      var h := s.helpers[p];
      if s.lock == Some(Dir(h.inode, None)) then
        WithHelper(s, p, Published(h.owner, h.inode)).(lock := Some(Dir(h.inode, Some(h.owner))))
      else WithHelper(s, p, Failed(h.inode))
    case HelperSucceed(p) => WithHelper(s, p, Succeeded(s.helpers[p].owner, s.helpers[p].inode))
    case HelperFail(p) => WithHelper(s, p, Failed(s.helpers[p].inode))
    case HelperCrash(p) => WithHelper(s, p, Crashed)
    case Resume(p) =>
      var owner := s.stages[p].owner;
      match s.helpers[p] {
        case Succeeded(_, _) => At(s, p, Holding(owner))
        case Failed(inode) => At(s, p, CleaningUp(inode))
        case Crashed =>
          // The helper may have died after publishing: adopt exactly our own owner record.
          if OwnerAt(s.lock).Some? && SameOwner(OwnerAt(s.lock).value, owner) then At(s, p, Holding(owner)) else At(s, p, Idle)
        case _ => At(s, p, Idle)
      }
    case CleanUp(p, removed) =>
      var t := At(s, p, Idle);
      if removed && s.lock.Some? && s.lock.value.inode == s.stages[p].inode then t.(lock := None) else t
    case StatLock(p) => if s.lock.Some? then At(s, p, SawDir(s.lock.value.inode)) else s
    case ReadOwner(p) =>
      if OwnerAt(s.lock).Some? then At(s, p, SawOwner(s.stages[p].inode, OwnerAt(s.lock).value)) else At(s, p, Idle)
    case Probe(p, dead) =>
      if dead then At(s, p, SawDead(s.stages[p].inode, s.stages[p].seen)) else At(s, p, Idle)
    case Reclaim(p, dead) =>
      var t := At(s, p, Idle);
      if s.lock == Some(Dir(s.stages[p].inode, Some(s.stages[p].seen))) && dead then t.(lock := None) else t
    case StartRelease(p) =>
      var owner := s.stages[p].owner;
      if OwnerAt(s.lock).Some? && SameOwner(OwnerAt(s.lock).value, owner) then At(s, p, Releasing(owner)) else At(s, p, Idle)
    case StatRelease(p) =>
      if s.lock.Some? then At(s, p, ReleaseReady(s.stages[p].owner, s.lock.value.inode)) else At(s, p, Idle)
    case Release(p, removed) =>
      // a removal that fails is undone by the rename back
      var t := At(s, p, Idle);
      if removed && s.lock.Some? && s.lock.value.inode == s.stages[p].inode
        && s.lock.value.owner.Some? && SameOwner(s.lock.value.owner.value, s.stages[p].owner)
      then t.(lock := None) else t
  }

  /** Nobody runs yet; the lock may be a leftover of earlier processes. */
  ghost predicate Init(s: State) {
    && s.stages == map[] && s.helpers == map[] && s.alive == {} && s.makers == map[] && s.issued == map[]
    && (s.lock.Some? ==> s.lock.value.inode < s.nextInode)
  }

  ghost predicate Next(ids: Identities, s: State, t: State) {
    exists a :: Enabled(ids, s, a) && t == Apply(ids, s, a)
  }

  ghost predicate IsRun(ids: Identities, run: seq<State>) {
    && run != [] && Init(run[0])
    && forall k :: 0 <= k < |run| - 1 ==> Next(ids, run[k], run[k + 1])
  }

  // ---- Mutual exclusion ----

  /** Between acquire and the end of release. */
  predicate InSection(s: State, p: Proc) {
    AtStage(s, p) && (s.stages[p].Holding? || s.stages[p].Releasing? || s.stages[p].ReleaseReady?)
  }

  ghost predicate MutualExclusion(s: State) {
    forall p, q :: InSection(s, p) && InSection(s, q) ==> p == q
  }

  /** The lock directory is there and its record is this owner's. */
  predicate LockHeld(lock: Option<Dir>, owner: Owner) {
    OwnerAt(lock).Some? && SameOwner(OwnerAt(lock).value, owner)
  }

  /** Everything p names is its own, and while p is alive what it holds stays under the lock name. */
  predicate StageFits(
    ids: Identities, issued: map<nat, Proc>, makers: map<nat, Proc>, lock: Option<Dir>, live: bool, p: Proc, stage: Stage)
  {
    match stage
    case Acquiring(owner) => Own(ids, issued, p, owner)
    case CleaningUp(inode) => MadeBy(makers, p, inode)
    case Holding(owner) => Own(ids, issued, p, owner) && (live ==> LockHeld(lock, owner))
    case Releasing(owner) => Own(ids, issued, p, owner) && (live ==> LockHeld(lock, owner))
    case ReleaseReady(owner, inode) =>
      Own(ids, issued, p, owner) && (live ==> LockHeld(lock, owner) && lock.Some? && lock.value.inode == inode)
    case _ => true
  }

  predicate HelperFits(ids: Identities, issued: map<nat, Proc>, makers: map<nat, Proc>, p: Proc, helper: Helper) {
    match helper
    case Ready(owner) => Own(ids, issued, p, owner)
    case MadeDir(owner, inode) => Own(ids, issued, p, owner) && MadeBy(makers, p, inode)
    case Published(owner, inode) => Own(ids, issued, p, owner) && MadeBy(makers, p, inode)
    case Succeeded(owner, inode) => Own(ids, issued, p, owner) && MadeBy(makers, p, inode)
    case Failed(inode) => MadeBy(makers, p, inode)
    case _ => true
  }

  /** The helper works for the acquire its parent waits for; while the parent lives, what it published stays. */
  predicate Serves(lock: Option<Dir>, owner: Owner, helper: Helper) {
    && (helper.Ready? || helper.MadeDir? || helper.Published? || helper.Succeeded? ==> helper.owner == owner)
    && (helper.Published? || helper.Succeeded? ==> LockHeld(lock, owner))
  }

  ghost predicate StagesFit(
    ids: Identities, issued: map<nat, Proc>, makers: map<nat, Proc>, lock: Option<Dir>, alive: set<Proc>,
    stages: map<Proc, Stage>)
  {
    forall p :: p in stages ==> StageFits(ids, issued, makers, lock, p in alive, p, stages[p])
  }

  ghost predicate HelpersFit(
    ids: Identities, issued: map<nat, Proc>, makers: map<nat, Proc>, helpers: map<Proc, Helper>)
  {
    forall p :: p in helpers ==> HelperFits(ids, issued, makers, p, helpers[p])
  }

  ghost predicate HelpersServe(
    lock: Option<Dir>, alive: set<Proc>, stages: map<Proc, Stage>, helpers: map<Proc, Helper>)
  {
    forall p :: p in alive && p in stages && stages[p].Acquiring? ==>
      p in helpers && Serves(lock, stages[p].owner, helpers[p])
  }

  /** A lock made in this run carries no record but its maker's. */
  ghost predicate MakerRecorded(ids: Identities, issued: map<nat, Proc>, makers: map<nat, Proc>, lock: Option<Dir>) {
    lock.Some? && lock.value.owner.Some? && lock.value.inode in makers ==>
      Own(ids, issued, makers[lock.value.inode], lock.value.owner.value)
  }

  ghost predicate CountersAhead(s: State) {
    && (s.lock.Some? ==> s.lock.value.inode < s.nextInode)
    && (forall inode :: inode in s.makers ==> inode < s.nextInode)
    && (forall token :: token in s.issued ==> token < s.nextToken)
  }

  ghost predicate Invariant(ids: Identities, s: State) {
    && s.alive + s.helpers.Keys <= s.stages.Keys
    && CountersAhead(s)
    && MakerRecorded(ids, s.issued, s.makers, s.lock)
    && StagesFit(ids, s.issued, s.makers, s.lock, s.alive, s.stages)
    && HelpersFit(ids, s.issued, s.makers, s.helpers)
    && HelpersServe(s.lock, s.alive, s.stages, s.helpers)
  }

  lemma InvariantExcludes(ids: Identities, s: State)
    requires Invariant(ids, s)
    ensures MutualExclusion(s)
  {
    hide HelpersFit, HelpersServe, MakerRecorded, CountersAhead;
    forall p, q | InSection(s, p) && InSection(s, q) ensures p == q {
      Stands(ids, s, p);
      Stands(ids, s, q);
    }
  }

  lemma Stands(ids: Identities, s: State, p: Proc)
    requires Invariant(ids, s) && p in s.stages
    ensures StageFits(ids, s.issued, s.makers, s.lock, p in s.alive, p, s.stages[p])
  {
    hide HelpersFit, HelpersServe, MakerRecorded, CountersAhead, StageFits;
  }

  lemma Helps(ids: Identities, s: State, p: Proc)
    requires Invariant(ids, s) && p in s.helpers
    ensures HelperFits(ids, s.issued, s.makers, p, s.helpers[p])
    ensures AtStage(s, p) && s.stages[p].Acquiring? ==> Serves(s.lock, s.stages[p].owner, s.helpers[p])
  {
    hide HelperFits, StagesFit, MakerRecorded, CountersAhead, StageFits, Serves;
  }

  // ---- The invariant, step by step ----

  /** A process moves to a stage that claims nothing more than its new facts. */
  lemma Moves(ids: Identities, s: State, p: Proc, stage: Stage)
    requires Invariant(ids, s) && p in s.stages && !stage.Acquiring?
    requires StageFits(ids, s.issued, s.makers, s.lock, p in s.alive, p, stage)
    ensures Invariant(ids, At(s, p, stage))
  {
    hide StageFits, HelpersFit, MakerRecorded, Serves;
  }

  /** A helper goes on without touching the lock. */
  lemma HelperMoves(ids: Identities, s: State, p: Proc, helper: Helper)
    requires Invariant(ids, s) && p in s.helpers && HelperFits(ids, s.issued, s.makers, p, helper)
    requires AtStage(s, p) && s.stages[p].Acquiring? ==> Serves(s.lock, s.stages[p].owner, helper)
    ensures Invariant(ids, WithHelper(s, p, helper))
  {
    hide HelperFits, StagesFit, MakerRecorded, Serves;
  }

  /** What live processes hold under the lock name before, they hold after. */
  ghost predicate StillHeld(ids: Identities, s: State, lock: Option<Dir>) {
    forall p, owner :: p in s.alive && Own(ids, s.issued, p, owner) && LockHeld(s.lock, owner) ==>
      LockHeld(lock, owner) && lock.Some? && lock.value.inode == s.lock.value.inode
  }

  lemma StagesKept(ids: Identities, s: State, lock: Option<Dir>)
    requires StagesFit(ids, s.issued, s.makers, s.lock, s.alive, s.stages) && StillHeld(ids, s, lock)
    ensures StagesFit(ids, s.issued, s.makers, lock, s.alive, s.stages)
  {
    hide Own, LockHeld, MadeBy;
    forall p | p in s.stages ensures StageFits(ids, s.issued, s.makers, lock, p in s.alive, p, s.stages[p]) {
      assert StageFits(ids, s.issued, s.makers, s.lock, p in s.alive, p, s.stages[p]);
    }
  }

  lemma ServiceKept(ids: Identities, s: State, lock: Option<Dir>)
    requires HelpersServe(s.lock, s.alive, s.stages, s.helpers) && HelpersFit(ids, s.issued, s.makers, s.helpers)
    requires StillHeld(ids, s, lock)
    ensures HelpersServe(lock, s.alive, s.stages, s.helpers)
  {
    hide Own, LockHeld, MadeBy;
    forall p | AtStage(s, p) && s.stages[p].Acquiring? ensures Serves(lock, s.stages[p].owner, s.helpers[p]) {
      assert Serves(s.lock, s.stages[p].owner, s.helpers[p]);
      assert HelperFits(ids, s.issued, s.makers, p, s.helpers[p]);
    }
  }

  /** A lock goes that is p's own, while p holds nothing any more, or that names nobody alive. */
  lemma LockRemoved(ids: Identities, s: State, p: Proc)
    requires Invariant(ids, s) && p in s.stages && s.stages[p] == Idle
    requires OwnerAt(s.lock).Some? ==>
      || Own(ids, s.issued, p, OwnerAt(s.lock).value)
      || NoneAlive(ids, s.alive, OwnerAt(s.lock).value.pid)
    ensures Invariant(ids, s.(lock := None))
  {
    hide Invariant, StagesFit, HelpersFit, HelpersServe, MakerRecorded, CountersAhead;
    forall q, owner | q in s.alive && q != p && Own(ids, s.issued, q, owner) ensures !LockHeld(s.lock, owner) {
    }
    OthersStand(ids, s, p);
  }

  lemma OthersStand(ids: Identities, s: State, p: Proc)
    requires Invariant(ids, s) && p in s.stages && s.stages[p] == Idle
    requires forall q, owner :: q in s.alive && q != p && Own(ids, s.issued, q, owner) ==> !LockHeld(s.lock, owner)
    ensures Invariant(ids, s.(lock := None))
  {
    hide Own, LockHeld, MadeBy;
    forall q | q in s.stages ensures StageFits(ids, s.issued, s.makers, None, q in s.alive, q, s.stages[q]) {
      assert StageFits(ids, s.issued, s.makers, s.lock, q in s.alive, q, s.stages[q]);
    }
    forall q | AtStage(s, q) && s.stages[q].Acquiring? ensures q in s.helpers && Serves(None, s.stages[q].owner, s.helpers[q]) {
      assert Serves(s.lock, s.stages[q].owner, s.helpers[q]);
      assert HelperFits(ids, s.issued, s.makers, q, s.helpers[q]);
    }
  }

  lemma IdleClaimsNothing(ids: Identities, s: State, p: Proc, stage: Stage)
    requires stage.Idle? || stage.SawDir? || stage.SawOwner? || stage.SawDead?
    ensures StageFits(ids, s.issued, s.makers, s.lock, p in s.alive, p, stage)
  {
  }

  /** A cleanup removes nothing but a directory its own process made, which holds no record but its own. */
  lemma CleanUpStep(ids: Identities, s: State, p: Proc, removed: bool)
    requires Invariant(ids, s) && Enabled(ids, s, CleanUp(p, removed))
    ensures Invariant(ids, Apply(ids, s, CleanUp(p, removed)))
    ensures var t := Apply(ids, s, CleanUp(p, removed));
      || t.lock == s.lock
      || (&& t.lock.None? && MadeBy(s.makers, p, s.lock.value.inode)
          && (s.lock.value.owner.Some? ==> Own(ids, s.issued, p, s.lock.value.owner.value)))
  {
    Stands(ids, s, p);
    hide StagesFit, HelpersFit, HelpersServe, CountersAhead, Own;
    IdleClaimsNothing(ids, s, p, Idle);
    Moves(ids, s, p, Idle);
    if removed && s.lock.Some? && s.lock.value.inode == s.stages[p].inode {
      LockRemoved(ids, At(s, p, Idle), p);
    }
  }

  /** A reclaim removes nothing but a lock whose recorded process nobody alive is. */
  lemma ReclaimStep(ids: Identities, s: State, p: Proc, dead: bool)
    requires Invariant(ids, s) && Enabled(ids, s, Reclaim(p, dead))
    ensures Invariant(ids, Apply(ids, s, Reclaim(p, dead)))
    ensures var t := Apply(ids, s, Reclaim(p, dead));
      || t.lock == s.lock
      || (t.lock.None? && OwnerAt(s.lock).Some? && NoneAlive(ids, s.alive, OwnerAt(s.lock).value.pid))
  {
    hide Invariant, StageFits, NoneAlive;
    IdleClaimsNothing(ids, s, p, Idle);
    Moves(ids, s, p, Idle);
    if s.lock == Some(Dir(s.stages[p].inode, Some(s.stages[p].seen))) && dead {
      LockRemoved(ids, At(s, p, Idle), p);
    }
  }

  /** The record under the lock name carries the token of an owner record of p. */
  lemma SameToken(ids: Identities, issued: map<nat, Proc>, p: Proc, owner: Owner, found: Owner)
    requires Own(ids, issued, p, owner) && SameOwner(found, owner)
    ensures Own(ids, issued, p, found)
  {
  }

  /** A release removes nothing but its process's own lock, and does so when the process lives and the removal works. */
  lemma ReleaseStep(ids: Identities, s: State, p: Proc, removed: bool)
    requires Invariant(ids, s) && Enabled(ids, s, Release(p, removed))
    ensures Invariant(ids, Apply(ids, s, Release(p, removed)))
    ensures var t := Apply(ids, s, Release(p, removed));
      && (t.lock == s.lock
          || (t.lock.None? && OwnerAt(s.lock).Some? && Own(ids, s.issued, p, OwnerAt(s.lock).value)))
      && (p in s.alive ==> if removed then t.lock.None? else t.lock == s.lock && LockHeld(t.lock, s.stages[p].owner))
  {
    Stands(ids, s, p);
    hide Invariant, Own, SameOwner;
    IdleClaimsNothing(ids, s, p, Idle);
    Moves(ids, s, p, Idle);
    if Apply(ids, s, Release(p, removed)).lock != s.lock {
      SameToken(ids, s.issued, p, s.stages[p].owner, s.lock.value.owner.value);
      LockRemoved(ids, At(s, p, Idle), p);
    }
  }

  lemma SpawnStep(ids: Identities, s: State, p: Proc)
    requires Invariant(ids, s) && Enabled(ids, s, Spawn(p))
    ensures Invariant(ids, Apply(ids, s, Spawn(p)))
  {
    IdleClaimsNothing(ids, Apply(ids, s, Spawn(p)), p, Idle);
    hide StageFits, HelpersFit, MakerRecorded, Serves, NoneAlive;
  }

  lemma DieStep(ids: Identities, s: State, p: Proc)
    requires Invariant(ids, s) && Enabled(ids, s, Die(p))
    ensures Invariant(ids, Apply(ids, s, Die(p)))
  {
    hide HelpersFit, MakerRecorded, Serves, LockHeld, Own, MadeBy;
    var alive := s.alive - {p};
    forall q | q in s.stages ensures StageFits(ids, s.issued, s.makers, s.lock, q in alive, q, s.stages[q]) {
      assert StageFits(ids, s.issued, s.makers, s.lock, q in s.alive, q, s.stages[q]);
    }
  }

  /** Drawing a token takes none away. */
  lemma IssuedGrows(ids: Identities, s: State, p: Proc)
    requires Invariant(ids, s)
    ensures var issued := s.issued[s.nextToken := p];
      && MakerRecorded(ids, issued, s.makers, s.lock) && HelpersFit(ids, issued, s.makers, s.helpers)
      && StagesFit(ids, issued, s.makers, s.lock, s.alive, s.stages)
      && forall token :: token in issued ==> token < s.nextToken + 1
  {
    var issued := s.issued[s.nextToken := p];
    forall q, o | Own(ids, s.issued, q, o) ensures Own(ids, issued, q, o) {}
    hide Own, MadeBy, LockHeld, HelpersServe;
    forall q | q in s.stages ensures StageFits(ids, issued, s.makers, s.lock, q in s.alive, q, s.stages[q]) {
      assert StageFits(ids, s.issued, s.makers, s.lock, q in s.alive, q, s.stages[q]);
    }
    forall q | q in s.helpers ensures HelperFits(ids, issued, s.makers, q, s.helpers[q]) {
      assert HelperFits(ids, s.issued, s.makers, q, s.helpers[q]);
    }
  }

  lemma StartAcquireStep(ids: Identities, s: State, p: Proc, now: int)
    requires Invariant(ids, s) && Enabled(ids, s, StartAcquire(p, now))
    ensures Invariant(ids, Apply(ids, s, StartAcquire(p, now)))
  {
    var owner, issued := OwnerFor(ids, p, s.nextToken, now), s.issued[s.nextToken := p];
    IssuedGrows(ids, s, p);
    assert StageFits(ids, issued, s.makers, s.lock, true, p, Acquiring(owner));
    assert HelperFits(ids, issued, s.makers, p, Ready(owner)) && Serves(s.lock, owner, Ready(owner));
    hide StageFits, HelperFits, Serves, MakerRecorded, OwnerFor;
  }

  lemma LockMade(ids: Identities, s: State, p: Proc)
    requires Invariant(ids, s) && p in s.helpers && s.helpers[p].Ready? && s.lock.None?
    ensures Invariant(ids, Apply(ids, s, HelperMkdir(p)))
  {
    Helps(ids, s, p);
    var made, makers, lock := MadeDir(s.helpers[p].owner, s.nextInode), s.makers[s.nextInode := p], Some(Dir(s.nextInode, None));
    assert StillHeld(ids, s, lock);
    StagesKept(ids, s, lock);
    ServiceKept(ids, s, lock);
    forall q, inode | MadeBy(s.makers, q, inode) ensures MadeBy(makers, q, inode) {}
    assert MadeBy(makers, p, s.nextInode);
    hide Own, MadeBy, LockHeld, StillHeld;
    forall q | q in s.stages ensures StageFits(ids, s.issued, makers, lock, q in s.alive, q, s.stages[q]) {
      assert StageFits(ids, s.issued, s.makers, lock, q in s.alive, q, s.stages[q]);
    }
    var helpers := s.helpers[p := made];
    forall q | q in helpers ensures HelperFits(ids, s.issued, makers, q, helpers[q]) {
      assert HelperFits(ids, s.issued, s.makers, q, s.helpers[q]);
    }
  }

  lemma MkdirStep(ids: Identities, s: State, p: Proc)
    requires Invariant(ids, s) && Enabled(ids, s, HelperMkdir(p))
    ensures Invariant(ids, Apply(ids, s, HelperMkdir(p)))
  {
    if s.lock.Some? {
      hide Invariant;
      HelperMoves(ids, s, p, Exists);
    } else {
      LockMade(ids, s, p);
    }
  }

  /** The maker of an unpublished lock publishes its owner record in it; nobody else had anything there. */
  lemma OwnerLinked(ids: Identities, s: State, p: Proc)
    requires Invariant(ids, s) && p in s.helpers && s.helpers[p].MadeDir?
    requires s.lock == Some(Dir(s.helpers[p].inode, None))
    ensures Invariant(ids, Apply(ids, s, HelperPublish(p)))
  {
    Helps(ids, s, p);
    var owner, inode := s.helpers[p].owner, s.helpers[p].inode;
    var lock := Some(Dir(inode, Some(owner)));
    assert StillHeld(ids, s, lock);
    StagesKept(ids, s, lock);
    ServiceKept(ids, s, lock);
    assert MakerRecorded(ids, s.issued, s.makers, lock);
    var t := s.(lock := lock);
    hide StagesFit, HelpersFit, HelpersServe, MakerRecorded, Own, MadeBy;
    HelperMoves(ids, t, p, Published(owner, inode));
  }

  lemma PublishStep(ids: Identities, s: State, p: Proc)
    requires Invariant(ids, s) && Enabled(ids, s, HelperPublish(p))
    ensures Invariant(ids, Apply(ids, s, HelperPublish(p)))
  {
    Helps(ids, s, p);
    hide Invariant;
    if s.lock == Some(Dir(s.helpers[p].inode, None)) {
      OwnerLinked(ids, s, p);
    } else {
      HelperMoves(ids, s, p, Failed(s.helpers[p].inode));
    }
  }

  lemma ResumeStep(ids: Identities, s: State, p: Proc)
    requires Invariant(ids, s) && Enabled(ids, s, Resume(p))
    ensures Invariant(ids, Apply(ids, s, Resume(p)))
  {
    Stands(ids, s, p);
    Helps(ids, s, p);
    hide Invariant, Own, MadeBy;
    Moves(ids, s, p, Apply(ids, s, Resume(p)).stages[p]);
  }

  /** A process that waits for the lock looks, reads, probes. */
  lemma LookStep(ids: Identities, s: State, a: Action)
    requires Invariant(ids, s) && Enabled(ids, s, a) && (a.StatLock? || a.ReadOwner? || a.Probe?)
    ensures Invariant(ids, Apply(ids, s, a))
  {
    hide Invariant, StageFits, NoneAlive;
    var t := Apply(ids, s, a);
    if a.StatLock? && s.lock.None? {
      assert t == s;
    } else {
      IdleClaimsNothing(ids, s, a.p, t.stages[a.p]);
      Moves(ids, s, a.p, t.stages[a.p]);
    }
  }

  lemma StartReleaseStep(ids: Identities, s: State, p: Proc)
    requires Invariant(ids, s) && Enabled(ids, s, StartRelease(p))
    ensures Invariant(ids, Apply(ids, s, StartRelease(p))) && InSection(Apply(ids, s, StartRelease(p)), p)
  {
    Stands(ids, s, p);
    hide Invariant, Own, MadeBy;
    Moves(ids, s, p, Releasing(s.stages[p].owner));
  }

  lemma StatReleaseStep(ids: Identities, s: State, p: Proc)
    requires Invariant(ids, s) && Enabled(ids, s, StatRelease(p))
    ensures Invariant(ids, Apply(ids, s, StatRelease(p))) && InSection(Apply(ids, s, StatRelease(p)), p)
  {
    Stands(ids, s, p);
    hide Invariant, Own, MadeBy;
    Moves(ids, s, p, ReleaseReady(s.stages[p].owner, s.lock.value.inode));
  }

  lemma StepInvariant(ids: Identities, s: State, a: Action)
    requires Invariant(ids, s) && Enabled(ids, s, a)
    ensures Invariant(ids, Apply(ids, s, a))
  {
    hide Invariant;
    match a
    case Spawn(p) => SpawnStep(ids, s, p);
    case Die(p) => DieStep(ids, s, p);
    case StartAcquire(p, now) => StartAcquireStep(ids, s, p, now);
    case HelperMkdir(p) => MkdirStep(ids, s, p);
    case HelperPublish(p) => PublishStep(ids, s, p);
    case HelperSucceed(p) => SucceedStep(ids, s, p);
    case HelperFail(p) => FailStep(ids, s, p);
    case HelperCrash(p) => HelperMoves(ids, s, p, Crashed);
    case Resume(p) => ResumeStep(ids, s, p);
    case CleanUp(p, removed) => CleanUpStep(ids, s, p, removed);
    case Reclaim(p, dead) => ReclaimStep(ids, s, p, dead);
    case Release(p, removed) => ReleaseStep(ids, s, p, removed);
    case StartRelease(p) => StartReleaseStep(ids, s, p);
    case StatRelease(p) => StatReleaseStep(ids, s, p);
    case _ => LookStep(ids, s, a);
  }

  lemma SucceedStep(ids: Identities, s: State, p: Proc)
    requires Invariant(ids, s) && Enabled(ids, s, HelperSucceed(p))
    ensures Invariant(ids, Apply(ids, s, HelperSucceed(p)))
  {
    Helps(ids, s, p);
    hide Invariant;
    HelperMoves(ids, s, p, Succeeded(s.helpers[p].owner, s.helpers[p].inode));
  }

  lemma FailStep(ids: Identities, s: State, p: Proc)
    requires Invariant(ids, s) && Enabled(ids, s, HelperFail(p))
    ensures Invariant(ids, Apply(ids, s, HelperFail(p)))
  {
    Helps(ids, s, p);
    hide Invariant;
    HelperMoves(ids, s, p, Failed(s.helpers[p].inode));
  }

  // ---- Every run ----

  lemma {:induction false} RunInvariant(ids: Identities, run: seq<State>, k: nat)
    requires IsRun(ids, run) && k < |run|
    ensures Invariant(ids, run[k])
    decreases k
  {
    if k > 0 {
      RunInvariant(ids, run, k - 1);
      hide Invariant;
      assert Next(ids, run[k - 1], run[k]);
      var a :| Enabled(ids, run[k - 1], a) && run[k] == Apply(ids, run[k - 1], a);
      StepInvariant(ids, run[k - 1], a);
    }
  }

  /** Whatever crashes and whenever: never two live processes between acquire and release. */
  lemma RunsExclude(ids: Identities, run: seq<State>)
    requires IsRun(ids, run)
    ensures forall k :: 0 <= k < |run| ==> MutualExclusion(run[k])
  {
    hide IsRun, Invariant, MutualExclusion;
    forall k | 0 <= k < |run| ensures MutualExclusion(run[k]) {
      RunInvariant(ids, run, k);
      InvariantExcludes(ids, run[k]);
    }
  }

  /**
   * A live holder never finds its ownership lost: each step of its release succeeds, and the last one frees the lock,
   * or leaves it in place when only the removal fails.
   */
  lemma ReleaseNeverFails(ids: Identities, run: seq<State>, k: nat, a: Action)
    requires IsRun(ids, run) && k < |run| && Enabled(ids, run[k], a)
    ensures a.StartRelease? || a.StatRelease? ==> InSection(Apply(ids, run[k], a), a.p)
    ensures a.Release? && a.p in run[k].alive ==>
      if a.removed then Apply(ids, run[k], a).lock.None?
      else Apply(ids, run[k], a).lock == run[k].lock && LockHeld(run[k].lock, run[k].stages[a.p].owner)
  {
    hide IsRun, Invariant, Apply, InSection;
    RunInvariant(ids, run, k);
    match a
    case StartRelease(p) => StartReleaseStep(ids, run[k], p);
    case StatRelease(p) => StatReleaseStep(ids, run[k], p);
    case Release(p, removed) => ReleaseStep(ids, run[k], p, removed);
    case _ =>
  }

  // ---- Exactly when ----

  /** The record under the lock name is this one, whenever it was made. */
  ghost predicate Recorded(lock: Option<Dir>, owner: Owner) {
    exists at :: lock.Some? && lock.value.owner == Some(owner.(createdAt := at))
  }

  lemma RecordedIff(lock: Option<Dir>, owner: Owner)
    ensures LockHeld(lock, owner) <==> Recorded(lock, owner)
  {
    if OwnerAt(lock).Some? {
      var found := OwnerAt(lock).value;
      SameOwnerIff(found, owner);
      assert SameOwner(found, owner) ==> lock.value.owner == Some(owner.(createdAt := found.createdAt));
    }
  }

  /**
   * When the lock directory goes: a cleanup takes the directory its acquire made, a reclaim the one it judged with the
   * record it read, if the probe still says dead, a release the one it looked at, if the record is its own.
   */
  lemma RemovedIff(ids: Identities, s: State, a: Action)
    requires Enabled(ids, s, a) && s.lock.Some?
    ensures Apply(ids, s, a).lock.None? <==>
      || (a.CleanUp? && a.removed && s.stages[a.p] == CleaningUp(s.lock.value.inode))
      || (&& a.Reclaim? && a.dead && s.lock.value.owner.Some?
          && s.stages[a.p] == SawDead(s.lock.value.inode, s.lock.value.owner.value))
      || (&& a.Release? && a.removed && s.stages[a.p].inode == s.lock.value.inode
          && Recorded(s.lock, s.stages[a.p].owner))
  {
    if a.Release? { RecordedIff(s.lock, s.stages[a.p].owner); }
    hide NoneAlive, SameOwner, Recorded;
  }

  /** When an acquire gets the lock: its helper reports success, or died with the own record under the lock name. */
  lemma EntersIff(ids: Identities, s: State, p: Proc)
    requires Enabled(ids, s, Resume(p))
    ensures Apply(ids, s, Resume(p)).stages[p] == Holding(s.stages[p].owner) <==>
      s.helpers[p].Succeeded? || (s.helpers[p].Crashed? && Recorded(s.lock, s.stages[p].owner))
    ensures Apply(ids, s, Resume(p)).lock == s.lock
  {
    RecordedIff(s.lock, s.stages[p].owner);
    hide SameOwner, Recorded;
  }

  // ---- Undisturbed ----

  /** These actions can be taken one after the other, and lead to t. */
  ghost predicate Path(ids: Identities, s: State, actions: seq<Action>, t: State)
    decreases actions
  {
    if actions == [] then s == t
    else Enabled(ids, s, actions[0]) && Path(ids, Apply(ids, s, actions[0]), actions[1..], t)
  }

  lemma PathOn(ids: Identities, s: State, first: Action, rest: seq<Action>, t: State)
    requires Enabled(ids, s, first) && Path(ids, Apply(ids, s, first), rest, t)
    ensures Path(ids, s, [first] + rest, t)
  {
    hide Enabled, Apply;
    assert ([first] + rest)[1..] == rest;
  }

  /** Once its record is there, the helper succeeds and its parent enters. */
  lemma AcquireEnds(ids: Identities, s: State, p: Proc, owner: Owner, inode: nat) returns (s1: State, t: State)
    requires AtStage(s, p) && s.stages[p] == Acquiring(owner) && p in s.helpers && s.helpers[p] == Published(owner, inode)
    ensures Enabled(ids, s, HelperSucceed(p)) && s1 == Apply(ids, s, HelperSucceed(p))
    ensures Enabled(ids, s1, Resume(p)) && t == Apply(ids, s1, Resume(p))
    ensures t.stages == s.stages[p := Holding(owner)] && t.lock == s.lock && t.alive == s.alive
  {
    s1 := Apply(ids, s, HelperSucceed(p));
    t := Apply(ids, s1, Resume(p));
  }

  lemma AcquireParts(ids: Identities, s: State, p: Proc, now: int)
    returns (s1: State, s2: State, s3: State, s4: State, t: State)
    requires AtStage(s, p) && s.stages[p] == Idle && s.lock.None?
    ensures Enabled(ids, s, StartAcquire(p, now)) && s1 == Apply(ids, s, StartAcquire(p, now))
    ensures Enabled(ids, s1, HelperMkdir(p)) && s2 == Apply(ids, s1, HelperMkdir(p))
    ensures Enabled(ids, s2, HelperPublish(p)) && s3 == Apply(ids, s2, HelperPublish(p))
    ensures Enabled(ids, s3, HelperSucceed(p)) && s4 == Apply(ids, s3, HelperSucceed(p))
    ensures Enabled(ids, s4, Resume(p)) && t == Apply(ids, s4, Resume(p))
    ensures var owner := OwnerFor(ids, p, s.nextToken, now);
      t.stages == s.stages[p := Holding(owner)] && t.lock == Some(Dir(s.nextInode, Some(owner))) && t.alive == s.alive
  {
    var owner := OwnerFor(ids, p, s.nextToken, now);
    hide OwnerFor;
    s1 := Apply(ids, s, StartAcquire(p, now));
    s2 := Apply(ids, s1, HelperMkdir(p));
    s3 := Apply(ids, s2, HelperPublish(p));
    hide Apply, Enabled;
    s4, t := AcquireEnds(ids, s3, p, owner, s.nextInode);
    assert s.stages[p := Acquiring(owner)][p := Holding(owner)] == s.stages[p := Holding(owner)];
  }

  /** An acquire of a free lock that nothing disturbs ends in the section, with the lock directory and its record its own. */
  lemma AcquireUndisturbed(ids: Identities, s: State, p: Proc, now: int) returns (t: State)
    requires AtStage(s, p) && s.stages[p] == Idle && s.lock.None?
    ensures Path(ids, s, [StartAcquire(p, now), HelperMkdir(p), HelperPublish(p), HelperSucceed(p), Resume(p)], t)
    ensures var owner := OwnerFor(ids, p, s.nextToken, now);
      t.stages == s.stages[p := Holding(owner)] && t.lock == Some(Dir(s.nextInode, Some(owner))) && InSection(t, p)
  {
    var s1, s2, s3, s4, end := AcquireParts(ids, s, p, now);
    t := end;
    hide Path, Enabled, Apply, OwnerFor;
    PathEnds(ids, t);
    PathOn(ids, s4, Resume(p), [], t);
    PathOn(ids, s3, HelperSucceed(p), [Resume(p)], t);
    PathOn(ids, s2, HelperPublish(p), [HelperSucceed(p), Resume(p)], t);
    PathOn(ids, s1, HelperMkdir(p), [HelperPublish(p), HelperSucceed(p), Resume(p)], t);
    PathOn(ids, s, StartAcquire(p, now), [HelperMkdir(p), HelperPublish(p), HelperSucceed(p), Resume(p)], t);
    assert [StartAcquire(p, now)] + [HelperMkdir(p), HelperPublish(p), HelperSucceed(p), Resume(p)] ==
      [StartAcquire(p, now), HelperMkdir(p), HelperPublish(p), HelperSucceed(p), Resume(p)];
  }

  lemma PathEnds(ids: Identities, t: State)
    ensures Path(ids, t, [], t)
  {
  }

  lemma ReleaseParts(ids: Identities, s: State, p: Proc) returns (s1: State, s2: State, t: State)
    requires AtStage(s, p) && s.stages[p].Holding? && LockHeld(s.lock, s.stages[p].owner)
    ensures Enabled(ids, s, StartRelease(p)) && s1 == Apply(ids, s, StartRelease(p))
    ensures Enabled(ids, s1, StatRelease(p)) && s2 == Apply(ids, s1, StatRelease(p))
    ensures Enabled(ids, s2, Release(p, true)) && t == Apply(ids, s2, Release(p, true))
    ensures t.stages == s.stages[p := Idle] && t.lock.None?
  {
    hide SameOwner;
    s1 := Apply(ids, s, StartRelease(p));
    s2 := Apply(ids, s1, StatRelease(p));
    t := Apply(ids, s2, Release(p, true));
  }

  /** A release that nothing disturbs frees the lock. */
  lemma ReleaseUndisturbed(ids: Identities, s: State, p: Proc) returns (t: State)
    requires AtStage(s, p) && s.stages[p].Holding? && LockHeld(s.lock, s.stages[p].owner)
    ensures Path(ids, s, [StartRelease(p), StatRelease(p), Release(p, true)], t)
    ensures t.stages == s.stages[p := Idle] && t.lock.None?
  {
    var s1, s2, end := ReleaseParts(ids, s, p);
    t := end;
    hide Path, Enabled, Apply;
    PathEnds(ids, t);
    PathOn(ids, s2, Release(p, true), [], t);
    PathOn(ids, s1, StatRelease(p), [Release(p, true)], t);
    PathOn(ids, s, StartRelease(p), [StatRelease(p), Release(p, true)], t);
    assert [StartRelease(p)] + [StatRelease(p), Release(p, true)] == [StartRelease(p), StatRelease(p), Release(p, true)];
  }

  lemma ReclaimParts(ids: Identities, s: State, p: Proc) returns (s1: State, s2: State, s3: State, t: State)
    requires AtStage(s, p) && s.stages[p] == Idle
    requires OwnerAt(s.lock).Some? && NoneAlive(ids, s.alive, OwnerAt(s.lock).value.pid)
    ensures Enabled(ids, s, StatLock(p)) && s1 == Apply(ids, s, StatLock(p))
    ensures Enabled(ids, s1, ReadOwner(p)) && s2 == Apply(ids, s1, ReadOwner(p))
    ensures Enabled(ids, s2, Probe(p, true)) && s3 == Apply(ids, s2, Probe(p, true))
    ensures Enabled(ids, s3, Reclaim(p, true)) && t == Apply(ids, s3, Reclaim(p, true))
    ensures t.stages == s.stages && t.lock.None?
  {
    hide NoneAlive;
    s1 := Apply(ids, s, StatLock(p));
    s2 := Apply(ids, s1, ReadOwner(p));
    s3 := Apply(ids, s2, Probe(p, true));
    t := Apply(ids, s3, Reclaim(p, true));
  }

  /** A lock whose owner is dead is reclaimed by whoever looks undisturbed. */
  lemma ReclaimUndisturbed(ids: Identities, s: State, p: Proc) returns (t: State)
    requires AtStage(s, p) && s.stages[p] == Idle
    requires OwnerAt(s.lock).Some? && NoneAlive(ids, s.alive, OwnerAt(s.lock).value.pid)
    ensures Path(ids, s, [StatLock(p), ReadOwner(p), Probe(p, true), Reclaim(p, true)], t)
    ensures t.stages == s.stages && t.lock.None?
  {
    var s1, s2, s3, end := ReclaimParts(ids, s, p);
    t := end;
    hide Path, Enabled, Apply, NoneAlive;
    PathEnds(ids, t);
    PathOn(ids, s3, Reclaim(p, true), [], t);
    PathOn(ids, s2, Probe(p, true), [Reclaim(p, true)], t);
    PathOn(ids, s1, ReadOwner(p), [Probe(p, true), Reclaim(p, true)], t);
    PathOn(ids, s, StatLock(p), [ReadOwner(p), Probe(p, true), Reclaim(p, true)], t);
    assert [StatLock(p)] + [ReadOwner(p), Probe(p, true), Reclaim(p, true)] ==
      [StatLock(p), ReadOwner(p), Probe(p, true), Reclaim(p, true)];
  }
}
