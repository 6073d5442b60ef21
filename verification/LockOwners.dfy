/** The owner record inside a lock directory, and the processes it can name. */
module LockOwners {
  /** A process instance; its pid may be used again once it is dead. */
  type Proc = nat

  datatype Owner = Owner(pid: int, startIdentity: string, token: nat, createdAt: int)

  datatype Identities = Identities(pidOf: Proc -> int, startOf: Proc -> string)

  function OwnerFor(ids: Identities, p: Proc, token: nat, createdAt: int): Owner {
    Owner(ids.pidOf(p), ids.startOf(p), token, createdAt)
  }

  /** The comparison made before adoption and release. */
  predicate SameOwner(a: Owner, b: Owner) {
    a.pid == b.pid && a.startIdentity == b.startIdentity && a.token == b.token
  }

  /** The comparison looks at everything but when the record was made. */
  lemma SameOwnerIff(a: Owner, b: Owner)
    ensures SameOwner(a, b) <==> b == a.(createdAt := b.createdAt)
  {
  }

  /** A probe reports death only when no live process has the pid. */
  predicate NoneAlive(ids: Identities, alive: set<Proc>, pid: int) {
    forall p :: p in alive ==> ids.pidOf(p) != pid
  }

  /** An owner record p may carry: its own pid, and a token drawn for it. */
  predicate Own(ids: Identities, issued: map<nat, Proc>, p: Proc, owner: Owner) {
    owner.pid == ids.pidOf(p) && owner.token in issued && issued[owner.token] == p
  }

  /** p's acquire helper made the directory. */
  predicate MadeBy(makers: map<nat, Proc>, p: Proc, inode: nat) {
    inode in makers && makers[inode] == p
  }
}
