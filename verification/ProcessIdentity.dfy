/** The liveness verdict on a recorded process, on which reclaiming a lock relies. */
module ProcessIdentity {
  import opened LockOwners
  import opened Wrappers

  /** What signal 0 says of a pid. */
  datatype Signal = Delivered | NoSuchProcess | NotPermitted | OtherError(code: string)

  datatype Existence = Alive | Gone | Unclear

  datatype Platform = Linux | Darwin | OtherPlatform(name: string)

  /** What the system lets one read about a pid: the start time in /proc, the boot id, the start that ps prints. */
  datatype Readings = Readings(platform: Platform, startTime: Option<string>, bootId: Option<string>, psStart: Option<string>)

  datatype Observation = Observation(value: string, proven: bool)

  datatype Liveness = Active | Dead | Stale | Ambiguous

  const MAX_SAFE_INTEGER := 9007199254740991

  function ProbeProcess(pid: int, signal: Signal): Existence {
    if pid <= 0 || pid > MAX_SAFE_INTEGER then Gone
    else
      match signal
      case Delivered => Alive
      case NoSuchProcess => Gone
      case NotPermitted => Alive
      case OtherError(_) => Unclear
  }

  /** The stable start identity of a pid; proven only when both the start and, on Linux, the boot are known. */
  function ObserveStartIdentity(pid: int, decimal: int -> string, r: Readings): Observation {
    if pid <= 0 || pid > MAX_SAFE_INTEGER then Observation("unavailable:" + decimal(pid), false)
    else
      match r.platform
      case Linux =>
        if r.startTime.None? then Observation("unavailable:" + decimal(pid), false)
        else if r.bootId.None? || r.bootId.value == "" then Observation("linux:unproven-boot:" + r.startTime.value, false)
        else Observation("linux:" + r.bootId.value + ":" + r.startTime.value, true)
      case Darwin =>
        if r.psStart.None? || r.psStart.value == "" then Observation("unavailable:" + decimal(pid), false)
        else Observation("darwin:" + r.psStart.value, true)
      case OtherPlatform(name) => Observation("unsupported:" + name + ":" + decimal(pid), false)
  }

  /** The verdict on a recorded process: its pid, the start identity recorded, and whether that was proven. */
  function ClassifyProcessLiveness(
    pid: int, recorded: Observation, signal: Signal, decimal: int -> string, r: Readings): Liveness
  {
    match ProbeProcess(pid, signal)
    case Gone => Dead
    case Unclear => Ambiguous
    case Alive =>
      var observed := ObserveStartIdentity(pid, decimal, r);
      if !recorded.proven || !observed.proven then Ambiguous
      else if recorded.value != observed.value then Stale
      else Active
  }

  /** The start identity that the readings prove: on Linux of boot and start time, on Darwin of the start that ps prints. */
  predicate Proves(r: Readings, value: string) {
    || (&& r.platform == Linux && r.startTime.Some? && r.bootId.Some? && r.bootId.value != ""
        && value == "linux:" + r.bootId.value + ":" + r.startTime.value)
    || (r.platform == Darwin && r.psStart.Some? && r.psStart.value != "" && value == "darwin:" + r.psStart.value)
  }

  /**
   * When each verdict is given: dead for a pid that cannot be or that the signal does not find; for one that it finds, active
   * or stale as the start proven now is the proven start recorded or not; ambiguous without both proofs or a clear signal.
   */
  lemma VerdictIff(pid: int, recorded: Observation, signal: Signal, decimal: int -> string, r: Readings)
    ensures var verdict := ClassifyProcessLiveness(pid, recorded, signal, decimal, r);
      var possible := 0 < pid <= 9007199254740991;
      var found := possible && (signal == Delivered || signal == NotPermitted);
      && (verdict == Dead <==> !possible || signal == NoSuchProcess)
      && (verdict == Active <==> found && recorded.proven && Proves(r, recorded.value))
      && (verdict == Stale <==> found && recorded.proven && exists now :: Proves(r, now) && now != recorded.value)
      && (verdict == Ambiguous <==>
            possible && (signal.OtherError? || (found && (!recorded.proven || forall now :: !Proves(r, now)))))
  {
    var observed := ObserveStartIdentity(pid, decimal, r);
    if 0 < pid <= 9007199254740991 {
      ObservedIff(pid, decimal, r);
    }
    hide ObserveStartIdentity, Proves;
  }

  lemma ObservedIff(pid: int, decimal: int -> string, r: Readings)
    requires 0 < pid <= 9007199254740991
    ensures var observed := ObserveStartIdentity(pid, decimal, r);
      forall value :: Proves(r, value) <==> observed.proven && observed.value == value
    ensures ObserveStartIdentity(pid, decimal, r).proven ==> Proves(r, ObserveStartIdentity(pid, decimal, r).value)
  {
  }

  /** A signal tells the truth about the processes there are. Pids are positive and safe integers. */
  ghost predicate Truthful(ids: Identities, alive: set<Proc>, pid: int, signal: Signal) {
    && (forall p :: p in alive ==> 0 < ids.pidOf(p) <= MAX_SAFE_INTEGER)
    && (signal.NoSuchProcess? ==> NoneAlive(ids, alive, pid))
    && (signal.Delivered? || signal.NotPermitted? ==> exists p :: p in alive && ids.pidOf(p) == pid)
  }

  /** What is observed of a pid is the start identity of the live process that has it. */
  ghost predicate ObservesStart(ids: Identities, alive: set<Proc>, pid: int, decimal: int -> string, r: Readings) {
    ObserveStartIdentity(pid, decimal, r).proven ==>
      forall p :: p in alive && ids.pidOf(p) == pid ==> ids.startOf(p) == ObserveStartIdentity(pid, decimal, r).value
  }

  /** Dead is said only of a pid that no live process has: the verdict that lets a lock be reclaimed. */
  lemma DeadMeansNoneAlive(
    ids: Identities, alive: set<Proc>, pid: int, recorded: Observation, signal: Signal, decimal: int -> string, r: Readings)
    requires Truthful(ids, alive, pid, signal)
    requires ClassifyProcessLiveness(pid, recorded, signal, decimal, r) == Dead
    ensures NoneAlive(ids, alive, pid)
  {
  }

  /**
   * A truthful system gets Active only for a pid whose live process has the recorded start identity, and Stale only when
   * the pid is in use again and no live process is the recorded one; without proof on both sides neither is said.
   */
  lemma VerdictsTrue(
    ids: Identities, alive: set<Proc>, pid: int, recorded: Observation, signal: Signal, decimal: int -> string, r: Readings)
    requires Truthful(ids, alive, pid, signal) && ObservesStart(ids, alive, pid, decimal, r)
    ensures var verdict := ClassifyProcessLiveness(pid, recorded, signal, decimal, r);
      && (verdict == Active ==>
            recorded.proven && exists p :: p in alive && ids.pidOf(p) == pid && ids.startOf(p) == recorded.value)
      && (verdict == Stale ==>
            && recorded.proven && !NoneAlive(ids, alive, pid)
            && forall p :: p in alive && ids.pidOf(p) == pid ==> ids.startOf(p) != recorded.value)
      && (!recorded.proven ==> verdict == Dead || verdict == Ambiguous)
  {
  }

  /** The process's own start identity, observed once and kept. */
  class Current {
    var cached: Option<Observation>

    constructor ()
      ensures cached == None
    {
      cached := None;
    }

    method CurrentProcessIdentity(pid: int, decimal: int -> string, r: Readings) returns (own: Observation)
      modifies this
      ensures cached == Some(own)
      ensures own == if old(cached).Some? then old(cached).value else ObserveStartIdentity(pid, decimal, r)
    {
      if cached.None? { cached := Some(ObserveStartIdentity(pid, decimal, r)); }
      own := cached.value;
    }
  }
}
