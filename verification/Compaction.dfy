/** The compaction checkpoints: a hash chain of numbered files that never change, and a pointer file written after each. */
module Compaction {
  import opened Wrappers

  /** A checkpoint without its digest. The payload is its JSON text. */
  datatype Body = Body(
    version: int, id: string, generation: int, previous: Option<string>, payload: string, createdAt: string)

  datatype Checkpoint = Sealed(body: Body, sha256: string)

  /** A file that parses as a checkpoint record, or anything else. */
  datatype File = Garbage | Doc(checkpoint: Checkpoint)

  datatype ReadError = Unparsable | Invalid | DigestInvalid | ChainBroken | PointerMismatch

  datatype Failure =
    | GenerationInvalid | GenerationConflict | ImmutableConflict | Unreadable(error: ReadError) | WriteFailed

  /** How a write of one file ends: done; given up before the rename; or thrown after it, its durability unknown. */
  datatype Write = Done | Before | After

  type Sha = Body -> string

  predicate IsHex64(s: string) {
    |s| == 64 && forall k :: 0 <= k < |s| ==> '0' <= s[k] <= '9' || 'a' <= s[k] <= 'f'
  }

  ghost predicate Digests(sha: Sha) {
    forall b :: IsHex64(sha(b))
  }

  ghost predicate Injective(sha: Sha) {
    forall a, b :: sha(a) == sha(b) ==> a == b
  }

  /** The check of one checkpoint against its place in the chain. */
  predicate ValidAt(sha: Sha, c: Checkpoint, id: string, generation: int, previous: Option<string>) {
    && c.body.version == 1 && c.body.id == id && c.body.generation == generation && c.body.previous == previous
    && sha(c.body) == c.sha256
  }

  /** What is wrong with a file in this place: it is no record, its fields do not fit the place, or its digest is not its own. */
  ghost predicate WrongAt(sha: Sha, file: File, id: string, generation: int, previous: Option<string>, error: ReadError) {
    match file
    case Garbage => error == Unparsable
    case Doc(c) =>
      var fits := c.body.version == 1 && c.body.id == id && c.body.generation == generation && c.body.previous == previous
        && IsHex64(c.sha256);
      (error == Invalid && !fits) || (error == DigestInvalid && fits && sha(c.body) != c.sha256)
  }

  method ValidateCheckpoint(sha: Sha, file: File, id: string, generation: int, previous: Option<string>)
    returns (r: Result<Checkpoint, ReadError>)
    requires Digests(sha)
    ensures r.Ok? <==> file.Doc? && ValidAt(sha, file.checkpoint, id, generation, previous)
    ensures r.Ok? ==> r.value == file.checkpoint
    ensures r.Err? ==> WrongAt(sha, file, id, generation, previous, r.error)
  {
    if file.Garbage? { return Err(Unparsable); }
    var c := file.checkpoint;
    if c.body.version != 1 || c.body.id != id || c.body.generation != generation || c.body.previous != previous
      || !IsHex64(c.sha256)
    {
      return Err(Invalid);
    }
    if sha(c.body) != c.sha256 { return Err(DigestInvalid); }
    return Ok(c);
  }

  function DigestOf(chain: seq<Checkpoint>): Option<string> {
    if chain == [] then None else Some(chain[|chain| - 1].sha256)
  }

  /** Each checkpoint is valid in its place, and names the digest of the one before. */
  predicate IsChain(sha: Sha, id: string, chain: seq<Checkpoint>) {
    chain == []
    || (&& IsChain(sha, id, chain[..|chain| - 1])
        && ValidAt(sha, chain[|chain| - 1], id, |chain|, DigestOf(chain[..|chain| - 1])))
  }

  predicate Numbered(files: map<int, File>, generation: int, c: Checkpoint) {
    generation in files && files[generation] == Doc(c)
  }

  /** The numbered files begin with this chain. */
  predicate Holds(files: map<int, File>, chain: seq<Checkpoint>) {
    forall k :: 0 <= k < |chain| ==> Numbered(files, k + 1, chain[k])
  }

  lemma HoldsGrows(files: map<int, File>, chain: seq<Checkpoint>, c: Checkpoint)
    requires Holds(files, chain) && |chain| + 1 in files && files[|chain| + 1] == Doc(c)
    ensures Holds(files, chain + [c])
  {
    forall k | 0 <= k < |chain + [c]| ensures Numbered(files, k + 1, (chain + [c])[k]) {
      assert k < |chain| ==> Numbered(files, k + 1, chain[k]);
    }
  }

  /** What the pointer file and the numbered files amount to: the newest checkpoint of a valid chain, up to the pointer. */
  ghost predicate Reads(
    sha: Sha, id: string, files: map<int, File>, pointer: Option<File>, result: Option<Checkpoint>)
  {
    if pointer.None? then result.None?
    else
      && result.Some? && pointer.value == Doc(result.value)
      && exists chain :: IsChain(sha, id, chain) && Holds(files, chain) && chain != [] && chain[|chain| - 1] == result.value
  }

  /** Why there is nothing to read: what is wrong with the pointer, or with the first numbered file that is missing or wrong. */
  ghost predicate Unread(sha: Sha, id: string, files: map<int, File>, pointer: File, error: ReadError) {
    match pointer
    case Garbage => error == Unparsable
    case Doc(c) =>
      if c.body.generation < 1 then error == Invalid
      else
        exists chain: seq<Checkpoint> ::
          && IsChain(sha, id, chain) && Holds(files, chain)
          && if |chain| < c.body.generation then
               if |chain| + 1 !in files then error == ChainBroken
               else WrongAt(sha, files[|chain| + 1], id, |chain| + 1, DigestOf(chain), error)
             else
               && |chain| == c.body.generation && chain[|chain| - 1] != c
               && (error == PointerMismatch
                   || WrongAt(sha, pointer, id, |chain|, chain[|chain| - 1].body.previous, error))
  }

  lemma ChainGrows(sha: Sha, id: string, chain: seq<Checkpoint>, c: Checkpoint)
    requires IsChain(sha, id, chain) && ValidAt(sha, c, id, |chain| + 1, DigestOf(chain))
    ensures IsChain(sha, id, chain + [c]) && DigestOf(chain + [c]) == Some(c.sha256)
  {
    assert (chain + [c])[..|chain|] == chain;
  }

  lemma {:induction false} ChainAt(sha: Sha, id: string, chain: seq<Checkpoint>, k: nat)
    requires IsChain(sha, id, chain) && k <= |chain|
    ensures IsChain(sha, id, chain[..k])
    ensures k < |chain| ==> ValidAt(sha, chain[k], id, k + 1, DigestOf(chain[..k]))
  {
    var n := |chain|;
    if k == n {
      assert chain[..k] == chain;
    } else if k < n - 1 {
      ChainAt(sha, id, chain[..n - 1], k);
      assert chain[..n - 1][..k] == chain[..k];
    }
  }

  /** One set of files holds at most one chain of a length. */
  lemma ChainUnique(files: map<int, File>, a: seq<Checkpoint>, b: seq<Checkpoint>)
    requires Holds(files, a) && Holds(files, b) && |a| == |b|
    ensures a == b
  {
    forall k | 0 <= k < |a| ensures a[k] == b[k] {
      assert Numbered(files, k + 1, a[k]) && Numbered(files, k + 1, b[k]);
    }
  }

  /**
   * With an injective digest the head's digest fixes the whole history: two chains with equal head digests are equal.
   */
  lemma {:induction false} HeadFixesHistory(sha: Sha, idA: string, a: seq<Checkpoint>, idB: string, b: seq<Checkpoint>)
    requires Injective(sha) && IsChain(sha, idA, a) && IsChain(sha, idB, b)
    requires DigestOf(a) == DigestOf(b)
    ensures a == b
    decreases |a|
  {
    if a != [] {
      var ca, cb := a[|a| - 1], b[|b| - 1];
      assert sha(ca.body) == sha(cb.body);
      HeadFixesHistory(sha, idA, a[..|a| - 1], idB, b[..|b| - 1]);
      assert a == a[..|a| - 1] + [ca] && b == b[..|b| - 1] + [cb];
    }
  }

  // ---- The store as its own writes leave it ----

  /** The checkpoints in the numbered files, of which current.json holds the one at position pointed, if that is not 0. */
  datatype Log = Log(chain: seq<Checkpoint>, pointed: nat)

  /** The numbered files may be one ahead of the pointer, when a write was interrupted between the two. */
  predicate ValidLog(sha: Sha, id: string, log: Log) {
    IsChain(sha, id, log.chain) && log.pointed <= |log.chain| <= log.pointed + 1
  }

  function FilesOf(chain: seq<Checkpoint>): map<int, File> {
    if chain == [] then map[] else FilesOf(chain[..|chain| - 1])[|chain| := Doc(chain[|chain| - 1])]
  }

  lemma {:induction false} FilesAt(chain: seq<Checkpoint>)
    ensures forall g :: g in FilesOf(chain) <==> 1 <= g <= |chain|
    ensures forall k :: 0 <= k < |chain| ==> k + 1 in FilesOf(chain) && FilesOf(chain)[k + 1] == Doc(chain[k])
  {
    if chain != [] {
      FilesAt(chain[..|chain| - 1]);
    }
  }

  lemma FilesGrow(chain: seq<Checkpoint>, c: Checkpoint)
    ensures FilesOf(chain + [c]) == FilesOf(chain)[|chain| + 1 := Doc(c)]
  {
    assert (chain + [c])[..|chain|] == chain;
  }

  function PointerOf(log: Log): Option<File>
    requires log.pointed <= |log.chain|
  {
    if log.pointed == 0 then None else Some(Doc(log.chain[log.pointed - 1]))
  }

  function Head(log: Log): Option<Checkpoint>
    requires log.pointed <= |log.chain|
  {
    if log.pointed == 0 then None else Some(log.chain[log.pointed - 1])
  }

  /** One call of checkpoint: its arguments, the clock, and how its two writes end. */
  datatype Call = Call(expected: int, payload: string, now: string, first: Write, second: Write)

  function NextBody(id: string, redact: string -> string, log: Log, call: Call): Body
    requires log.pointed <= |log.chain|
  {
    Body(1, id, log.pointed + 1, DigestOf(log.chain[..log.pointed]), redact(call.payload), call.now)
  }

  /** What a call does to the store and answers. */
  function Apply(sha: Sha, id: string, redact: string -> string, log: Log, call: Call): (Log, Result<Checkpoint, Failure>)
    requires log.pointed <= |log.chain|
  {
    if call.expected < 0 then (log, Err(GenerationInvalid))
    else if log.pointed != call.expected then (log, Err(GenerationConflict))
    else if |log.chain| > log.pointed then
      // a numbered file left by an interrupted call: finish it if it holds the same payload
      var existing := log.chain[log.pointed];
      if existing.body.payload != redact(call.payload) then (log, Err(ImmutableConflict))
      else Pointed(log, existing, call.second)
    else
      var body := NextBody(id, redact, log, call);
      var next := Sealed(body, sha(body));
      match call.first
      case Before => (log, Err(WriteFailed))
      case After => (log.(chain := log.chain + [next]), Err(WriteFailed))
      case Done => Pointed(log.(chain := log.chain + [next]), next, call.second)
  }

  function Pointed(log: Log, c: Checkpoint, write: Write): (Log, Result<Checkpoint, Failure>) {
    match write
    case Before => (log, Err(WriteFailed))
    case After => (log.(pointed := log.pointed + 1), Err(WriteFailed))
    case Done => (log.(pointed := log.pointed + 1), Ok(c))
  }

  /** Every call keeps the numbered files there are, and a success raises the generation by exactly one. */
  lemma ApplyKeeps(sha: Sha, id: string, redact: string -> string, log: Log, call: Call)
    requires ValidLog(sha, id, log)
    ensures var (after, result) := Apply(sha, id, redact, log, call);
      && ValidLog(sha, id, after) && log.chain <= after.chain && log.pointed <= after.pointed <= log.pointed + 1
      && (result.Ok? ==>
            && call.expected == log.pointed && after.pointed == log.pointed + 1 && Head(after) == Some(result.value)
            && result.value.body.payload == redact(call.payload) && |after.chain| == after.pointed)
  {
    if |log.chain| == log.pointed {
      var body := NextBody(id, redact, log, call);
      assert log.chain[..log.pointed] == log.chain;
      ChainGrows(sha, id, log.chain, Sealed(body, sha(body)));
      hide IsChain;
    } else {
      hide IsChain;
    }
  }

  /** After an interruption between the two writes, the same payload succeeds, and only the same payload. */
  lemma RetryAfterInterruption(sha: Sha, id: string, redact: string -> string, log: Log, first: Call, retry: Call)
    requires ValidLog(sha, id, log) && log.pointed == |log.chain| == first.expected == retry.expected
    requires first.first == After || (first.first == Done && first.second == Before)
    requires retry.second == Done
    ensures var (after, _) := Apply(sha, id, redact, log, first);
      && after.pointed == log.pointed && ValidLog(sha, id, after)
      && var result := Apply(sha, id, redact, after, retry).1;
         && (result.Ok? <==> redact(retry.payload) == redact(first.payload))
         && (result.Ok? ==> result.value == after.chain[after.pointed])
         && (result.Err? ==> result == Err(ImmutableConflict))
  {
    ApplyKeeps(sha, id, redact, log, first);
  }

  /**
   * On a store left by such calls: when each answer is given. A call that expects the generation there is and meets no
   * conflict fails exactly when one of the writes it needs does.
   */
  lemma AnswersExactly(sha: Sha, id: string, redact: string -> string, log: Log, call: Call)
    requires ValidLog(sha, id, log)
    ensures var (after, r) := Apply(sha, id, redact, log, call);
      var fits := call.expected == log.pointed;
      var ahead := |log.chain| > log.pointed;
      && (r == Err(GenerationInvalid) <==> call.expected < 0)
      && (r == Err(GenerationConflict) <==> 0 <= call.expected != log.pointed)
      && (r == Err(ImmutableConflict) <==>
            fits && ahead && log.chain[log.pointed].body.payload != redact(call.payload))
      && (r.Ok? <==>
            && fits && call.second == Done
            && if ahead then log.chain[log.pointed].body.payload == redact(call.payload) else call.first == Done)
      && (r.Err? && r != Err(WriteFailed) ==> after == log)
      && (r.Ok? && ahead ==> r.value == log.chain[log.pointed])
      && (r.Ok? && !ahead ==>
            && r.value.body == Body(1, id, log.pointed + 1,
                                    if log.pointed == 0 then None else Some(log.chain[log.pointed - 1].sha256),
                                    redact(call.payload), call.now)
            && r.value.sha256 == sha(r.value.body))
  {
    hide IsChain;
    assert !(|log.chain| > log.pointed) ==> log.chain[..log.pointed] == log.chain;
  }

  /** Where a run of calls takes the store. */
  function Run(sha: Sha, id: string, redact: string -> string, log: Log, calls: seq<Call>): Log
    requires ValidLog(sha, id, log)
    decreases calls
  {
    if calls == [] then log
    else
      ApplyKeeps(sha, id, redact, log, calls[0]);
      Run(sha, id, redact, Apply(sha, id, redact, log, calls[0]).0, calls[1..])
  }

  predicate NeverChange(before: map<int, File>, after: map<int, File>) {
    forall g :: g in before ==> g in after && after[g] == before[g]
  }

  lemma PrefixFiles(a: seq<Checkpoint>, b: seq<Checkpoint>)
    requires a <= b
    ensures NeverChange(FilesOf(a), FilesOf(b))
  {
    FilesAt(a);
    FilesAt(b);
    hide FilesOf;
    forall g | g in FilesOf(a) ensures g in FilesOf(b) && FilesOf(b)[g] == FilesOf(a)[g] {
      assert FilesOf(a)[(g - 1) + 1] == Doc(a[g - 1]);
      assert FilesOf(b)[(g - 1) + 1] == Doc(b[g - 1]);
    }
  }

  /** Over every run: the store stays readable, no numbered file changes, and the generation never goes back. */
  lemma {:induction false} RunKeeps(sha: Sha, id: string, redact: string -> string, log: Log, calls: seq<Call>)
    requires ValidLog(sha, id, log)
    ensures var after := Run(sha, id, redact, log, calls);
      && ValidLog(sha, id, after) && log.chain <= after.chain && log.pointed <= after.pointed
      && Reads(sha, id, FilesOf(after.chain), PointerOf(after), Head(after))
      && NeverChange(FilesOf(log.chain), FilesOf(after.chain))
    decreases calls
  {
    LogReads(sha, id, log);
    if calls == [] {
    } else {
      ApplyKeeps(sha, id, redact, log, calls[0]);
      var next := Apply(sha, id, redact, log, calls[0]).0;
      RunKeeps(sha, id, redact, next, calls[1..]);
    }
    hide Apply, ValidLog, Reads, FilesOf, NeverChange, PointerOf, Head;
    PrefixFiles(log.chain, Run(sha, id, redact, log, calls).chain);
  }

  lemma LogReads(sha: Sha, id: string, log: Log)
    requires ValidLog(sha, id, log)
    ensures Reads(sha, id, FilesOf(log.chain), PointerOf(log), Head(log))
  {
    if log.pointed > 0 {
      var chain := log.chain[..log.pointed];
      ChainAt(sha, id, log.chain, log.pointed);
      FilesAt(log.chain);
      forall k | 0 <= k < |chain| ensures Numbered(FilesOf(log.chain), k + 1, chain[k]) {
        assert log.chain[k] == chain[k];
      }
    }
  }

  /** What can be read is unique. */
  lemma ReadsUnique(
    sha: Sha, id: string, files: map<int, File>, pointer: Option<File>, a: Option<Checkpoint>, b: Option<Checkpoint>)
    requires Reads(sha, id, files, pointer, a) && Reads(sha, id, files, pointer, b)
    ensures a == b
  {
  }

  /** The head's generation is the position it is at, and what follows it must name its digest. */
  lemma LogHead(sha: Sha, id: string, log: Log)
    requires ValidLog(sha, id, log)
    ensures log.pointed > 0 ==> Head(log).value.body.generation == log.pointed
    ensures DigestOf(log.chain[..log.pointed]) == if Head(log).Some? then Some(Head(log).value.sha256) else None
    ensures |log.chain| > log.pointed ==>
      ValidAt(sha, log.chain[log.pointed], id, log.pointed + 1, DigestOf(log.chain[..log.pointed]))
  {
    ChainAt(sha, id, log.chain, log.pointed);
    if log.pointed > 0 { ChainAt(sha, id, log.chain, log.pointed - 1); }
  }

  function GenerationOf(head: Option<Checkpoint>): int {
    if head.Some? then head.value.body.generation else 0
  }

  class CompactionStore {
    var files: map<int, File>
    var current: Option<File>
    const id: string
    const sha: Sha
    const redact: string -> string

    /** The files are as some log's writes left them. */
    ghost predicate Is(log: Log)
      reads this
    {
      ValidLog(sha, id, log) && files == FilesOf(log.chain) && current == PointerOf(log)
    }

    constructor (id: string, sha: Sha, redact: string -> string)
      requires Digests(sha)
      ensures this.id == id && this.sha == sha && this.redact == redact && Is(Log([], 0))
    {
      this.id, this.sha, this.redact := id, sha, redact;
      files, current := map[], None;
    }

    /** Walk the chain up to the pointer. Whatever is in the files, the answer is exactly what they amount to. */
    method Read() returns (r: Result<Option<Checkpoint>, ReadError>)
      requires Digests(sha)
      ensures r.Ok? ==> Reads(sha, id, files, current, r.value)
      ensures (exists result :: Reads(sha, id, files, current, result)) ==> r.Ok?
      ensures r.Err? ==> current.Some? && Unread(sha, id, files, current.value, r.error)
    {
      if current.None? { return Ok(None); }
      if current.value.Garbage? { return Err(Unparsable); }
      var pointer := current.value.checkpoint;
      if pointer.body.generation < 1 { return Err(Invalid); }
      ghost var chain: seq<Checkpoint> := [];
      var previous: Option<string> := None;
      var latest := pointer;
      var generation := 1;
      while generation <= pointer.body.generation
        invariant 1 <= generation <= pointer.body.generation + 1 && |chain| == generation - 1
        invariant IsChain(sha, id, chain) && Holds(files, chain) && previous == DigestOf(chain)
        invariant chain != [] ==> latest == chain[|chain| - 1]
      {
        if generation !in files {
          Blocked(chain, pointer, ChainBroken);
          return Err(ChainBroken);
        }
        var checked := ValidateCheckpoint(sha, files[generation], id, generation, previous);
        if checked.Err? {
          Blocked(chain, pointer, checked.error);
          return Err(checked.error);
        }
        ChainGrows(sha, id, chain, checked.value);
        HoldsGrows(files, chain, checked.value);
        chain := chain + [checked.value];
        latest := checked.value;
        previous := Some(latest.sha256);
        generation := generation + 1;
      }
      var checked := ValidateCheckpoint(sha, current.value, id, pointer.body.generation, latest.body.previous);
      Walked(chain, pointer);
      hide IsChain, Holds, Reads, Unread;
      if checked.Err? {
        return Err(checked.error);
      }
      if latest != pointer { return Err(PointerMismatch); }
      return Ok(Some(latest));
    }

    /** At the end of the walk there is something to read exactly when the pointer is the last checkpoint. */
    lemma Walked(chain: seq<Checkpoint>, pointer: Checkpoint)
      requires IsChain(sha, id, chain) && Holds(files, chain) && |chain| == pointer.body.generation > 0
      requires current == Some(Doc(pointer))
      ensures var latest := chain[|chain| - 1];
        && (forall result :: Reads(sha, id, files, current, result) ==> latest == pointer)
        && (latest == pointer ==>
              && Reads(sha, id, files, current, Some(pointer))
              && ValidAt(sha, pointer, id, pointer.body.generation, latest.body.previous))
        && (latest != pointer ==>
              && Unread(sha, id, files, Doc(pointer), PointerMismatch)
              && forall error :: WrongAt(sha, Doc(pointer), id, pointer.body.generation, latest.body.previous, error) ==>
                   Unread(sha, id, files, Doc(pointer), error))
    {
      hide WrongAt;
      forall result | Reads(sha, id, files, current, result) ensures chain[|chain| - 1] == pointer {
        var other :| IsChain(sha, id, other) && Holds(files, other) && other != [] && other[|other| - 1] == pointer;
        ChainUnique(files, chain, other);
      }
    }

    /** If the walk cannot go on from here, there is nothing to read. */
    lemma Blocked(chain: seq<Checkpoint>, pointer: Checkpoint, error: ReadError)
      requires IsChain(sha, id, chain) && Holds(files, chain) && |chain| < pointer.body.generation
      requires current == Some(Doc(pointer))
      requires |chain| + 1 !in files || files[|chain| + 1].Garbage?
        || !ValidAt(sha, files[|chain| + 1].checkpoint, id, |chain| + 1, DigestOf(chain))
      requires if |chain| + 1 !in files then error == ChainBroken
        else WrongAt(sha, files[|chain| + 1], id, |chain| + 1, DigestOf(chain), error)
      ensures !exists result :: Reads(sha, id, files, current, result)
      ensures Unread(sha, id, files, Doc(pointer), error)
    {
      hide WrongAt;
      forall result | Reads(sha, id, files, current, result) ensures false {
        var other :| IsChain(sha, id, other) && Holds(files, other) && other != [] && other[|other| - 1] == pointer;
        Continues(chain, other);
        assert false;
      }
    }

    /** A longer chain in the same files goes on from a shorter one. */
    lemma Continues(chain: seq<Checkpoint>, other: seq<Checkpoint>)
      requires Holds(files, chain) && IsChain(sha, id, other) && Holds(files, other) && |chain| < |other|
      ensures |chain| + 1 in files && files[|chain| + 1] == Doc(other[|chain|])
      ensures ValidAt(sha, other[|chain|], id, |chain| + 1, DigestOf(chain))
    {
      assert Numbered(files, |chain| + 1, other[|chain|]);
      var start := other[..|chain|];
      forall k | 0 <= k < |start| ensures Numbered(files, k + 1, start[k]) {
        assert Numbered(files, k + 1, other[k]);
      }
      ChainUnique(files, chain, start);
      ChainAt(sha, id, other, |chain|);
    }

    /** With no numbered file ahead: the new checkpoint follows the head, each write leaves its file, and both are needed. */
    ghost predicate TakesNext(
      call: Call, previous: Option<string>, before: map<int, File>, pointer: Option<File>, r: Result<Checkpoint, Failure>)
      reads this
    {
      var body := Body(1, id, call.expected + 1, previous, redact(call.payload), call.now);
      var next := Sealed(body, sha(body));
      && (r == Ok(next) <==> call.first == Done && call.second == Done) && (r == Ok(next) || r == Err(WriteFailed))
      && files == (if call.first == Before then before else before[call.expected + 1 := Doc(next)])
      && current == if call.first == Done && call.second != Before then Some(Doc(next)) else pointer
    }

    /** With a numbered file ahead: it is taken for the new checkpoint exactly when it is valid and has the same payload. */
    ghost predicate TakesExisting(
      call: Call, previous: Option<string>, before: map<int, File>, pointer: Option<File>, r: Result<Checkpoint, Failure>)
      requires call.expected + 1 in before
      reads this
    {
      var file := before[call.expected + 1];
      var fits := file.Doc? && ValidAt(sha, file.checkpoint, id, call.expected + 1, previous);
      && files == before
      && (!fits ==>
            && r.Err? && r.error.Unreadable? && WrongAt(sha, file, id, call.expected + 1, previous, r.error.error)
            && current == pointer)
      && (fits && file.checkpoint.body.payload != redact(call.payload) ==> r == Err(ImmutableConflict) && current == pointer)
      && (fits && file.checkpoint.body.payload == redact(call.payload) ==>
            && (r == Ok(file.checkpoint) <==> call.second == Done) && (r == Ok(file.checkpoint) || r == Err(WriteFailed))
            && current == if call.second == Before then pointer else Some(file))
    }

    method WriteCurrent(c: Checkpoint, write: Write) returns (ok: bool)
      modifies `current
      ensures ok <==> write == Done
      ensures current == if write == Before then old(current) else Some(Doc(c))
    {
      if write != Before { current := Some(Doc(c)); }
      ok := write == Done;
    }

    /** Finish a checkpoint whose numbered file an interrupted call has left. */
    method Finish(call: Call, previous: Option<string>, ghost log: Option<Log>) returns (r: Result<Checkpoint, Failure>)
      requires Digests(sha) && call.expected + 1 in files
      requires log.Some? ==>
        Is(log.value) && call.expected == log.value.pointed && previous == DigestOf(log.value.chain[..log.value.pointed])
      modifies `current
      ensures log.Some? ==>
        Is(Apply(sha, id, redact, log.value, call).0) && r == Apply(sha, id, redact, log.value, call).1
      ensures Succeeded(call, previous, r)
      ensures TakesExisting(call, previous, old(files), old(current), r)
      ensures r != Err(GenerationInvalid) && (r.Err? && r != Err(WriteFailed) ==> current == old(current))
    {
      if log.Some? {
        LogHead(sha, id, log.value);
        FilesAt(log.value.chain);
        ApplyKeeps(sha, id, redact, log.value, call);
        assert files[log.value.pointed + 1] == Doc(log.value.chain[log.value.pointed]);
      }
      hide IsChain, FilesOf, IsHex64;
      var existing := ValidateCheckpoint(sha, files[call.expected + 1], id, call.expected + 1, previous);
      if existing.Err? { return Err(Unreadable(existing.error)); }
      if existing.value.body.payload != redact(call.payload) { return Err(ImmutableConflict); }
      var written := WriteCurrent(existing.value, call.second);
      r := if written then Ok(existing.value) else Err(WriteFailed);
    }

    /** Write the numbered file, then the pointer. */
    method Begin(call: Call, previous: Option<string>, ghost log: Option<Log>) returns (r: Result<Checkpoint, Failure>)
      requires call.expected + 1 !in files
      requires log.Some? ==>
        Is(log.value) && call.expected == log.value.pointed && previous == DigestOf(log.value.chain[..log.value.pointed])
      modifies `files, `current
      ensures log.Some? ==>
        Is(Apply(sha, id, redact, log.value, call).0) && r == Apply(sha, id, redact, log.value, call).1
      ensures Succeeded(call, previous, r) && NeverChange(old(files), files)
      ensures TakesNext(call, previous, old(files), old(current), r)
      ensures r.Err? ==> r == Err(WriteFailed)
    {
      var body := Body(1, id, call.expected + 1, previous, redact(call.payload), call.now);
      var next := Sealed(body, sha(body));
      if log.Some? {
        FilesAt(log.value.chain);
        ApplyKeeps(sha, id, redact, log.value, call);
        FilesGrow(log.value.chain, next);
      }
      hide IsChain, FilesOf;
      if call.first == Before { return Err(WriteFailed); }
      files := files[call.expected + 1 := Doc(next)];
      if call.first == After { return Err(WriteFailed); }
      var written := WriteCurrent(next, call.second);
      r := if written then Ok(next) else Err(WriteFailed);
    }

    /** On success the checkpoint with this payload follows the head that was read, in its numbered file and the pointer. */
    ghost predicate Succeeded(call: Call, previous: Option<string>, r: Result<Checkpoint, Failure>)
      reads this
    {
      r.Ok? ==>
        && ValidAt(sha, r.value, id, call.expected + 1, previous) && r.value.body.payload == redact(call.payload)
        && Numbered(files, call.expected + 1, r.value) && current == Some(Doc(r.value))
    }

    /**
     * Take the next checkpoint. Whatever the files hold, no numbered file changes, every error but a failed write leaves
     * the store alone, and a success is what can be read next. A wrong generation, an unreadable store and a conflict are
     * answered exactly when there is one, and a call that meets none fails exactly when one of its writes does. On a store
     * left by such calls this is exactly what Apply says.
     */
    method Checkpoint(call: Call) returns (r: Result<Checkpoint, Failure>)
      requires Digests(sha)
      modifies this
      ensures NeverChange(old(files), files)
      ensures r.Err? && r != Err(WriteFailed) ==> files == old(files) && current == old(current)
      ensures r.Ok? ==> exists head ::
        Reads(sha, id, old(files), old(current), head)
        && Succeeded(call, if head.Some? then Some(head.value.sha256) else None, r)
        && call.expected == if head.Some? then head.value.body.generation else 0
      ensures r.Ok? ==> Reads(sha, id, files, current, Some(r.value))
      ensures r == Err(GenerationInvalid) <==> call.expected < 0
      ensures call.expected >= 0 ==>
        forall head :: Reads(sha, id, old(files), old(current), head) ==>
          var previous := if head.Some? then Some(head.value.sha256) else None;
          if call.expected != GenerationOf(head) then r == Err(GenerationConflict)
          else if call.expected + 1 in old(files) then TakesExisting(call, previous, old(files), old(current), r)
          else TakesNext(call, previous, old(files), old(current), r)
      ensures call.expected >= 0 && (forall head :: !Reads(sha, id, old(files), old(current), head)) ==>
        && r.Err? && r.error.Unreadable?
        && old(current).Some? && Unread(sha, id, old(files), old(current).value, r.error.error)
      ensures forall log :: old(Is(log)) ==>
        Is(Apply(sha, id, redact, log, call).0) && r == Apply(sha, id, redact, log, call).1
    {
      ghost var log: Option<Log> := None;
      if l :| Is(l) {
        log := Some(l);
        LogReads(sha, id, l);
        LogHead(sha, id, l);
        FilesAt(l.chain);
      }
      forall l | Is(l) ensures log == Some(l) {
        LogUnique(sha, id, l, log.value);
      }
      if call.expected < 0 { return Err(GenerationInvalid); }
      var read := Read();
      hide IsChain, Reads, ValidAt, Holds, IsHex64, FilesOf, Succeeded, NeverChange, TakesNext, TakesExisting, Unread, Apply,
        ValidLog;
      if read.Err? { return Err(Unreadable(read.error)); }
      forall other | Reads(sha, id, files, current, other) ensures other == read.value {
        ReadsUnique(sha, id, files, current, read.value, other);
      }
      var head := read.value;
      if (if head.Some? then head.value.body.generation else 0) != call.expected { return Err(GenerationConflict); }
      var previous := if head.Some? then Some(head.value.sha256) else None;
      ghost var before, pointer := files, current;
      if call.expected + 1 in files {
        r := Finish(call, previous, log);
        assert NeverChange(before, files) by { Unchanged(files); }
      } else {
        r := Begin(call, previous, log);
      }
      if r.Ok? { SucceededReads(before, pointer, head, call, previous, r); }
    }

    lemma SucceededReads(
      before: map<int, File>, pointer: Option<File>, head: Option<Checkpoint>, call: Call, previous: Option<string>,
      r: Result<Checkpoint, Failure>)
      requires Reads(sha, id, before, pointer, head) && NeverChange(before, files) && call.expected == GenerationOf(head)
      requires previous == (if head.Some? then Some(head.value.sha256) else None) && r.Ok? && Succeeded(call, previous, r)
      ensures Reads(sha, id, files, current, Some(r.value))
    {
      ReadsNext(sha, id, before, pointer, head, files, r.value);
    }
  }

  lemma Unchanged(files: map<int, File>)
    ensures NeverChange(files, files)
  {
  }

  /** A checkpoint that follows the head, in its numbered file and in the pointer, is what can be read. */
  lemma ReadsNext(
    sha: Sha, id: string, before: map<int, File>, pointer: Option<File>, head: Option<Checkpoint>, after: map<int, File>,
    c: Checkpoint)
    requires Reads(sha, id, before, pointer, head) && NeverChange(before, after)
    requires ValidAt(sha, c, id, GenerationOf(head) + 1, if head.Some? then Some(head.value.sha256) else None)
    requires Numbered(after, GenerationOf(head) + 1, c)
    ensures Reads(sha, id, after, Some(Doc(c)), Some(c))
  {
    var chain: seq<Checkpoint> := [];
    if head.Some? {
      chain :| IsChain(sha, id, chain) && Holds(before, chain) && chain != [] && chain[|chain| - 1] == head.value;
    }
    assert GenerationOf(head) == |chain| && DigestOf(chain) == if head.Some? then Some(head.value.sha256) else None;
    forall k | 0 <= k < |chain| ensures Numbered(after, k + 1, chain[k]) {
      assert Numbered(before, k + 1, chain[k]);
    }
    ChainGrows(sha, id, chain, c);
    HoldsGrows(after, chain, c);
    assert (chain + [c])[|chain|] == c;
  }

  /** The files say which log left them. */
  lemma LogUnique(sha: Sha, id: string, a: Log, b: Log)
    requires ValidLog(sha, id, a) && ValidLog(sha, id, b)
    requires FilesOf(a.chain) == FilesOf(b.chain) && PointerOf(a) == PointerOf(b)
    ensures a == b
  {
    FilesAt(a.chain);
    FilesAt(b.chain);
    LogHead(sha, id, a);
    LogHead(sha, id, b);
    hide FilesOf, IsChain;
    assert a.chain == [] || |a.chain| in FilesOf(b.chain);
    assert b.chain == [] || |b.chain| in FilesOf(a.chain);
    forall k | 0 <= k < |a.chain| ensures a.chain[k] == b.chain[k] {
      assert FilesOf(a.chain)[k + 1] == FilesOf(b.chain)[k + 1];
    }
  }
}
