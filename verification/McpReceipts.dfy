/** Installing, repairing and uninstalling the MCP server entry, with a receipt that remembers what was there before. */
module McpReceipts {
  import opened Wrappers

  datatype Json = Null | Bool(b: bool) | Number(n: real) | Str(s: string) | Arr(items: seq<Json>) | Obj(fields: map<string, Json>)

  const SERVER := "oh-my-cursor"

  // ---- Comparing server entries ----

  predicate Truthy(j: Json) {
    match j
    case Null => false
    case Bool(b) => b
    case Number(n) => n != 0.0
    case Str(s) => s != ""
    case _ => true
  }

  predicate Primitive(j: Json) {
    !j.Arr? && !j.Obj?
  }

  /** The === of two values parsed from different texts: objects and arrays are never the same one. */
  predicate Same(a: Json, b: Json) {
    Primitive(a) && a == b
  }

  function Get(j: Json, key: string): Option<Json> {
    if j.Obj? && key in j.fields then Some(j.fields[key]) else None
  }

  predicate SameOption(a: Option<Json>, b: Option<Json>) {
    if a.None? || b.None? then a == b else Same(a.value, b.value)
  }

  predicate SameArgs(a: Option<Json>, b: Option<Json>) {
    && a.Some? && b.Some? && a.value.Arr? && b.value.Arr? && |a.value.items| == |b.value.items|
    && forall k :: 0 <= k < |a.value.items| ==> Same(a.value.items[k], b.value.items[k])
  }

  /** The variables of an env field; none when it is missing. None here when the field is not an object. */
  function Variables(env: Option<Json>): Option<map<string, Json>> {
    if env.None? then Some(map[]) else if env.value.Obj? then Some(env.value.fields) else None
  }

  predicate SameVariables(a: map<string, Json>, b: map<string, Json>) {
    a.Keys == b.Keys && forall k :: k in a ==> Same(a[k], b[k])
  }

  predicate SameEnv(a: Option<Json>, b: Option<Json>) {
    Variables(a).Some? && Variables(b).Some? && SameVariables(Variables(a).value, Variables(b).value)
  }

  predicate SameCommand(a: Option<Json>, b: Option<Json>) {
    a.Some? && b.Some? && a.value.Str? && a == b
  }

  /** Two entries start the same server; fields other than these four do not count. */
  predicate ConfigsEqual(a: Json, b: Json) {
    if !Truthy(a) || !Truthy(b) then Same(a, b)
    else
      && a.Obj? && b.Obj?
      && SameCommand(Get(a, "command"), Get(b, "command")) && SameArgs(Get(a, "args"), Get(b, "args"))
      && SameOption(Get(a, "cwd"), Get(b, "cwd")) && SameEnv(Get(a, "env"), Get(b, "env"))
  }

  /** The comparison is an equivalence on what it accepts. */
  lemma ConfigsEqualSymmetric(a: Json, b: Json)
    requires ConfigsEqual(a, b)
    ensures ConfigsEqual(b, a)
  {
  }

  lemma ConfigsEqualTransitive(a: Json, b: Json, c: Json)
    requires ConfigsEqual(a, b) && ConfigsEqual(b, c)
    ensures ConfigsEqual(a, c)
  {
    if Truthy(a) && Truthy(b) && Truthy(c) {
      hide Same;
      SameTransitive();
    }
  }

  lemma SameTransitive()
    ensures forall a, b, c :: Same(a, b) && Same(b, c) ==> Same(a, c)
  {
  }

  /** What the launcher resolution gives: a command with text arguments and perhaps a working directory. */
  datatype Launcher = Launcher(command: string, args: seq<string>, cwd: Option<string>)

  function Texts(args: seq<string>): seq<Json> {
    seq(|args|, i requires 0 <= i < |args| => Str(args[i]))
  }

  function Entry(l: Launcher): Json {
    var fields := map["command" := Str(l.command), "args" := Arr(Texts(l.args))];
    Obj(if l.cwd.Some? then fields["cwd" := Str(l.cwd.value)] else fields)
  }

  lemma EntryFields(l: Launcher)
    ensures var e := Entry(l);
      && e.Obj? && Get(e, "command") == Some(Str(l.command)) && Get(e, "args") == Some(Arr(Texts(l.args)))
      && Get(e, "cwd") == (if l.cwd.Some? then Some(Str(l.cwd.value)) else None) && Get(e, "env") == None
  {
    var e := Entry(l);
    assert "command" != "args" && "command"[1] != "cwd"[1] && "env"[0] != "command"[0];
  }

  /** A launcher's entry, read back, is recognised. */
  lemma EntryRecognised(l: Launcher)
    ensures ConfigsEqual(Entry(l), Entry(l))
  {
    EntryFields(l);
    hide Entry;
  }

  // ---- The target file and the receipt ----

  /** The configuration file: missing, not usable, or its root's fields, of which mcpServers may be missing. */
  datatype Target = Absent | Malformed | File(others: map<string, Json>, servers: Option<map<string, Json>>)

  /** The entry that was installed, and the object it replaced, if it was one. */
  datatype Receipt = Receipt(installed: Launcher, previous: Option<Json>)

  datatype Config = Config(target: Target, receipt: Option<Receipt>)

  datatype Answer = Installed | Replaced | Noop | Removed | Restored | AlreadyAbsent | NothingToRepair
                  | Refused(reason: Refusal)

  datatype Refusal = ConfigInvalid | Collision | ReceiptWriteFailed | ReceiptMissing | UninstallCollision | ReceiptRemoveFailed

  function Servers(t: Target): map<string, Json> {
    if t.File? && t.servers.Some? then t.servers.value else map[]
  }

  function Others(t: Target): map<string, Json> {
    if t.File? then t.others else map[]
  }

  function Current(t: Target): Option<Json> {
    if SERVER in Servers(t) then Some(Servers(t)[SERVER]) else None
  }

  function WithEntry(t: Target, entry: Json): Target {
    File(Others(t), Some(Servers(t)[SERVER := entry]))
  }

  function WithoutEntry(t: Target): Target {
    File(Others(t), Some(Servers(t) - {SERVER}))
  }

  /** What a receipt remembers of an entry: objects (and arrays), which could be put back. */
  function Remembered(entry: Option<Json>): Option<Json> {
    if entry.Some? && !Primitive(entry.value) then entry else None
  }

  /** The current entry is the one the receipt says was installed. */
  predicate Owned(c: Config) {
    && c.receipt.Some? && Current(c.target).Some?
    && !Primitive(Current(c.target).value) && ConfigsEqual(Current(c.target).value, Entry(c.receipt.value.installed))
  }

  predicate AlreadyExpected(t: Target, l: Launcher) {
    Current(t).Some? && Truthy(Current(t).value) && ConfigsEqual(Current(t).value, Entry(l))
  }

  /** What an install leaves and answers; writing the receipt may fail, which rolls the target back. */
  function AfterInstall(c: Config, l: Launcher, replace: bool, dryRun: bool, receiptFails: bool): (Config, Answer) {
    if c.target.Malformed? then (c, Refused(ConfigInvalid))
    else if AlreadyExpected(c.target, l) then (c, Noop)
    else if Current(c.target).Some? && !replace then (c, Refused(Collision))
    else
      var answer := if Current(c.target).Some? then Replaced else Installed;
      if dryRun then (c, answer)
      else if receiptFails then (c, Refused(ReceiptWriteFailed))
      else
        var previous := if Owned(c) then c.receipt.value.previous else Remembered(Current(c.target));
        (Config(WithEntry(c.target, Entry(l)), Some(Receipt(l, previous))), answer)
  }

  /**
   * A repair rewrites an entry this receipt owns for the launcher of the current release. When writing the receipt then
   * fails, the error is swallowed and the target is not rolled back.
   */
  function AfterRepair(c: Config, l: Launcher, receiptFails: bool): (Config, Answer) {
    if !c.target.File? || c.receipt.None? || Current(c.target).None? || !Truthy(Current(c.target).value)
      || ConfigsEqual(Current(c.target).value, Entry(l))
      || !ConfigsEqual(Current(c.target).value, Entry(c.receipt.value.installed))
    then (c, NothingToRepair)
    else if receiptFails then (c.(target := WithEntry(c.target, Entry(l))), NothingToRepair)
    else (Config(WithEntry(c.target, Entry(l)), Some(Receipt(l, c.receipt.value.previous))), Replaced)
  }

  /** An uninstall puts back what the receipt remembers; a receipt that cannot be removed leaves everything as it was. */
  function AfterUninstall(c: Config, dryRun: bool, receiptStuck: bool): (Config, Answer) {
    if c.receipt.None? then (c, Refused(ReceiptMissing))
    else if c.target.Malformed? then (c, Refused(ConfigInvalid))
    else if Current(c.target).None? then (if dryRun then c else c.(receipt := None), AlreadyAbsent)
    else if !Truthy(Current(c.target).value) || !ConfigsEqual(Current(c.target).value, Entry(c.receipt.value.installed)) then
      (c, Refused(UninstallCollision))
    else
      var previous := c.receipt.value.previous;
      var answer := if previous.Some? then Restored else Removed;
      if dryRun then (c, answer)
      else if receiptStuck then (c, Refused(ReceiptRemoveFailed))
      else
        (Config(if previous.Some? then WithEntry(c.target, previous.value) else WithoutEntry(c.target), None), answer)
  }

  // ---- Chains ----

  datatype Op =
    | Install(l: Launcher, replace: bool, dryRun: bool, receiptFails: bool)
    | Repair(l: Launcher, receiptFails: bool)

  function Apply(c: Config, op: Op): Config {
    match op
    case Install(l, replace, dryRun, receiptFails) => AfterInstall(c, l, replace, dryRun, receiptFails).0
    case Repair(l, receiptFails) => AfterRepair(c, l, receiptFails).0
  }

  function Chain(c: Config, ops: seq<Op>): Config {
    if ops == [] then c else Apply(Chain(c, ops[..|ops| - 1]), ops[|ops| - 1])
  }

  /** A repair that rewrote the target and then failed to write the receipt. */
  predicate Breaks(c: Config, op: Op) {
    op.Repair? && op.receiptFails && Apply(c, op) != c
  }

  /** The launcher that the last broken repair of a chain wrote, if there was one. */
  function LastBroken(c: Config, ops: seq<Op>): Option<Launcher> {
    if ops == [] then None
    else
      var before, op := ops[..|ops| - 1], ops[|ops| - 1];
      if Breaks(Chain(c, before), op) then Some(op.l) else LastBroken(c, before)
  }

  /** The last operation of a chain that changed anything was a broken repair. */
  predicate EndsBroken(c: Config, ops: seq<Op>) {
    && ops != []
    && var before, op := ops[..|ops| - 1], ops[|ops| - 1];
       Breaks(Chain(c, before), op) || (Apply(Chain(c, before), op) == Chain(c, before) && EndsBroken(c, before))
  }

  /** Everything but our entry is as in the original file; a missing mcpServers counts as an empty one. */
  predicate OthersKept(original: Target, t: Target) {
    Others(t) == Others(original) && Servers(t) - {SERVER} == Servers(original) - {SERVER}
  }

  /** What a receipt remembers in the end: what the last broken repair wrote, or else the original entry. */
  function Base(original: Target, last: Option<Launcher>): Option<Json> {
    if last.Some? then Some(Entry(last.value)) else Remembered(Current(original))
  }

  /**
   * Either nothing was written, or the entry is the receipt's and the receipt remembers the base, or a broken repair came
   * last and left its own entry, which is not the receipt's.
   */
  predicate Remembers(original: Target, last: Option<Launcher>, broken: bool, c: Config) {
    && !c.target.Malformed? && OthersKept(original, c.target)
    && (c.receipt.None? ==> c.target == original && last.None? && !broken)
    && (c.receipt.Some? ==>
          && c.target.File?
          && if broken then
               && last.Some? && Current(c.target) == Some(Entry(last.value))
               && !ConfigsEqual(Entry(last.value), Entry(c.receipt.value.installed))
             else
               && Current(c.target) == Some(Entry(c.receipt.value.installed))
               && c.receipt.value.previous == Base(original, last))
  }

  lemma EntriesDiffer(a: Launcher, b: Launcher)
    requires !ConfigsEqual(Entry(b), Entry(a))
    ensures !ConfigsEqual(Entry(a), Entry(b))
  {
    if ConfigsEqual(Entry(a), Entry(b)) { ConfigsEqualSymmetric(Entry(a), Entry(b)); }
  }

  lemma InstallRemembers(original: Target, last: Option<Launcher>, broken: bool, c: Config, op: Op)
    requires Remembers(original, last, broken, c) && op.Install?
    ensures Remembers(original, last, broken && Apply(c, op) == c, Apply(c, op))
    ensures c.receipt.Some? ==> Apply(c, op).receipt.Some?
  {
    if c.receipt.Some? {
      EntryRecognised(c.receipt.value.installed);
      EntryFields(c.receipt.value.installed);
    }
    if last.Some? { EntryFields(last.value); }
    hide ConfigsEqual, Entry, Get;
    if Apply(c, op) != c {
      assert WithEntry(c.target, Entry(op.l)).File? && Current(WithEntry(c.target, Entry(op.l))) == Some(Entry(op.l));
      assert OthersKept(original, WithEntry(c.target, Entry(op.l)));
      hide OthersKept, WithEntry;
    }
  }

  lemma RepairRemembers(original: Target, last: Option<Launcher>, broken: bool, c: Config, op: Op)
    requires Remembers(original, last, broken, c) && op.Repair?
    ensures Remembers(
      original, if Breaks(c, op) then Some(op.l) else last, Breaks(c, op) || (broken && Apply(c, op) == c), Apply(c, op))
    ensures c.receipt.Some? ==> Apply(c, op).receipt.Some?
  {
    hide ConfigsEqual, Entry, Truthy;
    var next := WithEntry(c.target, Entry(op.l));
    assert next.File? && Current(next) == Some(Entry(op.l));
    assert OthersKept(original, c.target) ==> OthersKept(original, next);
    hide OthersKept, WithEntry;
    if Breaks(c, op) { EntriesDiffer(op.l, c.receipt.value.installed); }
  }

  lemma {:induction false} ChainRemembers(original: Target, ops: seq<Op>)
    requires !original.Malformed?
    ensures var c := Config(original, None);
      Remembers(original, LastBroken(c, ops), EndsBroken(c, ops), Chain(c, ops))
  {
    var c := Config(original, None);
    if ops != [] {
      var before, op := ops[..|ops| - 1], ops[|ops| - 1];
      ChainRemembers(original, before);
      if op.Install? {
        InstallRemembers(original, LastBroken(c, before), EndsBroken(c, before), Chain(c, before), op);
      } else {
        RepairRemembers(original, LastBroken(c, before), EndsBroken(c, before), Chain(c, before), op);
      }
      hide Apply, Remembers;
    }
  }

  /**
   * What an uninstall finds after any chain of installs, replaces and repairs that wrote a receipt, whatever receipt writes
   * failed. When the last operation that changed anything was a broken repair, the entry is the one it wrote, and the
   * uninstall refuses. Otherwise the uninstall succeeds and puts back exactly the base: what the last broken repair wrote,
   * or the original entry if that was an object and no repair ever broke. Every other server and key is as before.
   */
  lemma UninstallUndoesChain(original: Target, ops: seq<Op>)
    requires !original.Malformed? && Chain(Config(original, None), ops).receipt.Some?
    ensures var start := Config(original, None); var c := Chain(start, ops); var last := LastBroken(start, ops);
      var (after, answer) := AfterUninstall(c, false, false);
      && OthersKept(original, after.target)
      && (EndsBroken(start, ops) ==>
            && answer == Refused(UninstallCollision) && after == c
            && last.Some? && Current(c.target) == Some(Entry(last.value)))
      && (!EndsBroken(start, ops) ==>
            && (answer == Restored || answer == Removed) && after.receipt.None?
            && Current(after.target) == Base(original, last)
            && (last.None? && Current(original).Some? && !Primitive(Current(original).value) ==>
                  Servers(after.target) == Servers(original)))
  {
    var start := Config(original, None);
    ChainRemembers(original, ops);
    UninstallFinds(original, LastBroken(start, ops), EndsBroken(start, ops), Chain(start, ops));
  }

  /** Whether the original entry comes back, in the caller's terms: what it was, and which receipt writes failed. */
  lemma OriginalComesBackIff(original: Target, ops: seq<Op>)
    requires !original.Malformed? && Chain(Config(original, None), ops).receipt.Some?
    ensures var start := Config(original, None); var last := LastBroken(start, ops);
      var (after, answer) := AfterUninstall(Chain(start, ops), false, false);
      (answer == Restored || answer == Removed) && Current(after.target) == Current(original) <==>
        && !EndsBroken(start, ops)
        && if last.Some? then Current(original) == Some(Entry(last.value))
           else Current(original).None? || !Primitive(Current(original).value)
  {
    UninstallUndoesChain(original, ops);
    hide Chain, LastBroken, EndsBroken, AfterUninstall, Entry;
  }

  lemma PutBack(changed: map<string, Json>, original: map<string, Json>)
    requires SERVER in original && changed - {SERVER} == original - {SERVER}
    ensures changed[SERVER := original[SERVER]] == original
  {
    var back := changed[SERVER := original[SERVER]];
    forall k | k != SERVER
      ensures k in back <==> k in original
      ensures k in original ==> back[k] == original[k]
    {
      assert k in changed - {SERVER} <==> k in original - {SERVER};
      assert k in original - {SERVER} ==> (changed - {SERVER})[k] == (original - {SERVER})[k];
    }
  }

  lemma UninstallFinds(original: Target, last: Option<Launcher>, broken: bool, c: Config)
    requires Remembers(original, last, broken, c) && c.receipt.Some?
    ensures var (after, answer) := AfterUninstall(c, false, false);
      && OthersKept(original, after.target)
      && (broken ==> answer == Refused(UninstallCollision) && after == c)
      && (!broken ==>
            && (answer == Restored || answer == Removed) && after.receipt.None?
            && Current(after.target) == Base(original, last)
            && (last.None? && Current(original).Some? && !Primitive(Current(original).value) ==>
                  Servers(after.target) == Servers(original)))
  {
    EntryRecognised(c.receipt.value.installed);
    EntryFields(c.receipt.value.installed);
    assert Truthy(Entry(c.receipt.value.installed));
    hide ConfigsEqual, Entry, Get;
    if Current(original).Some? { PutBack(Servers(c.target), Servers(original)); }
  }

  /** A chain whose installs all find the expected entry, or are refused, writes no receipt and changes nothing. */
  lemma NoReceiptNoChange(original: Target, ops: seq<Op>)
    requires !original.Malformed? && Chain(Config(original, None), ops).receipt.None?
    ensures Chain(Config(original, None), ops).target == original
  {
    ChainRemembers(original, ops);
  }

  /** An entry that is no object is not put back. */
  lemma TextEntryNotRestored()
    ensures var original := File(map[], Some(map[SERVER := Str("mine")]));
      var l := Launcher("omcu", [], None);
      var c := Chain(Config(original, None), [Install(l, true, false, false)]);
      c.receipt.Some? && Current(AfterUninstall(c, false, false).0.target).None?
  {
    var original := File(map[], Some(map[SERVER := Str("mine")]));
    var l := Launcher("omcu", [], None);
    assert Current(original) == Some(Str("mine"));
    var ops := [Install(l, true, false, false)];
    assert ops[..0] == [];
    assert Chain(Config(original, None), ops) == Apply(Config(original, None), ops[0]);
    EntryFields(l);
    assert Chain(Config(original, None), ops).receipt.Some?;
    UninstallUndoesChain(original, ops);
  }

  /** After a broken repair to another launcher an uninstall refuses, and a later replace forgets the original entry. */
  lemma BrokenRepairLosesOriginal(original: Target, c: Config, l: Launcher, next: Launcher)
    requires Remembers(original, None, false, c) && c.receipt.Some?
    requires !ConfigsEqual(Entry(c.receipt.value.installed), Entry(l)) && !ConfigsEqual(Entry(l), Entry(next))
    ensures var broken := AfterRepair(c, l, true).0;
      && AfterUninstall(broken, false, false) == (broken, Refused(UninstallCollision))
      && var replaced := AfterInstall(broken, next, true, false, false).0;
         replaced.receipt == Some(Receipt(next, Some(Entry(l))))
  {
    EntryRecognised(c.receipt.value.installed);
    EntryFields(l);
    EntryFields(c.receipt.value.installed);
    EntriesDiffer(l, c.receipt.value.installed);
    hide ConfigsEqual, Entry;
  }

  // ---- The operations on the files ----

  class McpFiles {
    var target: Target
    var receipt: Option<Receipt>

    ghost function State(): Config
      reads this
    {
      Config(target, receipt)
    }

    method WriteTarget(entry: Option<Json>)
      requires !target.Malformed?
      modifies `target
      ensures target == if entry.Some? then WithEntry(old(target), entry.value) else WithoutEntry(old(target))
    {
      var servers := Servers(target);
      servers := if entry.Some? then servers[SERVER := entry.value] else servers - {SERVER};
      target := File(Others(target), Some(servers));
    }

    method InstallMcpServer(l: Launcher, replace: bool, dryRun: bool, receiptFails: bool) returns (r: Answer)
      modifies this
      ensures (State(), r) == AfterInstall(old(State()), l, replace, dryRun, receiptFails)
    {
      if target.Malformed? { return Refused(ConfigInvalid); }
      var current := Current(target);
      var ownedDrift := receipt.Some? && current.Some? && (current.value.Obj? || current.value.Arr?)
        && ConfigsEqual(current.value, Entry(receipt.value.installed));
      if current.Some? && Truthy(current.value) && ConfigsEqual(current.value, Entry(l)) { return Noop; }
      var action := Installed;
      var previous: Option<Json> := None;
      if current.Some? {
        if !replace { return Refused(Collision); }
        action := Replaced;
        if current.value.Obj? || current.value.Arr? { previous := current; }
      }
      if dryRun { return action; }
      var before := target;
      WriteTarget(Some(Entry(l)));
      var rollback := if ownedDrift then receipt.value.previous else previous;
      if receiptFails {
        target := before;
        return Refused(ReceiptWriteFailed);
      }
      receipt := Some(Receipt(l, rollback));
      return action;
    }

    method RepairOwnedMcpServer(l: Launcher, receiptFails: bool) returns (r: Answer)
      modifies this
      ensures (State(), r) == AfterRepair(old(State()), l, receiptFails)
    {
      if !target.File? || receipt.None? { return NothingToRepair; }
      var current := Current(target);
      if current.None? || !Truthy(current.value) { return NothingToRepair; }
      if ConfigsEqual(current.value, Entry(l)) { return NothingToRepair; }
      if !ConfigsEqual(current.value, Entry(receipt.value.installed)) { return NothingToRepair; }
      WriteTarget(Some(Entry(l)));
      if receiptFails { return NothingToRepair; }
      receipt := Some(Receipt(l, receipt.value.previous));
      return Replaced;
    }

    method UninstallMcpServer(dryRun: bool, receiptStuck: bool) returns (r: Answer)
      modifies this
      ensures (State(), r) == AfterUninstall(old(State()), dryRun, receiptStuck)
    {
      if receipt.None? { return Refused(ReceiptMissing); }
      if target.Malformed? { return Refused(ConfigInvalid); }
      var current := Current(target);
      if current.None? {
        if !dryRun { receipt := None; }
        return AlreadyAbsent;
      }
      if !Truthy(current.value) || !ConfigsEqual(current.value, Entry(receipt.value.installed)) {
        return Refused(UninstallCollision);
      }
      var previous := receipt.value.previous;
      var action := if previous.Some? then Restored else Removed;
      if dryRun { return action; }
      var before := target;
      WriteTarget(previous);
      if receiptStuck {
        target := before;
        return Refused(ReceiptRemoveFailed);
      }
      receipt := None;
      return action;
    }
  }
}
