/** What installing, repairing and uninstalling the server entry answers, on which condition, and what each leaves. */
module McpAnswers {
  import opened McpReceipts
  import opened Wrappers

  // ---- When an entry counts as the launcher's ----

  predicate Field(j: Json, key: string, value: Json) {
    j.Obj? && key in j.fields && j.fields[key] == value
  }

  predicate NoField(j: Json, key: string) {
    j.Obj? && key !in j.fields
  }

  /** An array of exactly these texts. */
  ghost predicate Texted(j: Json, texts: seq<string>) {
    j.Arr? && |j.items| == |texts| && forall k :: 0 <= k < |texts| ==> j.items[k] == Str(texts[k])
  }

  /** The same command, arguments and working directory, and no environment. */
  ghost predicate Starts(j: Json, l: Launcher) {
    && Field(j, "command", Str(l.command))
    && (exists args :: Field(j, "args", args) && Texted(args, l.args))
    && (if l.cwd.Some? then Field(j, "cwd", Str(l.cwd.value)) else NoField(j, "cwd"))
    && (NoField(j, "env") || Field(j, "env", Obj(map[])))
  }

  lemma ArgsAre(a: Option<Json>, texts: seq<string>)
    ensures SameArgs(a, Some(Arr(Texts(texts)))) <==> a.Some? && Texted(a.value, texts)
  {
  }

  lemma EnvIs(env: Option<Json>)
    ensures SameEnv(env, None) <==> env == None || env == Some(Obj(map[]))
  {
    if env.Some? && env.value.Obj? && SameEnv(env, None) {
      assert env.value.fields.Keys == {};
      assert env.value.fields == map[];
    }
  }

  /** The comparison with an installed entry looks at command, arguments, working directory and environment, and only there. */
  lemma EqualIff(j: Json, l: Launcher)
    ensures ConfigsEqual(j, Entry(l)) <==> Starts(j, l)
  {
    EntryFields(l);
    ArgsAre(Get(j, "args"), l.args);
    EnvIs(Get(j, "env"));
    hide Entry, SameArgs, SameEnv, Texted, Texts;
  }

  /** Different launchers have different entries. */
  lemma EntryStarts(l: Launcher, other: Launcher)
    ensures Starts(Entry(l), other) <==> l == other
  {
    EntryFields(l);
    hide Entry;
    assert Field(Entry(l), "args", Arr(Texts(l.args))) && Texted(Arr(Texts(l.args)), l.args);
    if Starts(Entry(l), other) {
      assert Texts(l.args) == Texts(other.args);
      SameTexts(l.args, other.args);
    }
  }

  lemma SameTexts(a: seq<string>, b: seq<string>)
    requires Texts(a) == Texts(b)
    ensures a == b
  {
    assert |Texts(a)| == |a| && |Texts(b)| == |b|;
    forall k | 0 <= k < |a| ensures a[k] == b[k] {
      assert Texts(a)[k] == Str(a[k]) && Texts(b)[k] == Str(b[k]);
    }
  }

  // ---- The entry in the target ----

  predicate HasEntry(t: Target, entry: Json) {
    t.File? && t.servers.Some? && SERVER in t.servers.value && t.servers.value[SERVER] == entry
  }

  predicate NoEntry(t: Target) {
    t.Absent? || (t.File? && (t.servers.None? || SERVER !in t.servers.value))
  }

  /** The entry starts this launcher. */
  ghost predicate Runs(t: Target, l: Launcher) {
    exists entry :: HasEntry(t, entry) && Starts(entry, l)
  }

  /** The two targets differ at most in our entry. */
  ghost predicate OnlyEntryChanged(before: Target, after: Target) {
    && after.File? && after.servers.Some?
    && after.others == (if before.File? then before.others else map[])
    && forall name :: name != SERVER ==>
         && (name in after.servers.value <==> before.File? && before.servers.Some? && name in before.servers.value)
         && (name in after.servers.value ==> after.servers.value[name] == before.servers.value[name])
  }

  lemma CurrentIs(t: Target)
    ensures Current(t).Some? ==> HasEntry(t, Current(t).value)
    ensures forall entry :: HasEntry(t, entry) ==> Current(t) == Some(entry)
    ensures Current(t).None? <==> NoEntry(t) || t.Malformed?
  {
  }

  lemma WriteIs(t: Target, entry: Json)
    requires !t.Malformed?
    ensures OnlyEntryChanged(t, WithEntry(t, entry)) && HasEntry(WithEntry(t, entry), entry)
    ensures OnlyEntryChanged(t, WithoutEntry(t)) && NoEntry(WithoutEntry(t))
  {
  }

  lemma RunsIs(t: Target, l: Launcher)
    ensures Runs(t, l) <==> Current(t).Some? && ConfigsEqual(Current(t).value, Entry(l))
    ensures Runs(t, l) ==> Truthy(Current(t).value) && Current(t).value.Obj?
  {
    CurrentIs(t);
    if Current(t).Some? { EqualIff(Current(t).value, l); }
    hide ConfigsEqual, HasEntry, Entry, Current;
  }

  // ---- Install ----

  /** What an install remembers: of our own drifted entry what its receipt remembers, of another one the object it is. */
  ghost predicate RemembersFor(c: Config, previous: Option<Json>) {
    if c.receipt.Some? && Runs(c.target, c.receipt.value.installed) then previous == c.receipt.value.previous
    else if previous.Some? then HasEntry(c.target, previous.value) && (previous.value.Obj? || previous.value.Arr?)
    else forall entry :: HasEntry(c.target, entry) ==> !entry.Obj? && !entry.Arr?
  }

  /**
   * An install is refused for a malformed file, for another entry unless it may replace it, and for a receipt that cannot be
   * written; it is done with an entry that already starts the launcher. Only an answer of installed or replaced that is no
   * dry run writes anything: our entry and the receipt.
   */
  lemma InstallAnswers(c: Config, l: Launcher, replace: bool, dryRun: bool, receiptFails: bool)
    ensures var (after, r) := AfterInstall(c, l, replace, dryRun, receiptFails);
      var open := !c.target.Malformed? && !Runs(c.target, l);
      var may := open && (NoEntry(c.target) || replace);
      && (r == Refused(ConfigInvalid) <==> c.target.Malformed?)
      && (r == Noop <==> Runs(c.target, l))
      && (r == Refused(Collision) <==> open && !NoEntry(c.target) && !replace)
      && (r == Installed <==> may && NoEntry(c.target) && (dryRun || !receiptFails))
      && (r == Replaced <==> may && !NoEntry(c.target) && (dryRun || !receiptFails))
      && (r == Refused(ReceiptWriteFailed) <==> may && !dryRun && receiptFails)
      && (!(may && !dryRun && !receiptFails) ==> after == c)
      && (may && !dryRun && !receiptFails ==>
            && OnlyEntryChanged(c.target, after.target) && HasEntry(after.target, Entry(l))
            && after.receipt.Some? && after.receipt.value.installed == l
            && RemembersFor(c, after.receipt.value.previous))
  {
    CurrentIs(c.target);
    RunsIs(c.target, l);
    if c.receipt.Some? { RunsIs(c.target, c.receipt.value.installed); }
    if !c.target.Malformed? { WriteIs(c.target, Entry(l)); }
    hide ConfigsEqual, Entry, Runs, HasEntry, NoEntry, OnlyEntryChanged, Current, WithEntry, Starts, Truthy;
  }

  // ---- Repair ----

  /**
   * A repair rewrites the entry exactly when it is the receipt's and starts another launcher than the current one; the receipt
   * follows unless it cannot be written, which nobody is told.
   */
  lemma RepairAnswers(c: Config, l: Launcher, receiptFails: bool)
    ensures var (after, r) := AfterRepair(c, l, receiptFails);
      var drifted := c.receipt.Some? && Runs(c.target, c.receipt.value.installed) && !Runs(c.target, l);
      && (r == Replaced <==> drifted && !receiptFails) && (r == Replaced || r == NothingToRepair)
      && (!drifted ==> after == c)
      && (drifted ==>
            && OnlyEntryChanged(c.target, after.target) && HasEntry(after.target, Entry(l))
            && after.receipt == if receiptFails then c.receipt else Some(Receipt(l, c.receipt.value.previous)))
  {
    CurrentIs(c.target);
    RunsIs(c.target, l);
    if c.receipt.Some? { RunsIs(c.target, c.receipt.value.installed); }
    if !c.target.Malformed? { WriteIs(c.target, Entry(l)); }
    hide ConfigsEqual, Entry, HasEntry, NoEntry, OnlyEntryChanged, Current, WithEntry, Starts, Truthy;
  }

  // ---- Uninstall ----

  /**
   * An uninstall is refused without a receipt, for a malformed file, for an entry that is not the receipt's, and for a
   * receipt that cannot be removed; with no entry there is nothing to do but to drop the receipt. Otherwise it puts back what
   * the receipt remembers, or removes the entry. A dry run changes nothing.
   */
  lemma UninstallAnswers(c: Config, dryRun: bool, receiptStuck: bool)
    ensures var (after, r) := AfterUninstall(c, dryRun, receiptStuck);
      var known := c.receipt.Some? && !c.target.Malformed?;
      var ours := c.receipt.Some? && Runs(c.target, c.receipt.value.installed);
      && (r == Refused(ReceiptMissing) <==> c.receipt.None?)
      && (r == Refused(ConfigInvalid) <==> c.receipt.Some? && c.target.Malformed?)
      && (r == AlreadyAbsent <==> known && NoEntry(c.target))
      && (r == Refused(UninstallCollision) <==> known && !NoEntry(c.target) && !ours)
      && (r == Refused(ReceiptRemoveFailed) <==> ours && !dryRun && receiptStuck)
      && (r == Restored <==> ours && (dryRun || !receiptStuck) && c.receipt.value.previous.Some?)
      && (r == Removed <==> ours && (dryRun || !receiptStuck) && c.receipt.value.previous.None?)
      && (dryRun || r.Refused? ==> after == c)
      && (!dryRun && r == AlreadyAbsent ==> after == Config(c.target, None))
      && (!dryRun && (r == Restored || r == Removed) ==>
            && after.receipt.None? && OnlyEntryChanged(c.target, after.target)
            && if r == Restored then HasEntry(after.target, c.receipt.value.previous.value) else NoEntry(after.target))
  {
    CurrentIs(c.target);
    if c.receipt.Some? { RunsIs(c.target, c.receipt.value.installed); }
    if !c.target.Malformed? {
      var entry := if c.receipt.Some? && c.receipt.value.previous.Some? then c.receipt.value.previous.value else Null;
      WriteIs(c.target, entry);
    }
    hide ConfigsEqual, Entry, HasEntry, NoEntry, OnlyEntryChanged, Current, WithEntry, WithoutEntry, Starts, Truthy, Runs;
  }
}
