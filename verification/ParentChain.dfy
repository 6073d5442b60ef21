/** Where the parents missing from a retained tail went: the early-stopping scan of the omitted lines. */
module ParentChain {
  import opened Wrappers
  import opened Utf8
  import opened RecoveryScan

  // ---- Reading one line ----

  /** What JSON.parse makes of a line: its first string id and parent, and whether it names a type or role. */
  datatype Parsed =
    | Malformed
    | NotObject
    | Record(id: Option<string>, parent: Option<string>, typed: bool)

  /** The parser and the escape decoder are parameters. */
  datatype Reader = Reader(parse: string -> Parsed, decodeEscapes: string -> string)

  function HexDigit(n: int): char
    requires 0 <= n < 16
  {
    "0123456789abcdef"[n]
  }

  function JsonChar(c: char): (escaped: string)
    ensures escaped != ""
  {
    if c == '\"' then "\\\"" else if c == '\\' then "\\\\"
    else if c == '\U{8}' then "\\b" else if c == '\t' then "\\t" else if c == '\n' then "\\n"
    else if c == '\U{C}' then "\\f" else if c == '\r' then "\\r"
    else if (c as int) < 32 then "\\u00" + [HexDigit(c as int / 16), HexDigit(c as int % 16)]
    else [c]
  }

  /** JSON.stringify of a string, without the quotes. */
  function JsonBody(text: string): (body: string)
    ensures text != "" ==> body != ""
  {
    if text == "" then "" else JsonChar(text[0]) + JsonBody(text[1..])
  }

  predicate Includes(text: string, part: string) {
    part <= text || (text != "" && Includes(text[1..], part))
  }

  predicate LineMatchesParent(reader: Reader, line: string, parent: string) {
    || Includes(line, parent)
    || Includes(reader.decodeEscapes(line), parent)
    || Includes(line, JsonBody(parent)) || Includes(reader.decodeEscapes(line), JsonBody(parent))
  }

  /** The alternation built once from every missing parent. */
  ghost predicate SearchRegexMatches(missing: set<string>, text: string) {
    exists parent :: parent in missing &&
      ((parent != "" && Includes(text, parent)) || (JsonBody(parent) != "" && Includes(text, JsonBody(parent))))
  }

  /** The test on the raw and the decoded line lets every match through. */
  lemma PrefilterSound(reader: Reader, missing: set<string>, line: string, parent: string)
    requires parent in missing && parent != "" && LineMatchesParent(reader, line, parent)
    ensures SearchRegexMatches(missing, line) || SearchRegexMatches(missing, reader.decodeEscapes(line))
  {
    hide Includes;
  }

  predicate HasId(reader: Reader, line: string, id: string) {
    reader.parse(line).Record? && reader.parse(line).id == Some(id)
  }

  predicate MalformedMatch(reader: Reader, line: string, parent: string) {
    reader.parse(line).Malformed? && LineMatchesParent(reader, line, parent)
  }

  ghost predicate SomeHasId(reader: Reader, lines: seq<string>, id: string) {
    exists k :: 0 <= k < |lines| && HasId(reader, lines[k], id)
  }

  ghost predicate SomeMalformedMatch(reader: Reader, lines: seq<string>, parent: string) {
    exists k :: 0 <= k < |lines| && MalformedMatch(reader, lines[k], parent)
  }

  // ---- Checking lines one by one ----

  datatype Sets = Sets(found: set<string>, unverified: set<string>, candidates: set<string>)

  /** What the three sets mean after the given lines. */
  ghost predicate Checked(reader: Reader, missing: set<string>, lines: seq<string>, sets: Sets) {
    && (forall p :: p in sets.found <==> p in missing && SomeHasId(reader, lines, p))
    && sets.unverified <= missing
    && (forall p :: p in missing && p !in sets.found ==> (p in sets.unverified <==> SomeMalformedMatch(reader, lines, p)))
    && (forall p :: p in sets.candidates <==> p in missing && p !in sets.found && p !in sets.unverified)
  }

  lemma SomeAppend(reader: Reader, lines: seq<string>, line: string, p: string)
    ensures SomeHasId(reader, lines + [line], p) <==> SomeHasId(reader, lines, p) || HasId(reader, line, p)
    ensures SomeMalformedMatch(reader, lines + [line], p) <==>
      SomeMalformedMatch(reader, lines, p) || MalformedMatch(reader, line, p)
  {
    hide HasId, MalformedMatch;
    var more := lines + [line];
    assert more[|lines|] == line;
    if k :| 0 <= k < |lines| && HasId(reader, lines[k], p) { assert more[k] == lines[k]; }
    if k :| 0 <= k < |lines| && MalformedMatch(reader, lines[k], p) { assert more[k] == lines[k]; }
  }

  /** One line of the scan; done when every missing parent has been found. */
  method CheckLine(reader: Reader, missing: set<string>, line: string, before: Sets, ghost lines: seq<string>)
    returns (done: bool, sets: Sets)
    requires "" !in missing && Checked(reader, missing, lines, before)
    ensures Checked(reader, missing, lines + [line], sets)
    ensures done ==> sets.found == missing
  {
    hide Includes, LineMatchesParent, SomeHasId, SomeMalformedMatch, SearchRegexMatches;
    forall p {
      SomeAppend(reader, lines, line, p);
    }
    sets, done := before, false;
    var parsed := reader.parse(line);
    if parsed.Record? && parsed.id.Some? && parsed.id.value in missing {
      var id := parsed.id.value;
      sets := Sets(sets.found + {id}, sets.unverified, sets.candidates - {id});
      if |sets.found| == |missing| {
        SubsetSameSize(sets.found, missing);
        done := true;
      }
    } else if parsed.Malformed? && sets.candidates != {} {
      var pass := RegexTest(reader, missing, line);
      if pass {
        var matched := set p | p in sets.candidates && LineMatchesParent(reader, line, p);
        sets := Sets(sets.found, sets.unverified + matched, sets.candidates - matched);
      } else {
        forall p | p in missing && LineMatchesParent(reader, line, p) ensures false {
          PrefilterSound(reader, missing, line, p);
        }
      }
    }
  }

  method RegexTest(reader: Reader, missing: set<string>, line: string) returns (pass: bool)
    ensures pass <==> SearchRegexMatches(missing, line) || SearchRegexMatches(missing, reader.decodeEscapes(line))
  {
    hide Includes, JsonBody;
    var decoded := reader.decodeEscapes(line);
    pass := false;
    var left := missing;
    while left != {}
      invariant left <= missing
      invariant pass <==> SearchRegexMatches(missing - left, line) || SearchRegexMatches(missing - left, decoded)
      decreases left
    {
      var parent :| parent in left;
      var encoded := JsonBody(parent);
      pass := pass || (parent != "" && (Includes(line, parent) || Includes(decoded, parent)))
              || (encoded != "" && (Includes(line, encoded) || Includes(decoded, encoded)));
      RegexStep(missing - left, parent, line);
      RegexStep(missing - left, parent, decoded);
      assert missing - (left - {parent}) == (missing - left) + {parent};
      left := left - {parent};
    }
    assert missing - left == missing;
  }

  lemma RegexStep(missing: set<string>, parent: string, text: string)
    ensures SearchRegexMatches(missing + {parent}, text) <==>
      || SearchRegexMatches(missing, text)
      || (parent != "" && Includes(text, parent)) || (JsonBody(parent) != "" && Includes(text, JsonBody(parent)))
  {
    hide Includes, JsonBody;
    assert parent in missing + {parent};
    forall p | p in missing ensures p in missing + {parent} {}
  }

  lemma SubsetSameSize(a: set<string>, b: set<string>)
    requires a <= b && |a| == |b|
    ensures a == b
  {
    if x :| x in b && x !in a {
      assert a <= b - {x};
      SubsetSize(a, b - {x});
      assert false;
    }
  }

  lemma {:induction false} SubsetSize(a: set<string>, b: set<string>)
    requires a <= b
    ensures |a| <= |b|
    decreases |a|
  {
    if a != {} {
      var x :| x in a;
      SubsetSize(a - {x}, b - {x});
    }
  }

  // ---- The scan of the omitted lines ----

  lemma {:induction false} TerminatedPrefix(text: string, n: nat)
    requires n <= |text|
    ensures Terminated(text[..n]) <= Terminated(text)
    decreases |text| - n
  {
    hide Terminated, Tail;
    if n < |text| {
      assert text[..n + 1] == text[..n] + [text[n]];
      AppendChar(text[..n], text[n]);
      TerminatedPrefix(text, n + 1);
    } else {
      assert text[..n] == text;
    }
  }

  /** The first lines of a text, as the main scan cleaned them. */
  function Omitted(text: string, count: nat): seq<string>
    requires count <= |Terminated(text)|
  {
    seq(count, i requires 0 <= i < count => Clean(Terminated(text)[i]))
  }

  datatype Progress = Progress(linesRead: nat, sets: Sets)

  ghost predicate Progressed(reader: Reader, missing: set<string>, text: string, count: nat, p: Progress) {
    && "" !in missing
    && p.linesRead <= count <= |Terminated(text)|
    && Checked(reader, missing, Omitted(text, p.linesRead), p.sets)
  }

  /** The scan may stop: nothing is left to read, or nothing is left to find. */
  ghost predicate MayStop(missing: set<string>, count: nat, p: Progress) {
    p.linesRead == count || p.sets.found == missing
  }

  lemma OmittedStep(text: string, seen: string, used: string, n: nat)
    requires seen + used + "\n" <= text && '\n' !in used && n == |Terminated(seen)|
    ensures n + 1 <= |Terminated(text)| && |Terminated(seen + used + "\n")| == n + 1
    ensures Omitted(text, n + 1) == Omitted(text, n) + [Clean(Tail(seen) + used)]
  {
    hide Terminated, Tail, Clean;
    AppendLine(seen, used);
    var longer := seen + used + "\n";
    assert longer == text[..|longer|];
    TerminatedPrefix(text, |longer|);
    assert Terminated(longer)[n] == Tail(seen) + used;
  }

  method CheckNext(reader: Reader, missing: set<string>, count: nat, cleaned: string, before: Progress,
                   ghost seen: string, ghost used: string, ghost text: string)
    returns (stop: bool, progress: Progress)
    requires Progressed(reader, missing, text, count, before) && before.linesRead == |Terminated(seen)| < count
    requires seen + used + "\n" <= text && '\n' !in used && cleaned == Clean(Tail(seen) + used)
    ensures Progressed(reader, missing, text, count, progress)
    ensures progress.linesRead == |Terminated(seen + used + "\n")| && (!stop ==> progress.linesRead < count)
    ensures stop ==> MayStop(missing, count, progress)
  {
    hide Terminated, Tail, Clean, Checked;
    OmittedStep(text, seen, used, before.linesRead);
    var sets;
    stop, sets := CheckLine(reader, missing, cleaned, before.sets, Omitted(text, before.linesRead));
    progress := Progress(before.linesRead + 1, sets);
    stop := stop || progress.linesRead >= count;
  }

  /** Check every complete line of the carried text until the scan may stop. */
  method CheckLines(reader: Reader, missing: set<string>, count: nat, carried: string, before: Progress,
                    ghost start: string, ghost chunk: string, ghost text: string)
    returns (stop: bool, remainder: string, progress: Progress)
    requires Progressed(reader, missing, text, count, before) && before.linesRead == |Terminated(start)| < count
    requires start + chunk <= text && carried == Tail(start) + chunk
    ensures Progressed(reader, missing, text, count, progress)
    ensures stop ==> MayStop(missing, count, progress)
    ensures !stop ==>
      progress.linesRead == |Terminated(start + chunk)| && progress.linesRead < count && remainder == Tail(start + chunk)
  {
    hide Terminated, Tail, Clean, Progressed, IndexOf, MayStop;
    stop, remainder, progress := false, carried, before;
    ghost var seen, unseen := start, chunk;
    var newlineIndex := IndexOf(remainder, '\n');
    while newlineIndex != -1 && !stop
      invariant seen + unseen == start + chunk && remainder == Tail(seen) + unseen
      invariant Progressed(reader, missing, text, count, progress) && progress.linesRead == |Terminated(seen)|
      invariant if stop then MayStop(missing, count, progress) else progress.linesRead < count
      invariant newlineIndex == IndexOf(remainder, '\n')
      decreases |remainder|
    {
      var lineStr := remainder[..newlineIndex];
      ghost var used, rest := LineConsumed(seen, unseen, remainder, newlineIndex);
      lineStr := CleanLine(lineStr);
      remainder := remainder[newlineIndex + 1..];
      stop, progress := CheckNext(reader, missing, count, lineStr, progress, seen, used, text);
      AppendLine(seen, used);
      seen, unseen := seen + used + "\n", rest;
      newlineIndex := IndexOf(remainder, '\n');
    }
    if !stop {
      TailHasNoNewline(seen);
      assert '\n' !in unseen;
      AppendPlain(seen, unseen);
    }
  }

  datatype Carry = Carry(remainder: string, discardingOversized: bool, oversizedLine: string)

  ghost predicate CarriesPrefix(carry: Carry, text: string) {
    if carry.discardingOversized then carry.remainder == "" && Carries(carry.oversizedLine, true, text)
    else Carries(carry.remainder, false, text)
  }

  /** While an oversized line is being discarded: the rest of it, and its check once its newline has arrived. */
  method SkipOversizedLine(reader: Reader, missing: set<string>, count: nat, carry: Carry, chunk: string, before: Progress,
                           ghost start: string, ghost text: string)
    returns (discarding: bool, stop: bool, progress: Progress, rest: string, ghost seen: string)
    requires Progressed(reader, missing, text, count, before) && before.linesRead == |Terminated(start)| < count
    requires start + chunk <= text && CarriesPrefix(carry, start) && carry.discardingOversized
    ensures Progressed(reader, missing, text, count, progress)
    ensures discarding ==>
      && progress.linesRead == |Terminated(start + chunk)| && progress.linesRead < count
      && CarriesPrefix(carry, start + chunk)
    ensures !discarding && stop ==> MayStop(missing, count, progress)
    ensures !discarding && !stop ==>
      && seen + rest == start + chunk && Tail(seen) == ""
      && progress.linesRead == |Terminated(seen)| && progress.linesRead < count
  {
    hide Terminated, Tail, Clean, Fitting, Encode, Progressed, IndexOf, MayStop;
    var nl := IndexOf(chunk, '\n');
    if nl == -1 {
      AppendPlain(start, chunk);
      FittingDecided(Tail(start), chunk);
      return true, false, before, "", "";
    }
    ghost var used := chunk[..nl];
    discarding, rest, seen := false, chunk[nl + 1..], start + used + "\n";
    assert chunk == used + "\n" + rest;
    assert seen + rest == start + chunk && seen <= text;
    FittingDecided(Tail(start), used);
    OversizedClean(Tail(start) + used);
    AppendLine(start, used);
    stop, progress := CheckNext(reader, missing, count, carry.oversizedLine, before, start, used, text);
  }

  method CheckChunk(reader: Reader, missing: set<string>, count: nat, before: Carry, chunk: string, earlier: Progress,
                    ghost start: string, ghost text: string)
    returns (stop: bool, carry: Carry, progress: Progress)
    requires Progressed(reader, missing, text, count, earlier) && earlier.linesRead == |Terminated(start)| < count
    requires start + chunk <= text && CarriesPrefix(before, start)
    ensures Progressed(reader, missing, text, count, progress)
    ensures stop ==> MayStop(missing, count, progress)
    ensures !stop ==>
      && progress.linesRead == |Terminated(start + chunk)| && progress.linesRead < count
      && CarriesPrefix(carry, start + chunk)
  {
    hide Terminated, Tail, Clean, Fitting, Encode, Progressed, MayStop;
    var chunkText, remainder := chunk, before.remainder;
    ghost var seen := start;
    carry, progress := before, earlier;
    if before.discardingOversized {
      var discarding;
      discarding, stop, progress, chunkText, seen := SkipOversizedLine(reader, missing, count, before, chunk, earlier, start, text);
      if discarding {
        return false, carry, progress;
      }
      if stop {
        return;
      }
    }
    remainder := remainder + chunkText;
    stop, remainder, progress := CheckLines(reader, missing, count, remainder, progress, seen, chunkText, text);
    if ByteLength(remainder) > MAX_LINE_BYTES {
      var cut := TruncateToUtf8Bytes(remainder, MAX_LINE_BYTES);
      carry := Carry("", true, cut);
    } else {
      carry := Carry(remainder, false, "");
    }
  }

  /** What the two result sets say about the omitted lines, all of them. */
  ghost predicate Located(reader: Reader, missing: set<string>, lines: seq<string>, sets: Sets) {
    && (forall p :: p in sets.found <==> p in missing && SomeHasId(reader, lines, p))
    && sets.unverified <= missing
    && (forall p :: p in missing && p !in sets.found ==> (p in sets.unverified <==> SomeMalformedMatch(reader, lines, p)))
  }

  lemma StoppedEarly(reader: Reader, missing: set<string>, text: string, count: nat, p: Progress)
    requires Progressed(reader, missing, text, count, p) && MayStop(missing, count, p)
    ensures Located(reader, missing, Omitted(text, count), p.sets)
  {
    hide Terminated, Clean, HasId, MalformedMatch;
    if p.linesRead < count {
      forall id | id in missing ensures SomeHasId(reader, Omitted(text, count), id) {
        var k :| 0 <= k < p.linesRead && HasId(reader, Omitted(text, p.linesRead)[k], id);
        assert Omitted(text, count)[k] == Omitted(text, p.linesRead)[k];
      }
    }
  }

  /** Reading may stop long before the omitted lines end; the verdict is as if all of them had been read. */
  method ScanPrefix(reader: Reader, missing: set<string>, chunks: seq<seq<byte>>, count: nat, ghost text: string)
    returns (sets: Sets)
    requires Flatten(chunks) == Encode(text) && count <= |Terminated(text)| && "" !in missing
    ensures Located(reader, missing, Omitted(text, count), sets)
  {
    hide Encode, Decode, Terminated, Tail, Clean, Progressed, MayStop, CarriesPrefix, Located, Carries;
    var progress := Progress(0, Sets({}, {}, missing));
    var carry := Carry("", false, "");
    var pending: seq<byte>, k, stop := [], 0, false;
    ghost var got := "";
    PrefixStart(reader, missing, text, count);
    assert chunks[..0] == [] && chunks[..|chunks|] == chunks;
    while progress.linesRead < count && |progress.sets.found| < |missing| && !stop && k < |chunks|
      invariant k <= |chunks| && Progressed(reader, missing, text, count, progress)
      invariant stop ==> MayStop(missing, count, progress)
      invariant !stop ==>
        && DecodedSoFar(Flatten(chunks[..k]), got, pending, text) && (k == |chunks| ==> got == text)
        && progress.linesRead == |Terminated(got)| && CarriesPrefix(carry, got)
      decreases |chunks| - k
    {
      ReadChunk(chunks, k, got, pending, text);
      var decoded := Decode(pending + chunks[k]);
      pending := decoded.1;
      stop, carry, progress := CheckChunk(reader, missing, count, carry, decoded.0, progress, got, text);
      got := got + decoded.0;
      k := k + 1;
    }
    PrefixEnd(reader, missing, text, count, progress, stop, k == |chunks|);
    StoppedEarly(reader, missing, text, count, progress);
    sets := progress.sets;
  }

  lemma PrefixStart(reader: Reader, missing: set<string>, text: string, count: nat)
    requires count <= |Terminated(text)| && "" !in missing
    ensures Progressed(reader, missing, text, count, Progress(0, Sets({}, {}, missing)))
    ensures Terminated("") == [] && CarriesPrefix(Carry("", false, ""), "")
    ensures DecodedSoFar([], "", [], text) && (Encode(text) == [] ==> text == "")
  {
    hide HasId, MalformedMatch;
    assert Omitted(text, 0) == [];
  }

  lemma PrefixEnd(reader: Reader, missing: set<string>, text: string, count: nat, p: Progress, stop: bool, atEnd: bool)
    requires Progressed(reader, missing, text, count, p)
    requires stop ==> MayStop(missing, count, p)
    requires !stop && atEnd ==> p.linesRead == |Terminated(text)|
    requires p.linesRead >= count || |p.sets.found| >= |missing| || stop || atEnd
    ensures MayStop(missing, count, p)
  {
    hide Terminated, Clean, SomeHasId, SomeMalformedMatch;
    if |p.sets.found| >= |missing| {
      SubsetSize(p.sets.found, missing);
      SubsetSameSize(p.sets.found, missing);
    }
  }
}
