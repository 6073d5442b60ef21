/** The streaming scan of a transcript: the same lines whatever the reads, bounded in count and bytes. */
module RecoveryScan {
  import opened Wrappers
  import opened Utf8
  import opened LineRing

  const RECOVERY_LINE_LIMIT: nat := 900
  const MAX_SOURCE_BYTES: nat := 128 * 1024 * 1024
  const MAX_TAIL_BYTES: nat := 16 * 1024 * 1024
  const MAX_LINE_BYTES: nat := 1024 * 1024

  // ---- The lines of a whole text ----

  /** The lines ended by a newline. */
  function Terminated(text: string): seq<string> {
    if text == "" then []
    else
      var init, last := text[..|text| - 1], text[|text| - 1];
      if last == '\n' then Terminated(init) + [Tail(init)] else Terminated(init)
  }

  /** What follows the last newline. */
  function Tail(text: string): string {
    if text == "" || text[|text| - 1] == '\n' then "" else Tail(text[..|text| - 1]) + [text[|text| - 1]]
  }

  function StripCr(line: string): string {
    if line != "" && line[|line| - 1] == '\r' then line[..|line| - 1] else line
  }

  /** A line as it is kept: without its carriage return, cut at the last character boundary within the limit. */
  function Clean(line: string): string {
    Fitting(StripCr(line), MAX_LINE_BYTES)
  }

  function CleanLines(lines: seq<string>): seq<Line> {
    seq(|lines|, i requires 0 <= i < |lines| => Line(Clean(lines[i]), false))
  }

  /** Every line of a text, the unterminated last one included unless it is empty. */
  function LinesOf(text: string): seq<Line> {
    CleanLines(Terminated(text)) + if Tail(text) == "" then [] else [Line(Clean(Tail(text)), true)]
  }

  lemma AppendChar(text: string, c: char)
    ensures Terminated(text + [c]) == if c == '\n' then Terminated(text) + [Tail(text)] else Terminated(text)
    ensures Tail(text + [c]) == if c == '\n' then "" else Tail(text) + [c]
  {
    assert (text + [c])[..|text|] == text;
  }

  lemma {:induction false} AppendPlain(text: string, more: string)
    requires '\n' !in more
    ensures Terminated(text + more) == Terminated(text)
    ensures Tail(text + more) == Tail(text) + more
  {
    hide Terminated, Tail;
    if more == "" {
      assert text + more == text;
    } else {
      var init, last := more[..|more| - 1], more[|more| - 1];
      AppendPlain(text, init);
      assert text + more == (text + init) + [last] && more == init + [last];
      AppendChar(text + init, last);
    }
  }

  lemma AppendLine(text: string, more: string)
    requires '\n' !in more
    ensures Terminated(text + more + "\n") == Terminated(text) + [Tail(text) + more]
    ensures Tail(text + more + "\n") == ""
  {
    hide Terminated, Tail;
    AppendPlain(text, more);
    AppendChar(text + more, '\n');
  }

  lemma CleanLinesStep(lines: seq<string>, line: string)
    ensures CleanLines(lines + [line]) == CleanLines(lines) + [Line(Clean(line), false)]
  {
  }

  lemma {:induction false} TailHasNoNewline(text: string)
    ensures '\n' !in Tail(text)
  {
    if text != "" && text[|text| - 1] != '\n' {
      TailHasNoNewline(text[..|text| - 1]);
    }
  }

  // ---- Oversized lines ----

  /** Once a line is over the limit, nothing that follows changes what is kept of it. */
  lemma FittingDecided(line: string, more: string)
    requires ByteLength(line) > MAX_LINE_BYTES
    ensures Fitting(line + more, MAX_LINE_BYTES) == Fitting(line, MAX_LINE_BYTES)
    ensures ByteLength(line + more) > MAX_LINE_BYTES
  {
    hide Encode, Fitting;
    var whole := line + more;
    FittingIsLongest(line, MAX_LINE_BYTES);
    FittingIsLongest(whole, MAX_LINE_BYTES);
    EncodeAppend(line, more);
    assert whole[..|line|] == line && line[..|line|] == line;
    var a, b := |Fitting(line, MAX_LINE_BYTES)|, |Fitting(whole, MAX_LINE_BYTES)|;
    assert a < |line| && b < |line|;
    assert whole[..a] == line[..a] && whole[..b] == line[..b];
  }

  /** For an oversized line, stripping the carriage return first makes no difference. */
  lemma OversizedClean(line: string)
    requires ByteLength(line) > MAX_LINE_BYTES
    ensures Clean(line) == Fitting(line, MAX_LINE_BYTES)
  {
    hide Encode, Fitting;
    var stripped := StripCr(line);
    if stripped != line {
      assert line == stripped + "\r";
      EncodeAppend(stripped, "\r");
      EncodeSingle('\r');
      if ByteLength(stripped) > MAX_LINE_BYTES {
        FittingDecided(stripped, "\r");
      } else {
        FittingIsLongest(stripped, MAX_LINE_BYTES);
        FittingIsLongest(line, MAX_LINE_BYTES);
        assert stripped[..|stripped|] == stripped == line[..|stripped|] && line[..|line|] == line;
      }
    }
  }

  lemma SmallClean(line: string)
    requires ByteLength(line) <= MAX_LINE_BYTES
    ensures Fitting(line, MAX_LINE_BYTES) == line
  {
    FittingIsLongest(line, MAX_LINE_BYTES);
    assert line[..|line|] == line;
  }

  // ---- The scan ----

  /** What the carried text and the discard flag mean after the given text. */
  ghost predicate Carries(remainder: string, discardingOversized: bool, text: string) {
    if discardingOversized then
      ByteLength(Tail(text)) > MAX_LINE_BYTES && remainder == Fitting(Tail(text), MAX_LINE_BYTES)
    else remainder == Tail(text)
  }

  /** The lines pushed after the given text. */
  ghost predicate Pushed(ring: LineRingBuffer, sourceLines: nat, text: string)
    reads ring, ring.buffer
  {
    ring.Valid() && ring.pushed == CleanLines(Terminated(text)) && sourceLines == |Terminated(text)|
  }

  function IndexOf(text: string, c: char): (i: int)
    ensures -1 <= i < |text|
    ensures i == -1 ==> c !in text
    ensures i >= 0 ==> text[i] == c && c !in text[..i]
  {
    if text == "" then -1
    else if text[0] == c then 0
    else
      var i := IndexOf(text[1..], c);
      assert i >= 0 ==> text[..i + 1] == [text[0]] + text[1..][..i];
      if i == -1 then -1 else i + 1
  }

  method CleanLine(line: string) returns (cleaned: string)
    ensures cleaned == Clean(line)
  {
    hide Encode, Fitting;
    cleaned := StripCr(line);
    if ByteLength(cleaned) > MAX_LINE_BYTES {
      cleaned := TruncateToUtf8Bytes(cleaned, MAX_LINE_BYTES);
    } else {
      SmallClean(cleaned);
    }
  }

  /** Count and push one terminated line. */
  method PushLine(ring: LineRingBuffer, cleaned: string, lines: nat, ghost seen: string, ghost used: string)
    returns (sourceLines: nat)
    requires Pushed(ring, lines, seen) && '\n' !in used && cleaned == Clean(Tail(seen) + used)
    modifies ring`head, ring`count, ring`totalBytes, ring`inMemoryBytes, ring`entries, ring`pushed, ring.buffer
    ensures Pushed(ring, sourceLines, seen + used + "\n") && Tail(seen + used + "\n") == ""
  {
    hide Terminated, Tail, Clean;
    sourceLines := lines + 1;
    ring.Push(cleaned, false);
    AppendLine(seen, used);
    CleanLinesStep(Terminated(seen), Tail(seen) + used);
  }

  /** Push every complete line of the carried text and return what follows the last newline. */
  method PushLines(ring: LineRingBuffer, carried: string, lines: nat, ghost before: string, ghost text: string)
    returns (remainder: string, sourceLines: nat)
    requires Pushed(ring, lines, before) && carried == Tail(before) + text
    modifies ring`head, ring`count, ring`totalBytes, ring`inMemoryBytes, ring`entries, ring`pushed, ring.buffer
    ensures Pushed(ring, sourceLines, before + text) && remainder == Tail(before + text)
  {
    hide Terminated, Tail, Clean, Pushed, IndexOf;
    remainder, sourceLines := carried, lines;
    ghost var seen, unseen := before, text;
    var newlineIndex := IndexOf(remainder, '\n');
    while newlineIndex != -1
      invariant Pushed(ring, sourceLines, seen) && remainder == Tail(seen) + unseen && seen + unseen == before + text
      invariant newlineIndex == IndexOf(remainder, '\n')
      decreases |remainder|
    {
      var lineStr := remainder[..newlineIndex];
      ghost var used, rest := LineConsumed(seen, unseen, remainder, newlineIndex);
      lineStr := CleanLine(lineStr);
      remainder := remainder[newlineIndex + 1..];
      sourceLines := PushLine(ring, lineStr, sourceLines, seen, used);
      seen, unseen := seen + used + "\n", rest;
      newlineIndex := IndexOf(remainder, '\n');
    }
    TailHasNoNewline(seen);
    assert '\n' !in unseen;
    AppendPlain(seen, unseen);
    SamePushed(ring, sourceLines, seen, unseen);
  }

  /** The first newline of the carried text is the first of the part not yet split. */
  lemma LineConsumed(seen: string, unseen: string, remainder: string, newlineIndex: int) returns (used: string, rest: string)
    requires remainder == Tail(seen) + unseen && newlineIndex == IndexOf(remainder, '\n') != -1
    ensures '\n' !in used && seen + used + "\n" + rest == seen + unseen
    ensures remainder[..newlineIndex] == Tail(seen) + used && remainder[newlineIndex + 1..] == rest
  {
    hide Terminated, Tail, IndexOf;
    TailHasNoNewline(seen);
    var n := |Tail(seen)|;
    assert newlineIndex >= n by {
      assert forall k :: 0 <= k < n ==> remainder[k] == Tail(seen)[k];
    }
    used, rest := unseen[..newlineIndex - n], unseen[newlineIndex - n + 1..];
    assert unseen == used + "\n" + rest;
    assert remainder[..newlineIndex] == Tail(seen) + used;
    forall k | 0 <= k < |used| ensures used[k] != '\n' {
      assert remainder[..newlineIndex][n + k] == used[k];
    }
  }

  /** While an oversized line is being discarded: the rest of it, up to its newline if that has arrived. */
  method SkipOversized(ring: LineRingBuffer, carried: string, lines: nat, chunk: string, ghost before: string)
    returns (discardingOversized: bool, sourceLines: nat, rest: string, ghost seen: string)
    requires Pushed(ring, lines, before) && Carries(carried, true, before)
    modifies ring`head, ring`count, ring`totalBytes, ring`inMemoryBytes, ring`entries, ring`pushed, ring.buffer
    ensures discardingOversized ==> Pushed(ring, sourceLines, before + chunk) && Carries(carried, true, before + chunk)
    ensures !discardingOversized ==> Pushed(ring, sourceLines, seen) && Tail(seen) == "" && seen + rest == before + chunk
  {
    hide Terminated, Tail, Clean, Fitting, Encode, Pushed, IndexOf;
    var nl := IndexOf(chunk, '\n');
    if nl == -1 {
      AppendPlain(before, chunk);
      FittingDecided(Tail(before), chunk);
      SamePushed(ring, lines, before, chunk);
      return true, lines, "", "";
    }
    ghost var used := chunk[..nl];
    FittingDecided(Tail(before), used);
    OversizedClean(Tail(before) + used);
    sourceLines := PushLine(ring, carried, lines, before, used);
    discardingOversized := false;
    rest, seen := chunk[nl + 1..], before + used + "\n";
    assert chunk == used + "\n" + rest;
  }

  lemma SamePushed(ring: LineRingBuffer, lines: nat, before: string, chunk: string)
    requires Pushed(ring, lines, before) && '\n' !in chunk
    ensures Pushed(ring, lines, before + chunk)
  {
    AppendPlain(before, chunk);
  }

  /** The effect of one piece of decoded text. */
  method ProcessText(ring: LineRingBuffer, carried: string, discarding: bool, lines: nat, chunk: string, ghost before: string)
    returns (remainder: string, discardingOversized: bool, sourceLines: nat)
    requires Pushed(ring, lines, before) && Carries(carried, discarding, before)
    modifies ring`head, ring`count, ring`totalBytes, ring`inMemoryBytes, ring`entries, ring`pushed, ring.buffer
    ensures Pushed(ring, sourceLines, before + chunk) && Carries(remainder, discardingOversized, before + chunk)
  {
    hide Terminated, Tail, Clean, Fitting, Encode, Pushed;
    remainder, discardingOversized, sourceLines := carried, discarding, lines;
    var chunkText := chunk;
    ghost var seen := before;
    if discardingOversized {
      discardingOversized, sourceLines, chunkText, seen := SkipOversized(ring, remainder, sourceLines, chunk, before);
      if discardingOversized {
        return;
      }
      remainder := "";
    }
    remainder := remainder + chunkText;
    remainder, sourceLines := PushLines(ring, remainder, sourceLines, seen, chunkText);
    if ByteLength(remainder) > MAX_LINE_BYTES {
      remainder := TruncateToUtf8Bytes(remainder, MAX_LINE_BYTES);
      discardingOversized := true;
    }
  }

  datatype ScanError = SourceTooLarge | TailTooLarge

  datatype ScannedTail = ScannedTail(lines: seq<Line>, sourceLines: nat)

  function Flatten(chunks: seq<seq<byte>>): seq<byte> {
    if chunks == [] then [] else Flatten(chunks[..|chunks| - 1]) + chunks[|chunks| - 1]
  }

  lemma {:induction false} FlattenPrefix(chunks: seq<seq<byte>>, n: nat)
    requires n <= |chunks|
    ensures Flatten(chunks[..n]) <= Flatten(chunks)
    decreases |chunks| - n
  {
    if n < |chunks| {
      assert chunks[..n + 1][..n] == chunks[..n];
      FlattenPrefix(chunks, n + 1);
    } else {
      assert chunks[..n] == chunks;
    }
  }

  /** The decoder has consumed a prefix of the source: some characters and the start of the next. */
  ghost predicate DecodedSoFar(consumed: seq<byte>, got: string, pending: seq<byte>, text: string) {
    got <= text && consumed == Encode(got) + pending && consumed <= Encode(text)
  }

  lemma PrefixCancel(a: seq<byte>, b: seq<byte>, whole: seq<byte>, c: seq<byte>)
    requires a + b <= whole && whole == a + c
    ensures |b| <= |c| && b == c[..|b|]
  {
    forall i | 0 <= i < |b| ensures b[i] == c[i] {
      assert (a + b)[|a| + i] == whole[|a| + i];
    }
  }

  /** StringDecoder.write on the next chunk. */
  lemma DecodeChunk(consumed: seq<byte>, got: string, pending: seq<byte>, chunk: seq<byte>, text: string)
    requires DecodedSoFar(consumed, got, pending, text) && consumed + chunk <= Encode(text)
    ensures var (more, rest) := Decode(pending + chunk);
      DecodedSoFar(consumed + chunk, got + more, rest, text) && (consumed + chunk == Encode(text) ==> got + more == text)
  {
    hide Encode, Decode;
    var left := text[|got|..];
    assert text == got + left;
    EncodeAppend(got, left);
    assert consumed + chunk == Encode(got) + (pending + chunk);
    PrefixCancel(Encode(got), pending + chunk, Encode(text), Encode(left));
    DecodePrefix(left, |pending + chunk|);
    var (more, rest) := Decode(pending + chunk);
    EncodeAppend(got, more);
    assert Encode(got + more) + rest == Encode(got) + (Encode(more) + rest);
  }

  /** The end of the source: the decoder has nothing left, and an unterminated line is kept as the last one. */
  method Finish(ring: LineRingBuffer, remainder: string, discardingOversized: bool, lines: nat, ghost text: string)
    returns (sourceLines: nat)
    requires Pushed(ring, lines, text) && Carries(remainder, discardingOversized, text)
    modifies ring`head, ring`count, ring`totalBytes, ring`inMemoryBytes, ring`entries, ring`pushed, ring.buffer
    ensures ring.Valid() && ring.pushed == LinesOf(text) && sourceLines == |LinesOf(text)|
  {
    hide Terminated, Tail, Clean, Fitting;
    sourceLines := lines;
    if discardingOversized {
      OversizedClean(Tail(text));
      assert Tail(text) != "" by { assert Encode("") == []; }
      sourceLines := sourceLines + 1;
      ring.Push(remainder, true);
    } else if remainder != "" {
      var lineStr := CleanLine(remainder);
      sourceLines := sourceLines + 1;
      ring.Push(lineStr, true);
    }
  }

  lemma ScanStart(ring: LineRingBuffer, text: string)
    requires ring.Valid() && ring.pushed == []
    ensures Pushed(ring, 0, "") && Carries("", false, "")
    ensures DecodedSoFar([], "", [], text) && (Encode(text) == [] ==> text == "")
  {
  }

  /** One read of the source. */
  lemma ReadChunk(chunks: seq<seq<byte>>, k: nat, got: string, pending: seq<byte>, text: string)
    requires Flatten(chunks) == Encode(text) && k < |chunks| && DecodedSoFar(Flatten(chunks[..k]), got, pending, text)
    ensures |Flatten(chunks[..k + 1])| == |Flatten(chunks[..k])| + |chunks[k]| <= ByteLength(text)
    ensures var (more, rest) := Decode(pending + chunks[k]);
      DecodedSoFar(Flatten(chunks[..k + 1]), got + more, rest, text) && (k + 1 == |chunks| ==> got + more == text)
  {
    hide Encode, Decode, DecodedSoFar;
    FlattenPrefix(chunks, k + 1);
    assert chunks[..k + 1][..k] == chunks[..k];
    assert chunks[..|chunks|] == chunks;
    DecodeChunk(Flatten(chunks[..k]), got, pending, chunks[k], text);
  }

  /** For a well-formed source the scan keeps the last lines of the whole text, whatever the chunks. */
  method Scan(chunks: seq<seq<byte>>, ghost text: string) returns (r: Result<ScannedTail, ScanError>)
    requires Flatten(chunks) == Encode(text) && forall k :: 0 <= k < |chunks| ==> chunks[k] != []
    ensures r.Err? && r.error == SourceTooLarge <==> ByteLength(text) > MAX_SOURCE_BYTES
    ensures r.Err? && r.error == TailTooLarge <==>
      ByteLength(text) <= MAX_SOURCE_BYTES && BytesOf(LastOf(LinesOf(text), RECOVERY_LINE_LIMIT)) > MAX_TAIL_BYTES
    ensures r.Ok? ==> r.value == ScannedTail(LastOf(LinesOf(text), RECOVERY_LINE_LIMIT), |LinesOf(text)|)
  {
    hide Encode, Decode, Pushed, Carries, LinesOf, BytesOf, LastOf;
    var ring := new LineRingBuffer(RECOVERY_LINE_LIMIT, MAX_TAIL_BYTES);
    var sourceLines, bytesReadTotal := 0, 0;
    var pending: seq<byte>, remainder, discardingOversized := [], "", false;
    ghost var got := "";
    ScanStart(ring, text);
    assert chunks[..0] == [] && chunks[..|chunks|] == chunks;
    for k := 0 to |chunks|
      invariant bytesReadTotal == |Flatten(chunks[..k])| <= MAX_SOURCE_BYTES
      invariant DecodedSoFar(Flatten(chunks[..k]), got, pending, text)
      invariant Pushed(ring, sourceLines, got) && Carries(remainder, discardingOversized, got)
      invariant ring.capacity == RECOVERY_LINE_LIMIT && ring.maxBytes == MAX_TAIL_BYTES && fresh(ring) && fresh(ring.buffer)
      invariant k == |chunks| ==> got == text
    {
      ReadChunk(chunks, k, got, pending, text);
      bytesReadTotal := bytesReadTotal + |chunks[k]|;
      if bytesReadTotal > MAX_SOURCE_BYTES {
        return Err(SourceTooLarge);
      }
      var decoded := Decode(pending + chunks[k]);
      pending := decoded.1;
      remainder, discardingOversized, sourceLines :=
        ProcessText(ring, remainder, discardingOversized, sourceLines, decoded.0, got);
      got := got + decoded.0;
    }
    sourceLines := Finish(ring, remainder, discardingOversized, sourceLines, text);
    var tooLarge, lines := ring.Tail();
    if tooLarge {
      return Err(TailTooLarge);
    }
    return Ok(ScannedTail(lines, sourceLines));
  }

  // ---- What the lines amount to ----

  function Unlines(lines: seq<string>): string {
    if lines == [] then "" else Unlines(lines[..|lines| - 1]) + lines[|lines| - 1] + "\n"
  }

  /** Splitting loses nothing, and leaves no newline in a line. */
  lemma {:induction false} TextIsItsLines(text: string)
    ensures Unlines(Terminated(text)) + Tail(text) == text
    ensures forall line :: line in Terminated(text) ==> '\n' !in line
    ensures '\n' !in Tail(text)
  {
    if text != "" {
      var init, last := text[..|text| - 1], text[|text| - 1];
      TextIsItsLines(init);
      assert text == init + [last];
      if last == '\n' {
        assert (Terminated(init) + [Tail(init)])[..|Terminated(init)|] == Terminated(init);
      }
    }
  }

  /** The line is the body, or the body with one carriage return after it. */
  predicate EndsLine(line: string, body: string) {
    line == body + "\r" || (line == body && (body == "" || body[|body| - 1] != '\r'))
  }

  /** What is kept of a line: its body, or if that is over the limit its longest beginning that is not. */
  ghost predicate Keeps(line: string, kept: string) {
    exists body ::
      && EndsLine(line, body) && kept <= body && ByteLength(kept) <= 1024 * 1024
      && (ByteLength(body) <= 1024 * 1024 ==> kept == body)
      && forall k :: |kept| < k <= |body| ==> ByteLength(body[..k]) > 1024 * 1024
  }

  lemma CleanKeeps(line: string)
    ensures Keeps(line, Clean(line))
  {
    var body := StripCr(line);
    assert EndsLine(line, body) by {
      if body != line { assert line == body + [line[|line| - 1]]; }
    }
    FittingIsLongest(body, MAX_LINE_BYTES);
    hide Encode, Fitting;
    var kept := Fitting(body, MAX_LINE_BYTES);
    assert body[..|kept|] == kept && body[..|body|] == body;
  }

  /** One kept line for each newline, and one more exactly when something follows the last newline; that one is marked. */
  lemma LinesExact(text: string)
    ensures var raw := Terminated(text) + (if Tail(text) == "" then [] else [Tail(text)]); var lines := LinesOf(text);
      && |lines| == |raw|
      && (forall i :: 0 <= i < |lines| ==> Keeps(raw[i], lines[i].raw))
      && (forall i :: 0 <= i < |lines| ==> (lines[i].unterminated <==> i == |Terminated(text)|))
  {
    forall line { CleanKeeps(line); }
    hide Clean, Keeps, Terminated, Tail;
  }
}
