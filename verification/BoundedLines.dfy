/** The line reader of the MCP server: bounded buffering, one verdict per line whatever the chunks. */
module BoundedLines {
  import opened Wrappers
  import opened Utf8

  const MAX_MCP_LINE_BYTES: nat := 1024 * 1024

  const NEWLINE: byte := 0x0A

  datatype Event =
    | LineRead(line: string)
    | LineTooLarge
    | InvalidEncoding

  // ---- The whole input ----

  /** The lines ended by a newline byte. */
  function Terminated(input: seq<byte>): seq<seq<byte>> {
    if input == [] then []
    else
      var init, last := input[..|input| - 1], input[|input| - 1];
      if last == NEWLINE then Terminated(init) + [Tail(init)] else Terminated(init)
  }

  /** What follows the last newline byte. */
  function Tail(input: seq<byte>): seq<byte> {
    if input == [] || input[|input| - 1] == NEWLINE then [] else Tail(input[..|input| - 1]) + [input[|input| - 1]]
  }

  function StripCr(line: string): string {
    if line != "" && line[|line| - 1] == '\r' then line[..|line| - 1] else line
  }

  /** The fatal decoder is a parameter. */
  function Judge(line: seq<byte>, maxLineBytes: nat, decode: seq<byte> -> Option<string>): Event {
    if |line| > maxLineBytes then LineTooLarge
    else
      match decode(line)
      case None => InvalidEncoding
      case Some(text) => LineRead(StripCr(text))
  }

  function JudgeAll(lines: seq<seq<byte>>, maxLineBytes: nat, decode: seq<byte> -> Option<string>): seq<Event> {
    seq(|lines|, i requires 0 <= i < |lines| => Judge(lines[i], maxLineBytes, decode))
  }

  /** Split the whole input at newlines and judge each line; an unterminated last line counts unless it is empty. */
  function Verdicts(input: seq<byte>, maxLineBytes: nat, decode: seq<byte> -> Option<string>): seq<Event> {
    JudgeAll(Terminated(input), maxLineBytes, decode) +
    if Tail(input) == [] then [] else [Judge(Tail(input), maxLineBytes, decode)]
  }

  lemma AppendByte(input: seq<byte>, b: byte)
    ensures Terminated(input + [b]) == if b == NEWLINE then Terminated(input) + [Tail(input)] else Terminated(input)
    ensures Tail(input + [b]) == if b == NEWLINE then [] else Tail(input) + [b]
  {
    assert (input + [b])[..|input|] == input;
  }

  lemma {:induction false} AppendPlain(input: seq<byte>, more: seq<byte>)
    requires NEWLINE !in more
    ensures Terminated(input + more) == Terminated(input) && Tail(input + more) == Tail(input) + more
  {
    hide Terminated, Tail;
    if more == [] {
      assert input + more == input;
    } else {
      var init, last := more[..|more| - 1], more[|more| - 1];
      AppendPlain(input, init);
      assert input + more == (input + init) + [last] && more == init + [last];
      AppendByte(input + init, last);
    }
  }

  lemma AppendLine(input: seq<byte>, segment: seq<byte>)
    requires NEWLINE !in segment
    ensures Terminated(input + segment + [NEWLINE]) == Terminated(input) + [Tail(input) + segment]
    ensures Tail(input + segment + [NEWLINE]) == []
  {
    hide Terminated, Tail;
    AppendPlain(input, segment);
    AppendByte(input + segment, NEWLINE);
  }

  lemma JudgeStep(lines: seq<seq<byte>>, line: seq<byte>, maxLineBytes: nat, decode: seq<byte> -> Option<string>)
    ensures JudgeAll(lines + [line], maxLineBytes, decode) ==
      JudgeAll(lines, maxLineBytes, decode) + [Judge(line, maxLineBytes, decode)]
  {
    hide Judge;
  }

  function Concat(chunks: seq<seq<byte>>): seq<byte> {
    if chunks == [] then [] else Concat(chunks[..|chunks| - 1]) + chunks[|chunks| - 1]
  }

  lemma ConcatStep(chunks: seq<seq<byte>>, chunk: seq<byte>)
    ensures Concat(chunks + [chunk]) == Concat(chunks) + chunk
  {
    assert (chunks + [chunk])[..|chunks|] == chunks;
  }

  function IndexOfNewline(chunk: seq<byte>, offset: nat): (i: int)
    requires offset <= |chunk|
    ensures -1 <= i < |chunk|
    ensures i == -1 ==> NEWLINE !in chunk[offset..]
    ensures i >= 0 ==> offset <= i && chunk[i] == NEWLINE && NEWLINE !in chunk[offset..i]
    decreases |chunk| - offset
  {
    if offset == |chunk| then -1
    else if chunk[offset] == NEWLINE then offset
    else
      var i := IndexOfNewline(chunk, offset + 1);
      assert chunk[offset..] == [chunk[offset]] + chunk[offset + 1..];
      assert i >= 0 ==> chunk[offset..i] == [chunk[offset]] + chunk[offset + 1..i];
      i
  }

  // ---- The reader ----

  /** What is buffered of the current line, and whether it is being discarded. */
  predicate Holds(
    chunks: seq<seq<byte>>, accumulatedBytes: nat, discarding: bool, consumed: seq<byte>, maxLineBytes: nat)
  {
    && |Concat(chunks)| == accumulatedBytes <= maxLineBytes
    && if discarding then |Tail(consumed)| > maxLineBytes && accumulatedBytes == 0 else Concat(chunks) == Tail(consumed)
  }

  /** What has been yielded: the verdicts on the lines ended so far, and the error of the line being discarded. */
  predicate Answered(
    yielded: seq<Event>, discarding: bool, consumed: seq<byte>, maxLineBytes: nat, decode: seq<byte> -> Option<string>)
  {
    yielded == JudgeAll(Terminated(consumed), maxLineBytes, decode) + if discarding then [LineTooLarge] else []
  }

  lemma StillDiscarding(
    chunks: seq<seq<byte>>, accumulatedBytes: nat, consumed: seq<byte>, remaining: seq<byte>, maxLineBytes: nat)
    requires Holds(chunks, accumulatedBytes, true, consumed, maxLineBytes) && NEWLINE !in remaining
    ensures Holds(chunks, accumulatedBytes, true, consumed + remaining, maxLineBytes)
  {
    AppendPlain(consumed, remaining);
  }

  lemma NowTooLarge(
    chunks: seq<seq<byte>>, accumulatedBytes: nat, consumed: seq<byte>, remaining: seq<byte>, maxLineBytes: nat)
    requires Holds(chunks, accumulatedBytes, false, consumed, maxLineBytes) && NEWLINE !in remaining
    requires accumulatedBytes + |remaining| > maxLineBytes
    ensures Holds([], 0, true, consumed + remaining, maxLineBytes)
  {
    AppendPlain(consumed, remaining);
  }

  lemma StillHeld(
    chunks: seq<seq<byte>>, accumulatedBytes: nat, consumed: seq<byte>, remaining: seq<byte>, maxLineBytes: nat)
    requires Holds(chunks, accumulatedBytes, false, consumed, maxLineBytes) && NEWLINE !in remaining
    requires accumulatedBytes + |remaining| <= maxLineBytes
    ensures Holds(chunks + [remaining], accumulatedBytes + |remaining|, false, consumed + remaining, maxLineBytes)
  {
    AppendPlain(consumed, remaining);
    ConcatStep(chunks, remaining);
  }

  /** After a newline nothing of a line is held. */
  lemma HoldsNothing(
    chunks: seq<seq<byte>>, accumulatedBytes: nat, discarding: bool, consumed: seq<byte>, segment: seq<byte>,
    maxLineBytes: nat)
    requires Holds(chunks, accumulatedBytes, discarding, consumed, maxLineBytes) && NEWLINE !in segment
    ensures Holds([], 0, false, consumed + segment + [NEWLINE], maxLineBytes)
    ensures discarding ==> Holds(chunks, accumulatedBytes, false, consumed + segment + [NEWLINE], maxLineBytes)
  {
    AppendLine(consumed, segment);
  }

  /** The buffered pieces with the last one are the line; a discarded line is too long without it. */
  lemma HoldsLine(
    chunks: seq<seq<byte>>, accumulatedBytes: nat, discarding: bool, consumed: seq<byte>, segment: seq<byte>,
    maxLineBytes: nat)
    requires Holds(chunks, accumulatedBytes, discarding, consumed, maxLineBytes)
    ensures discarding ==> |Tail(consumed) + segment| > maxLineBytes
    ensures !discarding ==>
      Concat(chunks + [segment]) == Tail(consumed) + segment && |Tail(consumed) + segment| == accumulatedBytes + |segment|
  {
    ConcatStep(chunks, segment);
  }

  lemma AnsweredPlain(
    yielded: seq<Event>, discarding: bool, consumed: seq<byte>, remaining: seq<byte>, maxLineBytes: nat,
    decode: seq<byte> -> Option<string>)
    requires Answered(yielded, discarding, consumed, maxLineBytes, decode) && NEWLINE !in remaining
    ensures Answered(yielded, discarding, consumed + remaining, maxLineBytes, decode)
    ensures !discarding ==> Answered(yielded + [LineTooLarge], true, consumed + remaining, maxLineBytes, decode)
  {
    AppendPlain(consumed, remaining);
    hide Terminated, JudgeAll;
  }

  /** The verdict on the line that ends here is the one of its own, or the error already yielded. */
  lemma AnsweredLine(
    yielded: seq<Event>, discarding: bool, consumed: seq<byte>, segment: seq<byte>, maxLineBytes: nat,
    decode: seq<byte> -> Option<string>)
    requires Answered(yielded, discarding, consumed, maxLineBytes, decode) && NEWLINE !in segment
    ensures var verdict := Judge(Tail(consumed) + segment, maxLineBytes, decode);
      && (!discarding ==> Answered(yielded + [verdict], false, consumed + segment + [NEWLINE], maxLineBytes, decode))
      && (discarding && verdict == LineTooLarge ==>
            Answered(yielded, false, consumed + segment + [NEWLINE], maxLineBytes, decode))
  {
    AppendLine(consumed, segment);
    JudgeStep(Terminated(consumed), Tail(consumed) + segment, maxLineBytes, decode);
    hide Terminated, JudgeAll, Tail, Judge;
  }

  /** The pieces of a chunk, up to its end or up to and with a newline, put together again. */
  lemma Consumed(before: seq<byte>, chunk: seq<byte>, offset: nat, newlineIndex: int)
    requires offset <= |chunk| && -1 <= newlineIndex < |chunk|
    requires newlineIndex >= 0 ==> offset <= newlineIndex && chunk[newlineIndex] == NEWLINE
    ensures before + chunk[..offset] + chunk[offset..] == before + chunk[..|chunk|]
    ensures newlineIndex >= 0 ==>
      before + chunk[..offset] + chunk[offset..newlineIndex] + [NEWLINE] == before + chunk[..newlineIndex + 1]
  {
  }

  class BoundedLineReader {
    const maxLineBytes: nat
    const decode: seq<byte> -> Option<string>
    var chunks: seq<seq<byte>>
    var accumulatedBytes: nat
    var discarding: bool
    /** The events yielded so far. */
    var yielded: seq<Event>
    /** The bytes consumed so far. */
    ghost var consumed: seq<byte>

    constructor (maxLineBytes: nat, decode: seq<byte> -> Option<string>)
      ensures Valid() && consumed == [] && this.maxLineBytes == maxLineBytes && this.decode == decode
    {
      this.maxLineBytes, this.decode := maxLineBytes, decode;
      chunks, accumulatedBytes, discarding, yielded := [], 0, false, [];
      consumed := [];
    }

    /** The buffer holds the current line and never exceeds the limit; an oversized line has had its one error. */
    ghost predicate Valid()
      reads this
    {
      && Holds(chunks, accumulatedBytes, discarding, consumed, maxLineBytes)
      && Answered(yielded, discarding, consumed, maxLineBytes, decode)
    }

    /** The part of a chunk after its last newline. */
    method Hold(remaining: seq<byte>)
      requires Valid() && NEWLINE !in remaining
      modifies this
      ensures Valid() && consumed == old(consumed) + remaining
    {
      var longer := consumed + remaining;
      if discarding {
        StillDiscarding(chunks, accumulatedBytes, consumed, remaining, maxLineBytes);
        AnsweredPlain(yielded, discarding, consumed, remaining, maxLineBytes, decode);
        hide Holds, Answered;
        consumed := longer;
      } else if accumulatedBytes + |remaining| > maxLineBytes {
        NowTooLarge(chunks, accumulatedBytes, consumed, remaining, maxLineBytes);
        AnsweredPlain(yielded, discarding, consumed, remaining, maxLineBytes, decode);
        hide Holds, Answered;
        discarding := true;
        chunks := [];
        accumulatedBytes := 0;
        yielded := yielded + [LineTooLarge];
        consumed := longer;
      } else {
        StillHeld(chunks, accumulatedBytes, consumed, remaining, maxLineBytes);
        AnsweredPlain(yielded, discarding, consumed, remaining, maxLineBytes, decode);
        hide Holds, Answered;
        chunks := chunks + [remaining];
        accumulatedBytes := accumulatedBytes + |remaining|;
        consumed := longer;
      }
    }

    /** The part of a chunk up to a newline. */
    method EndLine(segment: seq<byte>)
      requires Valid() && NEWLINE !in segment
      modifies this
      ensures Valid() && consumed == old(consumed) + segment + [NEWLINE]
    {
      var ended := consumed + segment + [NEWLINE];
      HoldsNothing(chunks, accumulatedBytes, discarding, consumed, segment, maxLineBytes);
      HoldsLine(chunks, accumulatedBytes, discarding, consumed, segment, maxLineBytes);
      AnsweredLine(yielded, discarding, consumed, segment, maxLineBytes, decode);
      hide Holds, Answered, Tail, Concat;
      if discarding {
        discarding := false;
      } else if accumulatedBytes + |segment| > maxLineBytes {
        chunks := [];
        accumulatedBytes := 0;
        yielded := yielded + [LineTooLarge];
      } else {
        chunks := chunks + [segment];
        var fullLine := Concat(chunks);
        chunks := [];
        accumulatedBytes := 0;
        match decode(fullLine)
        case None => yielded := yielded + [InvalidEncoding];
        case Some(text) => yielded := yielded + [LineRead(StripCr(text))];
      }
      consumed := ended;
    }

    method Feed(chunk: seq<byte>)
      requires Valid()
      modifies this
      ensures Valid() && consumed == old(consumed) + chunk
    {
      hide Valid, IndexOfNewline;
      var offset := 0;
      while offset < |chunk|
        invariant offset <= |chunk| && Valid() && consumed == old(consumed) + chunk[..offset]
      {
        var newlineIndex := IndexOfNewline(chunk, offset);
        Consumed(old(consumed), chunk, offset, newlineIndex);
        if newlineIndex == -1 {
          Hold(chunk[offset..]);
          offset := |chunk|;
        } else {
          EndLine(chunk[offset..newlineIndex]);
          offset := newlineIndex + 1;
        }
      }
    }

    method Finish()
      requires Valid()
      modifies this`yielded
      ensures yielded == Verdicts(consumed, maxLineBytes, decode)
    {
      hide JudgeAll, Terminated, Tail;
      if !discarding && accumulatedBytes > 0 {
        if accumulatedBytes > maxLineBytes {
          assert false; // the buffer never exceeds the limit
        } else {
          match decode(Concat(chunks))
          case None => yielded := yielded + [InvalidEncoding];
          case Some(text) => yielded := yielded + [LineRead(StripCr(text))];
        }
      }
    }
  }

  /** The events do not depend on how the input was cut. */
  method ReadBoundedLines(
    input: seq<seq<byte>>, decode: seq<byte> -> Option<string>, maxLineBytes: nat := MAX_MCP_LINE_BYTES)
    returns (events: seq<Event>)
    ensures events == Verdicts(Concat(input), maxLineBytes, decode)
  {
    hide Verdicts;
    var reader := new BoundedLineReader(maxLineBytes, decode);
    assert input[..0] == [];
    for i := 0 to |input|
      invariant reader.Valid() && reader.consumed == Concat(input[..i])
      invariant reader.maxLineBytes == maxLineBytes && reader.decode == decode && fresh(reader)
    {
      assert input[..i + 1][..i] == input[..i];
      reader.Feed(input[i]);
    }
    assert input[..|input|] == input;
    reader.Finish();
    events := reader.yielded;
  }

  // ---- What the verdicts amount to ----

  function CountTooLarge(events: seq<Event>): nat {
    if events == [] then 0 else CountTooLarge(events[..|events| - 1]) + if events[|events| - 1].LineTooLarge? then 1 else 0
  }

  function CountOversized(lines: seq<seq<byte>>, maxLineBytes: nat): nat {
    if lines == [] then 0
    else CountOversized(lines[..|lines| - 1], maxLineBytes) + if |lines[|lines| - 1]| > maxLineBytes then 1 else 0
  }

  /** Every line of an input: joined again by newlines they give the input back. */
  function AllLines(input: seq<byte>): seq<seq<byte>> {
    Terminated(input) + if Tail(input) == [] then [] else [Tail(input)]
  }

  function Unsplit(lines: seq<seq<byte>>): seq<byte> {
    if lines == [] then [] else Unsplit(lines[..|lines| - 1]) + lines[|lines| - 1] + [NEWLINE]
  }

  lemma {:induction false} SplitLosesNothing(input: seq<byte>)
    ensures Unsplit(Terminated(input)) + Tail(input) == input
    ensures forall line :: line in Terminated(input) ==> NEWLINE !in line
    ensures NEWLINE !in Tail(input)
  {
    if input != [] {
      var init, last := input[..|input| - 1], input[|input| - 1];
      SplitLosesNothing(init);
      assert input == init + [last];
      if last == NEWLINE {
        assert (Terminated(init) + [Tail(init)])[..|Terminated(init)|] == Terminated(init);
      }
    }
  }

  /** One error per oversized line, and one event per line. */
  lemma {:induction false} OneErrorPerOversizedLine(lines: seq<seq<byte>>, maxLineBytes: nat, decode: seq<byte> -> Option<string>)
    ensures CountTooLarge(JudgeAll(lines, maxLineBytes, decode)) == CountOversized(lines, maxLineBytes)
  {
    if lines != [] {
      var init, last := lines[..|lines| - 1], lines[|lines| - 1];
      OneErrorPerOversizedLine(init, maxLineBytes, decode);
      assert lines == init + [last];
      JudgeStep(init, last, maxLineBytes, decode);
      var events := JudgeAll(init, maxLineBytes, decode);
      assert (events + [Judge(last, maxLineBytes, decode)])[..|events|] == events;
    }
  }

  lemma VerdictsAreOfLines(input: seq<byte>, maxLineBytes: nat, decode: seq<byte> -> Option<string>)
    ensures Verdicts(input, maxLineBytes, decode) == JudgeAll(AllLines(input), maxLineBytes, decode)
    ensures CountTooLarge(Verdicts(input, maxLineBytes, decode)) == CountOversized(AllLines(input), maxLineBytes)
  {
    hide Judge, Terminated, Tail, CountTooLarge, CountOversized;
    if Tail(input) != [] {
      JudgeStep(Terminated(input), Tail(input), maxLineBytes, decode);
    }
    OneErrorPerOversizedLine(AllLines(input), maxLineBytes, decode);
  }

  function Newlines(input: seq<byte>): nat {
    if input == [] then 0 else Newlines(input[..|input| - 1]) + if input[|input| - 1] == NEWLINE then 1 else 0
  }

  lemma {:induction false} OneLinePerNewline(input: seq<byte>)
    ensures |Terminated(input)| == Newlines(input)
    ensures Tail(input) != [] <==> input != [] && input[|input| - 1] != NEWLINE
  {
    if input != [] {
      OneLinePerNewline(input[..|input| - 1]);
    }
  }

  /** What is read of a line's text: all of it but one carriage return at its end. */
  predicate ReadsAs(text: string, line: string) {
    text == line + "\r" || (text == line && (line == "" || line[|line| - 1] != '\r'))
  }

  lemma StripReads(text: string)
    ensures ReadsAs(text, StripCr(text))
    ensures forall line :: ReadsAs(text, line) ==> line == StripCr(text)
  {
    if StripCr(text) != text { assert text == StripCr(text) + [text[|text| - 1]]; }
    forall line | ReadsAs(text, line) ensures line == StripCr(text) {
      if text == line + "\r" { assert text[|text| - 1] == '\r' && text[..|text| - 1] == line; }
    }
  }

  /**
   * One event for each newline, and one more exactly when bytes follow the last one. The event says too large exactly of a
   * line over the limit, bad encoding exactly of another one that does not decode, and else gives the text without its
   * carriage return.
   */
  lemma EventsExact(input: seq<byte>, maxLineBytes: nat, decode: seq<byte> -> Option<string>)
    ensures var lines, events := AllLines(input), Verdicts(input, maxLineBytes, decode);
      && |events| == |lines| == Newlines(input) + (if input != [] && input[|input| - 1] != NEWLINE then 1 else 0)
      && (forall k :: 0 <= k < |events| ==>
            && (events[k] == LineTooLarge <==> |lines[k]| > maxLineBytes)
            && (events[k] == InvalidEncoding <==> |lines[k]| <= maxLineBytes && decode(lines[k]) == None)
            && forall line :: events[k] == LineRead(line) <==>
                 && |lines[k]| <= maxLineBytes && decode(lines[k]).Some? && ReadsAs(decode(lines[k]).value, line))
  {
    VerdictsAreOfLines(input, maxLineBytes, decode);
    OneLinePerNewline(input);
    forall text { StripReads(text); }
    hide ReadsAs, StripCr, Terminated, Tail, Verdicts, AllLines, CountTooLarge, CountOversized, Newlines;
    AllLinesCount(input);
  }

  lemma AllLinesCount(input: seq<byte>)
    ensures |AllLines(input)| == |Terminated(input)| + if Tail(input) == [] then 0 else 1
  {
  }
}
