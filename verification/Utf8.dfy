/** UTF-8 (section 3 of RFC 3629): encoding, incremental decoding, and byte-bounded truncation. */
module Utf8 {
  type byte = b: int | 0 <= b < 256

  function EncodeChar(c: char): (bytes: seq<byte>)
    ensures 1 <= |bytes| <= 4
  {
    var v := c as int;
    var w := v / 64;
    var x := w / 64;
    if v < 0x80 then [v]
    else if v < 0x800 then [0xC0 + w, 0x80 + v % 64]
    else if v < 0x10000 then [0xE0 + x, 0x80 + w % 64, 0x80 + v % 64]
    else [0xF0 + x / 64, 0x80 + x % 64, 0x80 + w % 64, 0x80 + v % 64]
  }

  function Encode(text: string): seq<byte> {
    if text == "" then [] else EncodeChar(text[0]) + Encode(text[1..])
  }

  /** Buffer.byteLength of a string. */
  function ByteLength(text: string): nat {
    |Encode(text)|
  }

  predicate IsContinuation(b: byte) { b / 64 == 2 }

  /** The length a lead byte announces; 1 for anything else. */
  function SequenceLength(lead: byte): nat {
    if lead / 32 == 6 then 2 else if lead / 16 == 14 then 3 else if lead / 8 == 30 then 4 else 1
  }

  function Scalar(bytes: seq<byte>): int
    requires 1 <= |bytes| <= 4
  {
    var lead: int, last: int := bytes[0], bytes[|bytes| - 1];
    if |bytes| == 1 then lead
    else
      var second: int := bytes[1];
      if |bytes| == 2 then (lead - 0xC0) * 64 + (last - 0x80)
      else
        var third: int := bytes[2];
        if |bytes| == 3 then ((lead - 0xE0) * 64 + (second - 0x80)) * 64 + (last - 0x80)
        else (((lead - 0xF0) * 64 + (second - 0x80)) * 64 + (third - 0x80)) * 64 + (last - 0x80)
  }

  predicate IsScalar(v: int) {
    0 <= v < 0xD800 || 0xE000 <= v < 0x110000
  }

  const REPLACEMENT: char := '\U{FFFD}'

  /** What a decoder makes of its input so far: the complete characters, and the bytes of one still incomplete. */
  function Decode(bytes: seq<byte>): (r: (string, seq<byte>)) {
    if bytes == [] then ("", [])
    else
      var n := SequenceLength(bytes[0]);
      if |bytes| < n then ("", bytes)
      else
        var v := Scalar(bytes[..n]);
        var c := if IsScalar(v) then v as char else REPLACEMENT;
        var (text, rest) := Decode(bytes[n..]);
        ([c] + text, rest)
  }

  // ---- Encoded characters ----

  lemma LeadByte(c: char)
    ensures SequenceLength(EncodeChar(c)[0]) == |EncodeChar(c)|
    ensures !IsContinuation(EncodeChar(c)[0])
    ensures forall i :: 0 < i < |EncodeChar(c)| ==> IsContinuation(EncodeChar(c)[i])
  {
  }

  lemma ScalarOfEncoded(c: char)
    ensures Scalar(EncodeChar(c)) == c as int
  {
  }

  lemma {:induction false} EncodeAppend(left: string, right: string)
    ensures Encode(left + right) == Encode(left) + Encode(right)
  {
    if left == "" {
      assert left + right == right;
    } else {
      assert (left + right)[1..] == left[1..] + right;
      EncodeAppend(left[1..], right);
    }
  }

  /** One complete character at the front. */
  lemma DecodeStep(c: char, more: seq<byte>)
    ensures Decode(EncodeChar(c) + more) == ([c] + Decode(more).0, Decode(more).1)
  {
    hide EncodeChar, Scalar, SequenceLength;
    LeadByte(c);
    ScalarOfEncoded(c);
    var first := EncodeChar(c);
    assert (first + more)[..|first|] == first && (first + more)[|first|..] == more;
  }

  lemma DecodeIncomplete(c: char, n: nat)
    requires n < |EncodeChar(c)|
    ensures Decode(EncodeChar(c)[..n]) == ("", EncodeChar(c)[..n])
  {
    hide EncodeChar, Scalar, SequenceLength;
    LeadByte(c);
  }

  ghost predicate Decoded(text: string, n: nat, got: string, rest: seq<byte>)
    requires n <= |Encode(text)|
  {
    && got <= text
    && Encode(got) + rest == Encode(text)[..n]
    && (n == |Encode(text)| ==> got == text && rest == [])
  }

  /** Every prefix of an encoded text decodes to a prefix of the text and an unfinished character. */
  lemma {:induction false} DecodePrefix(text: string, n: nat)
    requires n <= |Encode(text)|
    ensures Decoded(text, n, Decode(Encode(text)[..n]).0, Decode(Encode(text)[..n]).1)
  {
    hide EncodeChar, Decode;
    if text == "" {
      DecodeNothing();
      assert Encode(text)[..n] == [];
    } else {
      var first, others := EncodeChar(text[0]), Encode(text[1..]);
      if n < |first| {
        assert Encode(text)[..n] == first[..n];
        DecodeIncomplete(text[0], n);
      } else {
        DecodePrefix(text[1..], n - |first|);
        assert Encode(text)[..n] == first + others[..n - |first|];
        DecodeStep(text[0], others[..n - |first|]);
        DecodedCons(text, n, Decode(others[..n - |first|]).0, Decode(others[..n - |first|]).1);
      }
    }
  }

  lemma DecodeNothing()
    ensures Decode([]) == ("", [])
  {
  }

  lemma DecodedCons(text: string, n: nat, got: string, rest: seq<byte>)
    requires text != "" && |EncodeChar(text[0])| <= n <= |Encode(text)|
    requires Decoded(text[1..], n - |EncodeChar(text[0])|, got, rest)
    ensures Decoded(text, n, [text[0]] + got, rest)
  {
    hide EncodeChar;
    var first, others, longer := EncodeChar(text[0]), Encode(text[1..]), [text[0]] + got;
    assert longer[0] == text[0] && longer[1..] == got;
    assert Encode(longer) == first + Encode(got);
    assert Encode(text) == first + others;
    assert Encode(text)[..n] == first + others[..n - |first|];
    assert first + Encode(got) + rest == first + (Encode(got) + rest);
    assert text == [text[0]] + text[1..];
  }

  lemma DecodeEncoded(text: string)
    ensures Decode(Encode(text)) == (text, [])
  {
    DecodePrefix(text, |Encode(text)|);
    assert Encode(text)[..|Encode(text)|] == Encode(text);
  }

  // ---- Truncation at a byte limit ----

  /** The longest prefix whose encoding fits. */
  function Fitting(text: string, maxBytes: nat): string {
    if text == "" || |EncodeChar(text[0])| > maxBytes then ""
    else [text[0]] + Fitting(text[1..], maxBytes - |EncodeChar(text[0])|)
  }

  lemma {:induction false} FittingIsLongest(text: string, maxBytes: nat)
    ensures Fitting(text, maxBytes) <= text
    ensures forall k :: 0 <= k <= |text| ==> (ByteLength(text[..k]) <= maxBytes <==> k <= |Fitting(text, maxBytes)|)
  {
    if text != "" {
      hide EncodeChar;
      var first := EncodeChar(text[0]);
      if |first| <= maxBytes {
        FittingIsLongest(text[1..], maxBytes - |first|);
      }
      forall k | 0 <= k <= |text|
        ensures ByteLength(text[..k]) <= maxBytes <==> k <= |Fitting(text, maxBytes)|
      {
        if k > 0 {
          assert text[..k][1..] == text[1..][..k - 1];
          assert ByteLength(text[..k]) == |first| + ByteLength(text[1..][..k - 1]);
        }
      }
    }
  }

  /** Where the fitting prefix ends in the encoded text, and what follows it. */
  lemma {:induction false} FittingBoundary(text: string, maxBytes: nat)
    requires ByteLength(text) > maxBytes
    ensures var fit := Fitting(text, maxBytes);
      && fit < text
      && ByteLength(fit) <= maxBytes
      && Encode(text)[..ByteLength(fit)] == Encode(fit)
      && ByteLength(fit) + |EncodeChar(text[|fit|])| <= ByteLength(text)
      && Encode(text)[ByteLength(fit)..][..|EncodeChar(text[|fit|])|] == EncodeChar(text[|fit|])
      && maxBytes < ByteLength(fit) + |EncodeChar(text[|fit|])|
  {
    hide EncodeChar;
    var fit := Fitting(text, maxBytes);
    FittingIsLongest(text, maxBytes);
    assert text[..|text|] == text && text[..|fit|] == fit;
    EncodeAppend(fit, text[|fit|..]);
    assert text == fit + text[|fit|..];
    assert text[..|fit| + 1] == fit + [text[|fit|]];
    EncodeAppend(fit, [text[|fit|]]);
    EncodeSingle(text[|fit|]);
  }

  lemma EncodeSingle(c: char)
    ensures Encode([c]) == EncodeChar(c)
  {
    hide EncodeChar;
    assert [c][1..] == "";
  }

  /** The byte at an offset inside a character that does not begin it. */
  lemma InsideCharacter(text: string, maxBytes: nat, end: nat)
    requires ByteLength(text) > maxBytes && ByteLength(Fitting(text, maxBytes)) <= end <= maxBytes
    ensures end < |Encode(text)|
    ensures IsContinuation(Encode(text)[end]) <==> end > ByteLength(Fitting(text, maxBytes))
    ensures end == ByteLength(Fitting(text, maxBytes)) ==> end + SequenceLength(Encode(text)[end]) > maxBytes
  {
    hide EncodeChar, Encode, Fitting, SequenceLength, IsContinuation;
    FittingBoundary(text, maxBytes);
    var fit := Fitting(text, maxBytes);
    var next := EncodeChar(text[|fit|]);
    LeadByte(text[|fit|]);
    assert Encode(text)[end] == next[end - ByteLength(fit)];
  }

  method TruncateToUtf8Bytes(text: string, maxBytes: nat) returns (cut: string)
    ensures cut == Fitting(text, maxBytes)
  {
    hide EncodeChar, Encode, Decode, Fitting, SequenceLength, IsContinuation;
    var buf := Encode(text);
    FittingIsLongest(text, maxBytes);
    if |buf| <= maxBytes {
      assert text[..|text|] == text;
      return text;
    }
    FittingBoundary(text, maxBytes);
    DecodeEncoded(Fitting(text, maxBytes));
    var end := maxBytes;
    InsideCharacter(text, maxBytes, end);
    while end > 0 && IsContinuation(buf[end])
      invariant ByteLength(Fitting(text, maxBytes)) <= end <= maxBytes < |buf|
    {
      InsideCharacter(text, maxBytes, end);
      end := end - 1;
    }
    InsideCharacter(text, maxBytes, end);
    if end < maxBytes {
      var seqLen := SequenceLength(buf[end]);
      if end + seqLen > maxBytes {
        return Decode(buf[..end]).0;
      }
    }
    return Decode(buf[..maxBytes]).0;
  }
}
