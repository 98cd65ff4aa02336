/**
  The range image codec: differences of 32-bit ranges, modulo 2^32, as little-endian bytes.

  Main result (RangeRoundTrip): decoding gives the ranges back exactly when they are within the decoder's
  size bound, and an error otherwise.
*/
module RangeCodec {
  import opened Compression
  import opened LittleEndian
  import opened Wrappers

  const WORD: nat := 0x1_0000_0000

  type uint32 = n: int | 0 <= n < WORD

  // ------------------------------------------------------------------ words as bytes

  function Bytes(s: seq<uint32>): (b: seq<byte>)
    ensures |b| == 4 * |s|
  {
    if s == [] then [] else Bytes(s[..|s| - 1]) + Le32(s[|s| - 1])
  }

  function WordsOf(b: seq<byte>): (s: seq<uint32>)
    requires |b| % 4 == 0
    ensures 4 * |s| == |b|
    decreases |b|
  {
    if b == [] then []
    else
      var n := |b| - 4;
      Le32UndoesU32(b[n..]);
      WordsOf(b[..n]) + [U32(b[n..])]
  }

  lemma {:induction false} WordsOfBytes(s: seq<uint32>)
    ensures WordsOf(Bytes(s)) == s
    decreases |s|
  {
    if s != [] {
      var t, last := s[..|s| - 1], s[|s| - 1];
      WordsOfBytes(t);
      var b, n := Bytes(s), 4 * (|s| - 1);
      assert b[..n] == Bytes(t) && b[n..] == Le32(last);
      assert s == t + [last];
    }
  }

  lemma {:induction false} BytesOfWords(b: seq<byte>)
    requires |b| % 4 == 0
    ensures Bytes(WordsOf(b)) == b
    decreases |b|
  {
    hide U32, Le32;
    if b != [] {
      var n := |b| - 4;
      BytesOfWords(b[..n]);
      Le32UndoesU32(b[n..]);
      assert WordsOf(b)[..|WordsOf(b)| - 1] == WordsOf(b[..n]);
      assert b == b[..n] + b[n..];
    }
  }

  // ------------------------------------------------------------------ encoding and decoding

  /** Unsigned 32-bit subtraction wraps around. */
  function Subtract(a: uint32, b: uint32): uint32 { (a as int - b as int) % WORD }

  method RangeDifferences(ranges: seq<uint32>) returns (differences: array<uint32>)
    ensures fresh(differences) && differences[..] == Differences(ranges, WORD)
  {
    differences := new uint32[|ranges|];
    var previous: uint32 := 0;
    for i := 0 to |ranges|
      invariant previous == Previous(ranges, i)
      invariant differences[..i] == Differences(ranges, WORD)[..i]
    {
      var value := ranges[i];
      differences[i] := Subtract(value, previous);
      assert Differences(ranges, WORD)[i] == differences[i];
      previous := value;
    }
  }

  /** What the encoder hands to zstd. */
  function Encoded(ranges: seq<uint32>): (content: seq<byte>)
    ensures |content| == 4 * |ranges|
  {
    Bytes(Differences(ranges, WORD))
  }

  lemma {:induction false} WordAt(s: seq<uint32>, i: nat)
    requires i < |s|
    ensures U32(Bytes(s)[4 * i..4 * i + 4]) == s[i]
    decreases |s|
  {
    hide U32, Le32;
    var t, last := s[..|s| - 1], s[|s| - 1];
    if i == |s| - 1 {
      assert Bytes(s)[4 * i..4 * i + 4] == Le32(last);
    } else {
      WordAt(t, i);
      assert Bytes(s)[4 * i..4 * i + 4] == Bytes(t)[4 * i..4 * i + 4];
    }
  }

  /** The four bytes of range i, least significant first, hold what it adds to the range before, modulo 2^32. */
  lemma EncodedAt(ranges: seq<uint32>, i: nat)
    requires i < |ranges|
    ensures var word := U32(Encoded(ranges)[4 * i..4 * i + 4]);
            ranges[i] as int == if i == 0 then word else (ranges[i - 1] as int + word) % WORD
  {
    hide U32, Bytes, Differences;
    WordAt(Differences(ranges, WORD), i);
    ValueIsPreviousPlusDifference(ranges, WORD, i);
  }

  /** No data for a missing or an empty image. */
  method CompressRangeImage(compress: Compressor, ranges: Option<seq<uint32>>, w: nat, h: nat)
    returns (data: Option<seq<byte>>)
    requires ranges.Some? ==> |ranges.value| == w * h
    ensures data == if ranges.None? || w == 0 || h == 0 then None else compress(Encoded(ranges.value))
  {
    if ranges.None? || w == 0 || h == 0 {
      return None;
    }
    var differences := RangeDifferences(ranges.value);
    data := compress(Bytes(differences[..]));
  }

  function DecodeRanges(decompress: Compressor, data: seq<byte>, w: nat, h: nat): (r: Result<seq<uint32>>)
    ensures r.Ok? ==> |r.value| == w * h
  {
    match Decompressed(decompress, data, w * h * 4)
    case Err => Err
    case Ok(content) => Ok(Sums(WordsOf(content), WORD))
  }

  /** Every content of whole words is the encoding of what it decodes to. */
  lemma EncodingUndoesDecoding(content: seq<byte>)
    requires |content| % 4 == 0
    ensures Encoded(Sums(WordsOf(content), WORD)) == content
  {
    DifferencesUndoSums(WordsOf(content), WORD);
    BytesOfWords(content);
    hide Bytes, WordsOf, Sums, Differences;
  }

  /** So no two contents decode to the same ranges. */
  lemma DecodingIsInjective(a: seq<byte>, b: seq<byte>)
    requires |a| % 4 == 0 && |b| % 4 == 0 && Sums(WordsOf(a), WORD) == Sums(WordsOf(b), WORD)
    ensures a == b
  {
    hide Encoded, WordsOf, Sums;
    EncodingUndoesDecoding(a);
    EncodingUndoesDecoding(b);
  }

  /** Decoding encoded ranges gives them back exactly when their bytes are within the decoder's bound. */
  lemma RangeRoundTrip(compress: Compressor, decompress: Compressor, ranges: seq<uint32>, w: nat, h: nat,
                       data: seq<byte>)
    requires Inverse(compress, decompress) && |ranges| == w * h && w > 0 && h > 0
    requires compress(Encoded(ranges)) == Some(data)
    ensures DecodeRanges(decompress, data, w, h) == if 4 * w * h <= MAX_FRAME_BYTES then Ok(ranges) else Err
  {
    hide Differences, Sums, Decompressed, Bytes, WordsOf, Encoded, Inverse;
    AtLeast(w, h);
    assert w * h * 4 == 4 * |ranges|;
    assert 4 * w * h == 4 * |ranges|;
    DecompressedRanges(compress, decompress, ranges, data);
  }

  /** One range too many: ranges the encoder writes and the decoder refuses. */
  lemma OversizedRangesAreRefused(compress: Compressor, decompress: Compressor, data: seq<byte>)
    requires Inverse(compress, decompress)
    requires compress(Encoded(seq(MAX_FRAME_BYTES / 4 + 1, _ => 0))) == Some(data)
    ensures DecodeRanges(decompress, data, MAX_FRAME_BYTES / 4 + 1, 1) == Err
  {
    hide Encoded, DecodeRanges;
    RangeRoundTrip(compress, decompress, seq(MAX_FRAME_BYTES / 4 + 1, _ => 0), MAX_FRAME_BYTES / 4 + 1, 1, data);
  }

  lemma DecompressedRanges(compress: Compressor, decompress: Compressor, ranges: seq<uint32>, data: seq<byte>)
    requires Inverse(compress, decompress) && ranges != [] && compress(Encoded(ranges)) == Some(data)
    ensures Decompressed(decompress, data, 4 * |ranges|)
         == if 4 * |ranges| <= MAX_FRAME_BYTES then Ok(Encoded(ranges)) else Err
    ensures Sums(WordsOf(Encoded(ranges)), WORD) == ranges
  {
    DecompressedIff(compress, decompress, Encoded(ranges), data);
    WordsOfBytes(Differences(ranges, WORD));
    SumsUndoDifferences(ranges, WORD);
  }
}
