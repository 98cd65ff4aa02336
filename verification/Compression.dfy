/**
  What the recorded images and ranges have in common: differences against the previous value, a zstd
  frame, and a bound on the decompressed size.
*/
module Compression {
  import opened LittleEndian
  import opened Wrappers

  const MAX_FRAME_BYTES: nat := 512 * 1024 * 1024

  /** Compression may fail; the decoder may refuse its input. */
  type Compressor = seq<byte> -> Option<seq<byte>>

  /** What zstd promises: decompression undoes compression. */
  ghost predicate Inverse(compress: Compressor, decompress: Compressor) {
    forall x, y :: compress(x) == Some(y) ==> decompress(y) == Some(x)
  }

  /** The content of a frame, if its size is the expected, admitted one. */
  function Decompressed(decompress: Compressor, data: seq<byte>, size: nat): (r: Result<seq<byte>>)
    ensures r.Ok? ==> |r.value| == size
  {
    if !(0 < size <= MAX_FRAME_BYTES) then Err
    else
      match decompress(data)
      case None => Err
      case Some(content) => if |content| == size then Ok(content) else Err
  }

  lemma DecompressedIff(compress: Compressor, decompress: Compressor, content: seq<byte>, data: seq<byte>)
    requires Inverse(compress, decompress) && compress(content) == Some(data) && content != []
    ensures Decompressed(decompress, data, |content|) == if |content| <= MAX_FRAME_BYTES then Ok(content) else Err
  {
  }

  // ------------------------------------------------------------------ differences and sums, modulo the word size

  ghost predicate Words(s: seq<int>, m: nat) { forall i :: 0 <= i < |s| ==> 0 <= s[i] < m }

  /** The element before i. */
  function Previous(s: seq<int>, i: nat): int
    requires i <= |s|
  {
    if i == 0 then 0 else s[i - 1]
  }

  function Differences(s: seq<int>, m: nat): (d: seq<int>)
    requires m > 0
    ensures |d| == |s| && Words(d, m)
  {
    seq(|s|, i requires 0 <= i < |s| => (s[i] - Previous(s, i)) % m)
  }

  /** The sum of the first n elements. */
  function Sum(d: seq<int>, m: nat, n: nat): (r: int)
    requires m > 0 && n <= |d|
    ensures 0 <= r < m
  {
    if n == 0 then 0 else (Sum(d, m, n - 1) + d[n - 1]) % m
  }

  function Sums(d: seq<int>, m: nat): (s: seq<int>)
    requires m > 0
    ensures |s| == |d| && Words(s, m)
  {
    seq(|d|, i requires 0 <= i < |d| => Sum(d, m, i + 1))
  }

  /** Adding a difference to the value before it gives the value back. */
  lemma AddBack(previous: int, value: int, m: nat)
    requires m > 0 && 0 <= previous < m && 0 <= value < m
    ensures (previous + (value - previous) % m) % m == value
  {
    if value >= previous {
      Small(value - previous, m);
      Small(value, m);
    } else {
      Small(value - previous + m, m);
      Shift(value - previous, m);
      Small(value, m);
      Shift(value, m);
    }
  }

  lemma Small(x: int, m: nat)
    requires 0 <= x < m
    ensures x % m == x
  {
  }

  lemma Shift(x: int, m: nat)
    requires m > 0
    ensures (x + m) % m == x % m
  {
    var q, r := x / m, x % m;
    assert x + m == (q + 1) * m + r;
    Divide(x + m, m, q + 1, r);
  }

  lemma Divide(x: int, m: nat, q: int, r: int)
    requires 0 <= r < m && x == q * m + r
    ensures x % m == r
  {
    var e := x / m - q;
    assert x % m - r == -(e * m);
    if e > 0 { AtLeast(e, m); }
    if e < 0 { AtLeast(-e, m); }
  }

  lemma AtLeast(e: int, m: nat)
    requires e >= 1
    ensures e * m >= m
  {
    assert (e - 1) * m >= 0;
  }

  predicate IsDifference(d: int, value: int, previous: int, m: nat)
    requires m > 0
  {
    d == (value - previous) % m
  }

  predicate IsSum(sum: int, previous: int, d: int, m: nat)
    requires m > 0
  {
    sum == (previous + d) % m
  }

  lemma SumIsValue(sum: int, previous: int, d: int, value: int, m: nat)
    requires m > 0 && 0 <= previous < m && 0 <= value < m
    requires IsDifference(d, value, previous, m) && IsSum(sum, previous, d, m)
    ensures sum == value
  {
    AddBack(previous, value, m);
  }

  lemma SumNext(d: seq<int>, m: nat, n: nat)
    requires m > 0 && n < |d|
    ensures IsSum(Sum(d, m, n + 1), Sum(d, m, n), d[n], m)
  {
  }

  lemma NothingSummed(d: seq<int>, m: nat)
    requires m > 0
    ensures Sum(d, m, 0) == 0
  {
  }

  lemma DifferenceAt(s: seq<int>, m: nat, n: nat)
    requires m > 0 && n < |s|
    ensures IsDifference(Differences(s, m)[n], s[n], Previous(s, n), m)
  {
  }

  lemma {:induction false} SumOfDifferences(s: seq<int>, m: nat, n: nat)
    requires m > 0 && Words(s, m) && n <= |s|
    ensures Sum(Differences(s, m), m, n) == Previous(s, n)
  {
    hide Sum, Differences, IsSum, IsDifference;
    if n > 0 {
      var d := Differences(s, m);
      SumOfDifferences(s, m, n - 1);
      SumNext(d, m, n - 1);
      DifferenceAt(s, m, n - 1);
      SumIsValue(Sum(d, m, n), Previous(s, n - 1), d[n - 1], s[n - 1], m);
    } else {
      NothingSummed(Differences(s, m), m);
    }
  }

  lemma SumsUndoDifferences(s: seq<int>, m: nat)
    requires m > 0 && Words(s, m)
    ensures Sums(Differences(s, m), m) == s
  {
    forall i | 0 <= i < |s|
      ensures Sums(Differences(s, m), m)[i] == s[i]
    {
      SumOfDifferences(s, m, i + 1);
    }
  }

  /** Each value is the one before it plus its difference; the first is its difference. */
  lemma ValueIsPreviousPlusDifference(s: seq<int>, m: nat, i: nat)
    requires m > 0 && Words(s, m) && i < |s|
    ensures s[i] == (if i == 0 then Differences(s, m)[0] else (s[i - 1] + Differences(s, m)[i]) % m)
  {
    DifferenceAt(s, m, i);
    AddBack(Previous(s, i), s[i], m);
    if i == 0 { Small(s[0], m); }
    hide Differences;
  }

  /** Subtracting the value before a sum gives the difference back. */
  lemma SubtractBack(previous: int, difference: int, m: nat)
    requires m > 0 && 0 <= previous < m && 0 <= difference < m
    ensures ((previous + difference) % m - previous) % m == difference
  {
    if previous + difference < m {
      Small(previous + difference, m);
      Small(difference, m);
    } else {
      Small(previous + difference - m, m);
      Shift(previous + difference - m, m);
      Small(difference, m);
      Shift(difference - m, m);
    }
  }

  lemma DifferencesUndoSums(d: seq<int>, m: nat)
    requires m > 0 && Words(d, m)
    ensures Differences(Sums(d, m), m) == d
  {
    forall i | 0 <= i < |d|
      ensures Differences(Sums(d, m), m)[i] == d[i]
    {
      DifferenceOfSum(d, m, i);
    }
  }

  lemma DifferenceOfSum(d: seq<int>, m: nat, i: nat)
    requires m > 0 && Words(d, m) && i < |d|
    ensures Differences(Sums(d, m), m)[i] == d[i]
  {
    var before := Sum(d, m, i);
    assert Previous(Sums(d, m), i) == before;
    assert Sums(d, m)[i] == (before + d[i]) % m;
    hide Sum, Sums, Previous;
    SubtractBack(before, d[i], m);
  }
}
