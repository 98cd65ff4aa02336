/** Little-endian wire integers. */
module LittleEndian {

  type byte = b: int | 0 <= b < 256

  function U16(s: seq<byte>): nat
    requires |s| == 2
  {
    s[0] as int + 0x100 * (s[1] as int)
  }

  function U32(s: seq<byte>): nat
    requires |s| == 4
  {
    U16(s[..2]) + 0x1_0000 * U16(s[2..])
  }

  /** The first byte is the least significant one. */
  lemma U32Is(s: seq<byte>)
    requires |s| == 4
    ensures U32(s) == s[0] as int + 0x100 * s[1] as int + 0x1_0000 * s[2] as int + 0x100_0000 * s[3] as int
  {
  }

  function Le16(n: nat): (s: seq<byte>)
    requires n < 0x1_0000
    ensures |s| == 2 && U16(s) == n
  {
    [n % 0x100, n / 0x100]
  }

  function Le32(n: nat): (s: seq<byte>)
    requires n < 0x1_0000_0000
    ensures |s| == 4 && U32(s) == n
  {
    var low, high := Le16(n % 0x1_0000), Le16(n / 0x1_0000);
    assert (low + high)[..2] == low && (low + high)[2..] == high;
    low + high
  }

  lemma Le16UndoesU16(s: seq<byte>)
    requires |s| == 2
    ensures U16(s) < 0x1_0000 && Le16(U16(s)) == s
  {
  }

  lemma HalvesOf(low: nat, high: nat)
    requires low < 0x1_0000
    ensures (low + 0x1_0000 * high) % 0x1_0000 == low && (low + 0x1_0000 * high) / 0x1_0000 == high
  {
  }

  lemma Le32UndoesU32(s: seq<byte>)
    requires |s| == 4
    ensures U32(s) < 0x1_0000_0000 && Le32(U32(s)) == s
  {
    hide U16, Le16;
    Le16UndoesU16(s[..2]);
    Le16UndoesU16(s[2..]);
    HalvesOf(U16(s[..2]), U16(s[2..]));
    assert s == s[..2] + s[2..];
  }
}
