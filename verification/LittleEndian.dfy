/** Bytes, and the fixed-width little-endian integers segment files are made of. */
module LittleEndian {

  type byte = b: int | 0 <= b < 256

  type Bytes = seq<byte>

  const U32_LIMIT := 0x1_0000_0000
  const U64_LIMIT := 0x1_0000_0000_0000_0000

  /** How many values `width` bytes can tell apart. */
  function Limit(width: nat): (r: nat)
    ensures r > 0
  {
    if width == 0 then 1 else 256 * Limit(width - 1)
  }

  /** `n.to_le_bytes()`, keeping the lowest `width` bytes. */
  function ToLe(n: nat, width: nat): (r: Bytes)
    ensures |r| == width
  {
    if width == 0 then [] else [n % 256] + ToLe(n / 256, width - 1)
  }

  /** `from_le_bytes`. */
  function FromLe(b: Bytes): nat {
    if b == [] then 0 else b[0] + 256 * FromLe(b[1..])
  }

  lemma {:induction false} LeRoundTrip(n: nat, width: nat)
    requires n < Limit(width)
    ensures FromLe(ToLe(n, width)) == n
  {
    if width > 0 {
      LeRoundTrip(n / 256, width - 1);
      assert ToLe(n, width)[1..] == ToLe(n / 256, width - 1);
    }
  }

  /** The lowest byte comes first, and zeros fill the width. */
  lemma {:induction false} LowestFirst(b: byte, width: nat)
    ensures ToLe(0x0102, 2) == [2, 1] && FromLe([2, 1]) == 0x0102
    ensures width > 0 ==> ToLe(b, width)[0] == b && forall k :: 0 < k < width ==> ToLe(b, width)[k] == 0
    decreases width
  {
    assert ToLe(1, 1) == [1] && [2 as byte, 1][1..] == [1] && FromLe([1]) == 1;
    if width > 1 {
      LowestFirst(0, width - 1);
      assert ToLe(b, width)[1..] == ToLe(0, width - 1);
    }
  }

  lemma {:induction false} BytesOfLe(b: Bytes)
    ensures ToLe(FromLe(b), |b|) == b
  {
    if b != [] {
      BytesOfLe(b[1..]);
      assert FromLe(b) % 256 == b[0] && FromLe(b) / 256 == FromLe(b[1..]);
    }
  }

  lemma LimitValues()
    ensures Limit(4) == U32_LIMIT
    ensures Limit(8) == U64_LIMIT
  {
    assert Limit(4) == 256 * Limit(3) == 256 * (256 * Limit(2)) == 256 * (256 * (256 * Limit(1)));
    assert Limit(8) == 256 * Limit(7) == 256 * (256 * Limit(6)) == 256 * (256 * (256 * Limit(5)));
    assert Limit(5) == 256 * Limit(4);
  }
}
