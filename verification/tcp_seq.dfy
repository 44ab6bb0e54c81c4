/** 32-bit wrapping sequence numbers and the signed comparisons of net/tcp.h. */
module SeqSpace {
  const TWO31 := 0x8000_0000
  const TWO32 := 0x1_0000_0000

  type u32 = x: int | 0 <= x < 0x1_0000_0000
  type byte = x: int | 0 <= x < 256

  /** Conversion of an unbounded integer to uint32_t. */
  function Wrap(x: int): u32 {
    x % 0x1_0000_0000
  }

  /** (int32_t)(a - b) */
  function SeqDiff(a: u32, b: u32): int {
    var d := Wrap(a - b);
    if d < TWO31 then d else d - TWO32
  }

  predicate SeqLt(a: u32, b: u32) { SeqDiff(a, b) < 0 }
  predicate SeqLe(a: u32, b: u32) { SeqDiff(a, b) <= 0 }
  predicate SeqGt(a: u32, b: u32) { SeqDiff(a, b) > 0 }

  lemma WrapDiff(base: int, x: int, y: int)
    ensures Wrap(Wrap(base + x) - Wrap(base + y)) == Wrap(x - y)
  {
    var qx, qy := (base + x) / TWO32, (base + y) / TWO32;
    assert Wrap(base + x) - Wrap(base + y) == x - y - (qx - qy) * TWO32;
    WrapShift(x - y, qy - qx);
  }

  lemma WrapShift(x: int, k: int)
    ensures Wrap(x + k * TWO32) == Wrap(x)
  {
  }

  lemma WrapSmall(d: int)
    requires 0 <= d < TWO32
    ensures Wrap(d) == d
  {
  }

  /** The signed comparison recovers the distance of two stream positions exactly when
      that distance fits in 32 signed bits. */
  lemma SeqDiffExact(base: int, x: int, y: int)
    ensures SeqDiff(Wrap(base + x), Wrap(base + y)) == x - y <==> -TWO31 <= x - y < TWO31
  {
    WrapDiff(base, x, y);
  }

  /** Numbers that agree modulo 2^32 and lie less than 2^32 apart are equal. */
  lemma WrapInjective(base: int, x: int, y: int)
    requires -TWO32 < x - y < TWO32
    ensures Wrap(base + x) == Wrap(base + y) <==> x == y
  {
    WrapDiff(base, x, y);
  }

  lemma WrapAdd(base: int, x: int, n: int)
    ensures Wrap(Wrap(base + x) + n) == Wrap(base + x + n)
  {
    var q := (base + x) / TWO32;
    assert Wrap(base + x) + n == base + x + n - q * TWO32;
    WrapShift(base + x + n, -q);
  }
}
