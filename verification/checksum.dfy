/** The Internet checksum of net/netutil.h (RFC 1071 section 2) and its use by TCP and UDP. */
module Checksum {
  type Byte = x: nat | x < 256

  // --------------------------------------------------------------- word sums

  /** Sum of the 16-bit words, low byte first; an odd last byte stands alone. */
  function Sum(p: seq<Byte>): nat {
    if p == [] then 0 else if |p| == 1 then p[0] else p[0] + 256 * p[1] + Sum(p[2..])
  }

  /** The sum of RFC 1071: high byte first, an odd last byte padded with zero. */
  function NetworkSum(p: seq<Byte>): nat {
    if p == [] then 0 else if |p| == 1 then 256 * p[0] else 256 * p[0] + p[1] + NetworkSum(p[2..])
  }

  lemma {:induction false} SumBound(p: seq<Byte>)
    ensures Sum(p) <= 65535 * ((|p| + 1) / 2)
  {
    if |p| > 1 { SumBound(p[2..]); }
  }

  lemma {:induction false} SumConcat(a: seq<Byte>, b: seq<Byte>)
    requires |a| % 2 == 0
    ensures Sum(a + b) == Sum(a) + Sum(b)
  {
    if a == [] {
      assert a + b == b;
    } else {
      SumConcat(a[2..], b);
      assert (a + b)[2..] == a[2..] + b;
    }
  }

  // ------------------------------------------------------------------- folding

  /** The end-around carry, repeated until 16 bits remain. */
  function Fold(s: nat): (f: nat)
    ensures f < 65536
  {
    if s < 65536 then s else Fold(s % 65536 + s / 65536)
  }

  /** Folding keeps the value modulo 65535, and only zero folds to zero. */
  lemma {:induction false} FoldKeeps(s: nat)
    ensures Fold(s) % 65535 == s % 65535 && (Fold(s) == 0 <==> s == 0)
  {
    if s >= 65536 {
      var t := s % 65536 + s / 65536;
      FoldKeeps(t);
      assert s == t + 65535 * (s / 65536);
      ModAdd(t, s / 65536);
    }
  }

  lemma ModAdd(t: nat, k: nat)
    ensures (t + 65535 * k) % 65535 == t % 65535
  {
  }

  /** A folded value is determined by its residue and whether the sum was zero. */
  lemma FoldUnique(s: nat, f: nat)
    requires f < 65536 && f % 65535 == s % 65535 && (f == 0 <==> s == 0)
    ensures Fold(s) == f
  {
    FoldKeeps(s);
  }

  function Complement(f: nat): nat
    requires f < 65536
  {
    65535 - f
  }

  /** inet_checksum_fold: zero exactly when the sum is a positive multiple of 65535. */
  lemma VerifiesIff(s: nat)
    ensures Complement(Fold(s)) == 0 <==> s > 0 && s % 65535 == 0
  {
    FoldKeeps(s);
  }

  // --------------------------------------------------------------- fill and verify

  /** p with the 16-bit value c stored at offset k, low byte first. */
  function Store(p: seq<Byte>, k: nat, c: nat): seq<Byte>
    requires k + 1 < |p| && c < 65536
  {
    p[k := c % 256][k + 1 := c / 256]
  }

  lemma {:induction false} StoreSum(p: seq<Byte>, k: nat, c: nat)
    requires k % 2 == 0 && k + 1 < |p| && c < 65536 && p[k] == 0 && p[k + 1] == 0
    ensures Sum(Store(p, k, c)) == Sum(p) + c
    decreases k
  {
    if k > 0 {
      StoreSum(p[2..], k - 2, c);
      assert Store(p, k, c)[2..] == Store(p[2..], k - 2, c);
    } else {
      assert Store(p, k, c)[2..] == p[2..];
    }
  }

  /** The value UDP sends: a zero checksum is sent as all ones. */
  function UdpValue(c: nat): nat
    requires c < 65536
  {
    if c == 0 then 65535 else c
  }

  /** Filling the zeroed field with the checksum makes the receiver's checksum zero, with the other
      words (a pseudo-header) summed apart, and with UDP's substitute for zero too. */
  lemma FillVerifies(other: nat, p: seq<Byte>, k: nat)
    requires k % 2 == 0 && k + 1 < |p| && p[k] == 0 && p[k + 1] == 0
    ensures var c := Complement(Fold(other + Sum(p)));
            && Complement(Fold(other + Sum(Store(p, k, c)))) == 0
            && Complement(Fold(other + Sum(Store(p, k, UdpValue(c))))) == 0
  {
    hide Fold, Sum, Store;
    var s := other + Sum(p);
    var c := Complement(Fold(s));
    FoldKeeps(s);
    StoreSum(p, k, c);
    StoreSum(p, k, UdpValue(c));
    Cancels(s, Fold(s));
    VerifiesIff(s + c);
    VerifiesIff(s + UdpValue(c));
  }

  lemma Cancels(s: nat, f: nat)
    requires f < 65536 && f % 65535 == s % 65535 && (f == 0 <==> s == 0)
    ensures (s + (65535 - f)) % 65535 == 0 && s + (65535 - f) > 0
    ensures f == 65535 ==> s > 0 && (s + 65535) % 65535 == 0
  {
    var q := s / 65535 - f / 65535;
    Multiple(q + 1);
    assert s + (65535 - f) == 65535 * (q + 1);
    if f == 65535 { Multiple(s / 65535 + 1); }
  }

  lemma Multiple(q: int)
    ensures 65535 * q % 65535 == 0
  {
  }

  // --------------------------------------------------------------------- byte order

  function Swap(x: nat): (y: nat)
    requires x < 65536
    ensures y < 65536
  {
    x % 256 * 256 + x / 256
  }

  lemma {:induction false} NetworkResidue(p: seq<Byte>)
    ensures NetworkSum(p) % 65535 == 256 * Sum(p) % 65535 && (NetworkSum(p) == 0 <==> Sum(p) == 0)
  {
    if |p| > 1 {
      NetworkResidue(p[2..]);
      var n, s := NetworkSum(p[2..]), Sum(p[2..]);
      var lo: nat, hi: nat := p[0], p[1];
      assert 256 * Sum(p) == 256 * lo + hi + 256 * s + 65535 * hi;
      ModAdd(256 * lo + hi + 256 * s, hi);
      SameShift(n, 256 * s, 256 * lo + hi);
    }
  }

  lemma SameShift(x: nat, y: nat, d: nat)
    requires x % 65535 == y % 65535
    ensures (x + d) % 65535 == (y + d) % 65535
  {
    var q := x / 65535 - y / 65535;
    MultipleMore(q, y + d);
    assert x + d == 65535 * q + (y + d);
  }

  lemma MultipleMore(q: int, z: int)
    ensures (65535 * q + z) % 65535 == z % 65535
  {
  }

  lemma SwapResidue(x: nat)
    requires x < 65536
    ensures Swap(x) % 65535 == 256 * x % 65535 && (Swap(x) == 0 <==> x == 0)
  {
    var hi, lo := x / 256, x % 256;
    assert 256 * x == 256 * lo + hi + 65535 * hi;
    ModAdd(256 * lo + hi, hi);
  }

  lemma ScaleResidue(x: nat, y: nat)
    requires x % 65535 == y % 65535
    ensures 256 * x % 65535 == 256 * y % 65535
  {
    ScaleMod(x);
    ScaleMod(y);
  }

  lemma ScaleMod(x: nat)
    ensures 256 * x % 65535 == 256 * (x % 65535) % 65535
  {
    var q, r := x / 65535, x % 65535;
    assert 256 * x == 256 * r + 65535 * (256 * q);
    ModAdd(256 * r, 256 * q);
  }

  lemma SwapComplement(f: nat)
    requires f < 65536
    ensures Complement(Swap(f)) == Swap(Complement(f))
  {
    var hi, lo := f / 256, f % 256;
    assert 65535 - f == 256 * (255 - hi) + (255 - lo);
    assert (65535 - f) / 256 == 255 - hi && (65535 - f) % 256 == 255 - lo;
  }

  /** Summing low byte first gives the byte swap of the checksum RFC 1071 defines. */
  lemma ByteOrder(p: seq<Byte>)
    ensures Fold(NetworkSum(p)) == Swap(Fold(Sum(p)))
    ensures Complement(Fold(NetworkSum(p))) == Swap(Complement(Fold(Sum(p))))
  {
    hide Sum, NetworkSum, Fold, Swap, Complement;
    var f := Fold(Sum(p));
    FoldKeeps(Sum(p));
    NetworkResidue(p);
    SwapResidue(f);
    ScaleResidue(f, Sum(p));
    FoldUnique(NetworkSum(p), Swap(f));
    SwapComplement(f);
  }

  // -------------------------------------------------------------------- the code

  /** inet_checksum_partial, with the 32-bit accumulator of the code. */
  method PartialSum(p: seq<Byte>) returns (sum: nat)
    ensures sum == Sum(p) % 0x1_0000_0000
    ensures |p| <= 131072 ==> sum == Sum(p)
  {
    sum := 0;
    var i := 0;
    while |p| - i > 1
      invariant 0 <= i <= |p| && sum < 0x1_0000_0000
      invariant (sum + Sum(p[i..])) % 0x1_0000_0000 == Sum(p) % 0x1_0000_0000
    {
      var lo: nat, hi: nat := p[i], p[i + 1];
      var w := lo + 256 * hi;
      assert p[i..][2..] == p[i + 2..];
      WrapStep(sum, w, Sum(p[i + 2..]));
      sum := (sum + w) % 0x1_0000_0000;
      i := i + 2;
    }
    if |p| - i == 1 {
      sum := (sum + p[i]) % 0x1_0000_0000;
    }
    SumBound(p);
  }

  lemma WrapStep(sum: nat, w: nat, rest: nat)
    ensures ((sum + w) % 0x1_0000_0000 + rest) % 0x1_0000_0000 == (sum + (w + rest)) % 0x1_0000_0000
  {
  }

  /** inet_checksum_fold */
  method FoldSum(sum: nat) returns (c: nat)
    requires sum < 0x1_0000_0000
    ensures c == Complement(Fold(sum)) && c < 65536
  {
    var s := sum;
    while s >= 65536
      invariant Fold(s) == Fold(sum)
    {
      s := s % 65536 + s / 65536;
    }
    c := 65535 - s;
  }

  /** inet_checksum */
  method InetChecksum(p: seq<Byte>) returns (c: nat)
    requires |p| <= 131072
    ensures c == Complement(Fold(Sum(p))) && c < 65536
  {
    var sum := PartialSum(p);
    c := FoldSum(sum);
  }

  /** tcp_checksum and udp_checksum: pseudo-header and segment are summed apart, as if they were one. */
  method TransportChecksum(pseudo: seq<Byte>, seg: seq<Byte>) returns (c: nat)
    requires |pseudo| == 12 && |seg| <= 65535
    ensures c == Complement(Fold(Sum(pseudo) + Sum(seg))) == Complement(Fold(Sum(pseudo + seg))) && c < 65536
  {
    hide Sum, Fold;
    var sum := PartialSum(pseudo);
    var rest := PartialSum(seg);
    SumBound(pseudo);
    SumBound(seg);
    SumConcat(pseudo, seg);
    c := FoldSum((sum + rest) % 0x1_0000_0000);
  }

  /** Sending: the checksum goes into the zeroed field at offset k, as TCP or as UDP does it; the
      receiver's TransportChecksum of the result is zero. */
  method Seal(pseudo: seq<Byte>, seg: array<Byte>, k: nat, udp: bool)
    requires |pseudo| == 12 && seg.Length <= 65535 && k % 2 == 0 && k + 1 < seg.Length && seg[k] == 0 && seg[k + 1] == 0
    modifies seg
    ensures forall i :: 0 <= i < seg.Length && i != k && i != k + 1 ==> seg[i] == old(seg[i])
    ensures Complement(Fold(Sum(pseudo) + Sum(seg[..]))) == 0
    ensures udp ==> seg[k] != 0 || seg[k + 1] != 0
  {
    hide Sum, Fold;
    ghost var before := seg[..];
    var c := TransportChecksum(pseudo, seg[..]);
    FillVerifies(Sum(pseudo), before, k);
    if udp && c == 0 { c := 0xFFFF; }
    seg[k] := c % 256;
    seg[k + 1] := c / 256;
    assert seg[..] == Store(before, k, c);
  }
}
