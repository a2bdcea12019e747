/** Bytes, bits and most-significant-bit-first bit strings: the vocabulary in which
    the bzip2 stream format is specified. */
module Bits {

  type Byte = x: int | 0 <= x < 256
  type Bit = x: int | 0 <= x < 2

  function Pow2(k: nat): (r: nat)
    ensures r >= 1
  {
    if k == 0 then 1 else 2 * Pow2(k - 1)
  }

  lemma {:induction false} Pow2Add(a: nat, b: nat)
    ensures Pow2(a + b) == Pow2(a) * Pow2(b)
  {
    if b == 0 {
    } else {
      Pow2Add(a, b - 1);
      assert Pow2(a + b) == 2 * Pow2(a + (b - 1));
    }
  }

  lemma {:induction false} Pow2Eight()
    ensures Pow2(8) == 256
  {
    assert Pow2(4) == 16;
    Pow2Add(4, 4);
  }

  lemma {:induction false} Pow2Mono(a: nat, b: nat)
    requires a <= b
    ensures Pow2(a) <= Pow2(b)
    decreases b - a
  {
    if a < b { Pow2Mono(a + 1, b); }
  }

  /** The low `k` bits of `v`, most significant first. */
  function ToBits(v: nat, k: nat): (bs: seq<Bit>)
    ensures |bs| == k
  {
    if k == 0 then [] else ToBits(v / 2, k - 1) + [v % 2]
  }

  /** The number a most-significant-first bit string denotes. */
  function FromBits(bs: seq<Bit>): nat
  {
    if bs == [] then 0 else 2 * FromBits(bs[..|bs| - 1]) + bs[|bs| - 1]
  }

  lemma {:induction false} DivPow2(v: nat, k: nat)
    ensures v / Pow2(k) / 2 == v / Pow2(k + 1)
  {
    var p := Pow2(k);
    var q := v / p;
    var r := v % p;
    var q2, b := q / 2, q % 2;
    assert v == p * q + r;
    assert q == 2 * q2 + b;
    assert v == (2 * p) * q2 + (b * p + r) by {
      assert p * q == p * (2 * q2) + p * b;
      assert p * (2 * q2) == (2 * p) * q2;
    }
    assert 0 <= b * p + r < 2 * p;
    DivUnique(v, 2 * p, q2, b * p + r);
  }

  lemma {:induction false} MulAtLeast(d: int, x: int)
    requires d > 0 && x >= 1
    ensures d * x >= d
  {
  }

  lemma {:induction false} DivUnique(v: int, d: int, q: int, r: int)
    requires d > 0 && 0 <= r < d && v == d * q + r
    ensures v / d == q && v % d == r
  {
    var q', r' := v / d, v % d;
    assert v == d * q' + r' && 0 <= r' < d;
    assert d * (q - q') == d * q - d * q';
    assert d * (q' - q) == d * q' - d * q;
    if q > q' {
      MulAtLeast(d, q - q');
    } else if q < q' {
      MulAtLeast(d, q' - q);
    }
  }

  lemma {:induction false} DivHalfPow2(v: nat, m: nat)
    requires m > 0
    ensures v / 2 / Pow2(m - 1) == v / Pow2(m)
  {
    var p := Pow2(m - 1);
    var h, b := v / 2, v % 2;
    var q, r := h / p, h % p;
    assert v == 2 * h + b && h == p * q + r;
    assert v == (2 * p) * q + (2 * r + b) by {
      assert 2 * (p * q) == (2 * p) * q;
    }
    DivUnique(v, 2 * p, q, 2 * r + b);
  }

  lemma {:induction false} ModPow2Step(v: nat, k: nat)
    ensures v % Pow2(k + 1) == 2 * (v / 2 % Pow2(k)) + v % 2
  {
    var p := Pow2(k);
    var h, b := v / 2, v % 2;
    var q, r := h / p, h % p;
    assert v == 2 * h + b && h == p * q + r;
    assert v == (2 * p) * q + (2 * r + b) by {
      assert 2 * (p * q) == (2 * p) * q;
    }
    DivUnique(v, 2 * p, q, 2 * r + b);
  }

  /** Reading back what was written, for any value: only the low `k` bits survive. */
  lemma {:induction false} FromToBits(v: nat, k: nat)
    ensures FromBits(ToBits(v, k)) == v % Pow2(k)
  {
    if k > 0 {
      FromToBits(v / 2, k - 1);
      ModPow2Step(v, k - 1);
      assert ToBits(v, k)[..k - 1] == ToBits(v / 2, k - 1);
    }
  }

  lemma {:induction false} FromBitsBound(bs: seq<Bit>)
    ensures FromBits(bs) < Pow2(|bs|)
  {
    if bs != [] { FromBitsBound(bs[..|bs| - 1]); }
  }

  lemma {:induction false} ToFromBits(bs: seq<Bit>)
    ensures ToBits(FromBits(bs), |bs|) == bs
  {
    if bs != [] { ToFromBits(bs[..|bs| - 1]); }
  }

  function Zeros(n: nat): (bs: seq<Bit>)
    ensures |bs| == n
  {
    seq(n, _ => 0)
  }

  /** All the bits of a byte string, in stream order. */
  function BytesToBits(s: seq<Byte>): (bs: seq<Bit>)
    ensures |bs| == 8 * |s|
  {
    if s == [] then [] else BytesToBits(s[..|s| - 1]) + ToBits(s[|s| - 1], 8)
  }

  /** Bit `p` of the stream `d`. Past the end every bit reads as zero. */
  function BitAt(d: seq<Bit>, p: nat): Bit
  {
    if p < |d| then d[p] else 0
  }

  /** The `k`-bit number at position `p`. */
  function ReadBits(d: seq<Bit>, p: nat, k: nat): (v: nat)
    ensures v < Pow2(k)
  {
    if k == 0 then 0 else 2 * ReadBits(d, p, k - 1) + BitAt(d, p + k - 1)
  }

  /** The stream `d` holds the bit string `bs` at position `p`. */
  ghost predicate At(d: seq<Bit>, p: nat, bs: seq<Bit>)
  {
    p + |bs| <= |d| && d[p..p + |bs|] == bs
  }

  lemma {:induction false} AtSplit(d: seq<Bit>, p: nat, a: seq<Bit>, b: seq<Bit>)
    requires At(d, p, a + b)
    ensures At(d, p, a) && At(d, p + |a|, b)
  {
    var m := p + |a|;
    var all := d[p..p + |a + b|];
    assert d[p..m] == all[..|a|] && d[m..m + |b|] == all[|a|..];
  }

  lemma {:induction false} AtSplit4(d: seq<Bit>, p: nat, a: seq<Bit>, b: seq<Bit>, c: seq<Bit>, e: seq<Bit>)
    requires At(d, p, a + (b + (c + e)))
    ensures At(d, p, a) && At(d, p + |a|, b) && At(d, p + |a| + |b|, c) && At(d, p + |a| + |b| + |c|, e)
  {
    AtSplit(d, p, a, b + (c + e));
    AtSplit(d, p + |a|, b, c + e);
    AtSplit(d, p + |a| + |b|, c, e);
  }

  lemma {:induction false} AtPrefix(d: seq<Bit>, p: nat, a: seq<Bit>, n: nat)
    requires n <= |a| && At(d, p, a)
    ensures At(d, p, a[..n])
  {
    assert a == a[..n] + a[n..];
    AtSplit(d, p, a[..n], a[n..]);
  }

  lemma {:induction false} AtIndex(d: seq<Bit>, p: nat, bs: seq<Bit>, i: nat)
    requires i < |bs| && At(d, p, bs)
    ensures BitAt(d, p + i) == bs[i]
  {
    assert d[p..p + |bs|][i] == d[p + i];
  }

  lemma {:induction false} ReadBitsIsFromBits(d: seq<Bit>, p: nat, bs: seq<Bit>)
    requires At(d, p, bs)
    ensures ReadBits(d, p, |bs|) == FromBits(bs)
  {
    if bs != [] {
      AtPrefix(d, p, bs, |bs| - 1);
      ReadBitsIsFromBits(d, p, bs[..|bs| - 1]);
      AtIndex(d, p, bs, |bs| - 1);
    }
  }

  /** Writing a number in `k` bits and reading `k` bits gives it back, if it fits. */
  lemma {:induction false} ReadBack(d: seq<Bit>, p: nat, v: nat, k: nat)
    requires At(d, p, ToBits(v, k))
    ensures ReadBits(d, p, k) == v % Pow2(k)
    ensures v < Pow2(k) ==> ReadBits(d, p, k) == v
  {
    ReadBitsIsFromBits(d, p, ToBits(v, k));
    FromToBits(v, k);
    if v < Pow2(k) { assert v % Pow2(k) == v by { DivUnique(v, Pow2(k), 0, v); } }
  }

  lemma {:induction false} ToBitsIndex(v: nat, k: nat, i: nat)
    requires i < k
    ensures ToBits(v, k)[i] == v / Pow2(k - 1 - i) % 2
  {
    if i == k - 1 {
      assert v / Pow2(0) == v;
    } else {
      ToBitsIndex(v / 2, k - 1, i);
      DivHalfPow2(v, k - 1 - i);
    }
  }

  /** Which bit of which byte. */
  lemma {:induction false} BytesToBitsIndex(s: seq<Byte>, p: nat)
    requires p < 8 * |s|
    ensures BytesToBits(s)[p] == s[p / 8] / Pow2(7 - p % 8) % 2
  {
    var n := |s| - 1;
    if p < 8 * n {
      BytesToBitsIndex(s[..n], p);
    } else {
      ToBitsIndex(s[n], 8, p - 8 * n);
      assert p / 8 == n && p % 8 == p - 8 * n;
    }
  }

  lemma {:induction false} BytesToBitsAppend(a: seq<Byte>, b: seq<Byte>)
    ensures BytesToBits(a + b) == BytesToBits(a) + BytesToBits(b)
  {
    if b == [] {
      assert a + b == a;
    } else {
      var n := |b| - 1;
      BytesToBitsAppend(a, b[..n]);
      assert (a + b)[..|a + b| - 1] == a + b[..n];
    }
  }
}
