/** Least-significant-bit-first bits, as DEFLATE packs them (section 3.1.1 of RFC 1951): the
    specification and vgzip's bit reader and writer. */
module GzBits {
  import opened Bits
  import opened Seqs

  /** The low `k` bits of `v`, least significant first. */
  function LeBits(v: nat, k: nat): (bs: seq<Bit>)
    ensures |bs| == k
  {
    if k == 0 then [] else [v % 2] + LeBits(v / 2, k - 1)
  }

  /** The `k`-bit number at position `p`, least significant bit first. */
  function ReadLe(d: seq<Bit>, p: nat, k: nat): (v: nat)
    requires p + k <= |d|
    ensures v < Pow2(k)
    decreases k
  {
    if k == 0 then 0 else d[p] + 2 * ReadLe(d, p + 1, k - 1)
  }

  /** The bits of a byte string in the order they are read. */
  function Stream(s: seq<Byte>): (bs: seq<Bit>)
    ensures |bs| == 8 * |s|
  {
    if s == [] then [] else Stream(s[..|s| - 1]) + LeBits(s[|s| - 1], 8)
  }

  lemma {:induction false} LeIndex(v: nat, k: nat, i: nat)
    requires i < k
    ensures LeBits(v, k)[i] == v / Pow2(i) % 2
  {
    if i > 0 {
      LeIndex(v / 2, k - 1, i - 1);
      DivHalfPow2(v, i);
    } else {
      assert Pow2(0) == 1;
    }
  }

  /** Which bit of which byte. */
  lemma {:induction false} StreamIndex(s: seq<Byte>, p: nat)
    requires p < 8 * |s|
    ensures Stream(s)[p] == s[p / 8] / Pow2(p % 8) % 2
  {
    var n := |s| - 1;
    if p < 8 * n {
      StreamIndex(s[..n], p);
    } else {
      LeIndex(s[n], 8, p - 8 * n);
      assert p / 8 == n && p % 8 == p - 8 * n;
    }
  }

  lemma {:induction false} StreamAppend(a: seq<Byte>, b: seq<Byte>)
    ensures Stream(a + b) == Stream(a) + Stream(b)
  {
    if b == [] {
      assert a + b == a;
    } else {
      var n := |b| - 1;
      StreamAppend(a, b[..n]);
      assert (a + b)[..|a + b| - 1] == a + b[..n] && (a + b)[|a + b| - 1] == b[n];
      Assoc(Stream(a), Stream(b[..n]), LeBits(b[n], 8));
    }
  }

  lemma {:induction false} LeSmall(v: nat, k: nat)
    requires k > 0 && v < Pow2(k)
    ensures v / 2 < Pow2(k - 1)
  {
  }

  /** A number written least significant bit first is read back. */
  lemma {:induction false} LeBack(d: seq<Bit>, p: nat, v: nat, k: nat)
    requires v < Pow2(k) && At(d, p, LeBits(v, k))
    ensures ReadLe(d, p, k) == v
    decreases k
  {
    if k > 0 {
      AtSplit(d, p, [v % 2], LeBits(v / 2, k - 1));
      assert d[p..p + 1][0] == v % 2;
      LeSmall(v, k);
      LeBack(d, p + 1, v / 2, k - 1);
    }
  }

  /** A bit on top of `k` bits. */
  function OnTop(v: nat, k: nat, b: Bit): nat
  {
    if b == 1 then v + Pow2(k) else v
  }

  /** One bit more on top. */
  lemma {:induction false} LeSnoc(v: nat, k: nat, b: Bit)
    requires v < Pow2(k)
    ensures LeBits(OnTop(v, k, b), k + 1) == LeBits(v, k) + [b] && OnTop(v, k, b) < Pow2(k + 1)
    decreases k
  {
    var w := OnTop(v, k, b);
    assert Pow2(k + 1) == 2 * Pow2(k);
    if k == 0 {
      assert Pow2(0) == 1 && w == b;
      assert LeBits(w, 1) == [b] + LeBits(0, 0);
    } else {
      var h := Pow2(k - 1);
      assert Pow2(k) == 2 * h;
      assert w % 2 == v % 2 && w / 2 == OnTop(v / 2, k - 1, b);
      LeSmall(v, k);
      LeSnoc(v / 2, k - 1, b);
      assert LeBits(w, k + 1) == [w % 2] + LeBits(w / 2, k);
    }
  }

  lemma {:induction false} ReadSnoc(d: seq<Bit>, p: nat, k: nat)
    requires p + k < |d|
    ensures ReadLe(d, p, k + 1) == OnTop(ReadLe(d, p, k), k, d[p + k])
    decreases k
  {
    if k > 0 {
      ReadSnoc(d, p + 1, k - 1);
      assert ReadLe(d, p, k + 1) == d[p] + 2 * ReadLe(d, p + 1, k);
    } else {
      assert Pow2(0) == 1;
      assert ReadLe(d, p, 1) == d[p] + 2 * ReadLe(d, p + 1, 0);
    }
  }

  lemma {:induction false} LeZeros(v: nat, k: nat, n: nat)
    requires v < Pow2(k)
    ensures LeBits(v, k + n) == LeBits(v, k) + Zeros(n)
    decreases n
  {
    if n > 0 {
      LeZeros(v, k, n - 1);
      Pow2Mono(k, k + n - 1);
      LeSnoc(v, k + n - 1, 0);
      assert Zeros(n - 1) + [0] == Zeros(n);
    } else {
      assert Zeros(0) == [];
    }
  }

  /** `struct bitw` */
  class LsbWriter {
    var out: seq<Byte>
    var buf: nat
    var cnt: nat

    ghost predicate Valid()
      reads this
    {
      cnt < 8 && buf < Pow2(cnt)
    }

    ghost function Written(): seq<Bit>
      reads this
    {
      Stream(out) + LeBits(buf, cnt)
    }

    constructor ()
      ensures Valid() && Written() == [] && out == [] && cnt == 0
    {
      out, buf, cnt := [], 0, 0;
    }

    /** `putbit` */
    method PutBit(bit: Bit)
      requires Valid()
      modifies this
      ensures Valid() && Written() == old(Written()) + [bit]
    {
      hide LeBits, Stream, Pow2;
      LeSnoc(buf, cnt, bit);
      Assoc(Stream(out), LeBits(buf, cnt), [bit]);
      buf := OnTop(buf, cnt, bit);
      cnt := cnt + 1;
      if cnt == 8 {
        Pow2Eight();
        StreamSnoc(out, buf);
        out := out + [buf];
        buf, cnt := 0, 0;
        Empty();
      }
    }

    /** `putbits` */
    method PutBits(val: nat, n: nat)
      requires Valid()
      modifies this
      ensures Valid() && Written() == old(Written()) + LeBits(val, n)
    {
      hide Written, LeBits, Pow2;
      assert Written() + LeBits(val, 0) == Written() by { NoBits(val); }
      for i := 0 to n
        invariant Valid() && Written() == old(Written()) + LeBits(val, i)
      {
        LeMore(val, i);
        Assoc(old(Written()), LeBits(val, i), [val / Pow2(i) % 2]);
        PutBit(val / Pow2(i) % 2);
      }
    }

    /** `putbits_rev`: a Huffman code, most significant bit first. */
    method PutCode(val: nat, n: nat)
      requires Valid()
      modifies this
      ensures Valid() && Written() == old(Written()) + ToBits(val, n)
    {
      hide Written, Pow2;
      assert Written() + ToBits(val / Pow2(n), 0) == Written();
      for i := n downto 0
        invariant Valid() && Written() == old(Written()) + ToBits(val / Pow2(i), n - i)
      {
        DivPow2(val, i);
        Assoc(old(Written()), ToBits(val / Pow2(i + 1), n - i - 1), [val / Pow2(i) % 2]);
        PutBit(val / Pow2(i) % 2);
      }
      assert val / Pow2(0) == val by { PowOne(val); }
    }

    /** `flush_bits` */
    method Flush()
      requires Valid()
      modifies this
      ensures Valid() && cnt == 0 && Written() == Stream(out)
      ensures exists pad :: 0 <= pad < 8 && Stream(out) == old(Written()) + Zeros(pad)
    {
      hide LeBits, Stream, Pow2;
      ghost var pad := if cnt == 0 then 0 else 8 - cnt;
      NoBits(buf);
      if cnt != 0 {
        LeZeros(buf, cnt, pad);
        Assoc(Stream(out), LeBits(buf, cnt), Zeros(pad));
        Pow2Eight();
        Pow2Mono(cnt, 8);
        StreamSnoc(out, buf);
        out := out + [buf];
        buf, cnt := 0, 0;
        Empty();
      } else {
        assert Zeros(0) == [];
      }
      assert Stream(out) == old(Written()) + Zeros(pad);
    }
  }

  lemma {:induction false} StreamSnoc(s: seq<Byte>, b: Byte)
    ensures Stream(s + [b]) == Stream(s) + LeBits(b, 8)
  {
    assert (s + [b])[..|s|] == s;
  }

  lemma {:induction false} Empty()
    ensures LeBits(0, 0) == [] && Pow2(0) == 1
  {
  }

  lemma {:induction false} NoBits(v: nat)
    ensures LeBits(v, 0) == []
  {
  }

  lemma {:induction false} PowOne(v: nat)
    ensures v / Pow2(0) == v
  {
  }

  /** The low bits of a number, one more. */
  lemma {:induction false} LeMore(v: nat, k: nat)
    ensures LeBits(v, k + 1) == LeBits(v, k) + [v / Pow2(k) % 2]
    decreases k
  {
    if k == 0 {
      assert Pow2(0) == 1;
      assert LeBits(v, 1) == [v % 2] + LeBits(v / 2, 0);
    } else {
      LeMore(v / 2, k - 1);
      DivHalfPow2(v, k);
    }
  }

  /** `struct bitr`. The ghost `p` is the number of bits taken so far. */
  class LsbReader {
    const d: seq<Byte>
    var pos: nat
    var buf: nat
    var cnt: nat
    ghost var p: nat

    ghost predicate Valid()
      reads this
    {
      cnt < 8 && pos <= |d| && p + cnt == 8 * pos
      && (cnt > 0 ==> buf == d[pos - 1] / Pow2(8 - cnt))
    }

    constructor (data: seq<Byte>)
      ensures Valid() && d == data && p == 0
    {
      d, pos, buf, cnt, p := data, 0, 0, 0, 0;
    }

    /** `getbit`: -1 at the end. */
    method GetBit() returns (b: int)
      requires Valid()
      modifies this
      ensures Valid()
      ensures old(p) < 8 * |d| ==> b == Stream(d)[old(p)] && p == old(p) + 1
      ensures old(p) >= 8 * |d| ==> b == -1 && p == old(p)
      ensures b >= 0 <==> old(p) < 8 * |d|
    {
      if cnt == 0 {
        if pos >= |d| { return -1; }
        buf := d[pos];
        assert Pow2(0) == 1;
        pos := pos + 1;
        cnt := 8;
      }
      assert p < 8 * |d| && p / 8 == pos - 1 && p % 8 == 8 - cnt;
      StreamIndex(d, p);
      DivPow2(d[pos - 1], 8 - cnt);
      b := buf % 2;
      buf := buf / 2;
      cnt := cnt - 1;
      p := p + 1;
    }

    /** `getbits`: -1 at the end. */
    method GetBits(n: nat) returns (v: int)
      requires Valid()
      modifies this
      ensures Valid()
      ensures old(p) + n <= 8 * |d| ==> v == ReadLe(Stream(d), old(p), n) && p == old(p) + n
      ensures old(p) + n > 8 * |d| ==> v == -1 && p == 8 * |d|
    {
      hide Stream, ReadLe, Pow2;
      v := 0;
      assert ReadLe(Stream(d), p, 0) == 0 by { ReadNone(Stream(d), p); }
      for i := 0 to n
        invariant Valid() && old(p) + i <= 8 * |d| && p == old(p) + i && v == ReadLe(Stream(d), old(p), i)
      {
        var b := GetBit();
        if b < 0 { return -1; }
        ReadSnoc(Stream(d), old(p), i);
        v := OnTop(v, i, b);
      }
    }

    /** What a stored block does first: the rest of the byte is dropped. */
    method Align()
      requires Valid()
      modifies this
      ensures Valid() && cnt == 0 && p == 8 * pos && p == Aligned(old(p))
    {
      p := p + cnt;
      cnt := 0;
    }

    /** Whole bytes are passed over. */
    method Skip(n: nat)
      requires Valid() && cnt == 0 && pos + n <= |d|
      modifies this
      ensures Valid() && cnt == 0 && pos == old(pos) + n && p == old(p) + 8 * n
    {
      pos := pos + n;
      p := p + 8 * n;
    }
  }

  /** The next position at a byte boundary. */
  function Aligned(p: nat): nat
  {
    (p + 7) / 8 * 8
  }

  lemma {:induction false} ReadNone(d: seq<Bit>, p: nat)
    requires p <= |d|
    ensures ReadLe(d, p, 0) == 0
  {
  }
}
