/** The MSB-first bit reader and writer of vbzip2 (`struct bitr`, `struct bitw`). */
module BzBitIO {
  import opened Bits
  import opened Seqs

  /** Bits packed into bytes, the last byte filled up with zero bits. */
  function Pack(bs: seq<Bit>): (s: seq<Byte>)
    ensures |s| == (|bs| + 7) / 8
    decreases |bs|
  {
    if bs == [] then []
    else if |bs| < 8 then
      var full := bs + Zeros(8 - |bs|);
      PackedByte(full);
      [FromBits(full)]
    else
      PackedByte(bs[..8]);
      [FromBits(bs[..8])] + Pack(bs[8..])
  }

  lemma {:induction false} PackedByte(bs: seq<Bit>)
    requires |bs| == 8
    ensures FromBits(bs) < 256
  {
    FromBitsBound(bs);
    assert Pow2(8) == 256 by {
      assert Pow2(4) == 16;
      Pow2Add(4, 4);
    }
  }

  lemma {:induction false} OneByteBits(bs: seq<Bit>)
    requires |bs| == 8
    ensures FromBits(bs) < 256 && BytesToBits([FromBits(bs)]) == bs
  {
    PackedByte(bs);
    ToFromBits(bs);
    var b: Byte := FromBits(bs);
    assert [b][..0] == [];
    assert BytesToBits([b]) == [] + ToBits(b, 8);
  }

  /** Packing keeps every bit and adds fewer than eight zeros. */
  lemma {:induction false} PackBits(bs: seq<Bit>)
    ensures BytesToBits(Pack(bs)) == bs + Zeros(8 * |Pack(bs)| - |bs|)
    decreases |bs|
  {
    if bs == [] {
    } else if |bs| < 8 {
      OneByteBits(bs + Zeros(8 - |bs|));
    } else {
      PackBits(bs[8..]);
      PackLong(bs);
    }
  }

  lemma {:induction false} PackUnfold(bs: seq<Bit>)
    requires |bs| >= 8
    ensures FromBits(bs[..8]) < 256 && Pack(bs) == [FromBits(bs[..8])] + Pack(bs[8..])
  {
    PackedByte(bs[..8]);
  }

  lemma {:induction false} PackLong(bs: seq<Bit>)
    requires |bs| >= 8
    requires BytesToBits(Pack(bs[8..])) == bs[8..] + Zeros(8 * |Pack(bs[8..])| - |bs[8..]|)
    ensures BytesToBits(Pack(bs)) == bs + Zeros(8 * |Pack(bs)| - |bs|)
  {
    hide Pack, BytesToBits, FromBits, Zeros;
    PackUnfold(bs);
    OneByteBits(bs[..8]);
    var rest := Pack(bs[8..]);
    BytesToBitsAppend([FromBits(bs[..8])], rest);
    var pad := Zeros(8 * |rest| - |bs[8..]|);
    Assoc(bs[..8], bs[8..], pad);
    assert bs == bs[..8] + bs[8..];
    assert 8 * |Pack(bs)| - |bs| == 8 * |rest| - |bs[8..]|;
  }

  lemma {:induction false} ToBitsInjective(a: nat, b: nat, k: nat)
    requires a < Pow2(k) && b < Pow2(k)
    requires ToBits(a, k) == ToBits(b, k)
    ensures a == b
  {
    FromToBits(a, k);
    FromToBits(b, k);
    DivUnique(a, Pow2(k), 0, a);
    DivUnique(b, Pow2(k), 0, b);
  }

  lemma {:induction false} BytesToBitsInjective(a: seq<Byte>, b: seq<Byte>)
    requires BytesToBits(a) == BytesToBits(b)
    ensures a == b
  {
    assert |a| == |b|;
    if a != [] {
      var n := |a| - 1;
      var x := BytesToBits(a);
      assert BytesToBits(a[..n]) == x[..8 * n] == BytesToBits(b[..n]);
      BytesToBitsInjective(a[..n], b[..n]);
      assert ToBits(a[n], 8) == x[8 * n..] == ToBits(b[n], 8);
      Pow2Eight();
      ToBitsInjective(a[n], b[n], 8);
      assert a == a[..n] + [a[n]] && b == b[..n] + [b[n]];
    }
  }

  lemma {:induction false} PowZero(v: nat)
    ensures v / Pow2(0) == v
  {
  }

  lemma {:induction false} NextBit(buf: nat, cnt: nat, bit: Bit)
    requires buf < Pow2(cnt)
    ensures buf * 2 + bit < Pow2(cnt + 1) && ToBits(buf * 2 + bit, cnt + 1) == ToBits(buf, cnt) + [bit]
  {
  }

  lemma {:induction false} FullByte(out: seq<Byte>, b: Byte)
    ensures BytesToBits(out + [b]) == BytesToBits(out) + ToBits(b, 8)
  {
    hide ToBits;
    assert (out + [b])[..|out|] == out;
  }

  lemma {:induction false} NoPending()
    ensures Pow2(0) == 1 && ToBits(0, 0) == []
  {
  }

  /** `struct bitw`: bytes already put in the growable buffer and up to seven pending bits. */
  class BitWriter {
    var out: seq<Byte>
    var buf: nat
    var cnt: nat

    ghost predicate Valid()
      reads this
    {
      cnt < 8 && buf < Pow2(cnt)
    }

    /** Everything written so far. */
    ghost function Written(): seq<Bit>
      reads this
    {
      BytesToBits(out) + ToBits(buf, cnt)
    }

    constructor (prefix: seq<Byte>)
      ensures Valid() && out == prefix && cnt == 0
      ensures Written() == BytesToBits(prefix)
    {
      out, buf, cnt := prefix, 0, 0;
    }

    method PutBit(bit: Bit)
      requires Valid()
      modifies this
      ensures Valid()
      ensures Written() == old(Written()) + [bit]
      ensures cnt == if old(cnt) == 7 then 0 else old(cnt) + 1
    {
      hide Pow2, ToBits, BytesToBits;
      NextBit(buf, cnt, bit);
      buf := buf * 2 + bit;
      cnt := cnt + 1;
      Assoc(BytesToBits(out), ToBits(old(buf), old(cnt)), [bit]);
      if cnt == 8 {
        Pow2Eight();
        FullByte(out, buf);
        NoPending();
        out := out + [buf];
        cnt := 0;
        buf := 0;
      }
    }

    /** `wbits`: the low `k` bits of `v`, most significant first. */
    method Put(v: nat, k: nat)
      requires Valid()
      modifies this
      ensures Valid()
      ensures Written() == old(Written()) + ToBits(v, k)
    {
      hide Written, BytesToBits, Pow2;
      var left := k;
      assert Written() == Written() + ToBits(v / Pow2(k), 0);
      while left > 0
        invariant 0 <= left <= k
        invariant Valid()
        invariant Written() == old(Written()) + ToBits(v / Pow2(left), k - left)
      {
        DivPow2(v, left - 1);
        left := left - 1;
        PutBit(v / Pow2(left) % 2);
      }
      PowZero(v);
    }

    /** `wflush`: zero bits up to the next byte boundary. */
    method Flush()
      requires Valid()
      modifies this
      ensures Valid() && cnt == 0
      ensures exists pad :: 0 <= pad < 8 && Written() == old(Written()) + Zeros(pad)
      ensures Written() == BytesToBits(out)
    {
      ghost var pad := 0;
      while cnt != 0
        invariant Valid()
        invariant 0 <= pad < 8 && (cnt == 0 || cnt == old(cnt) + pad)
        invariant Written() == old(Written()) + Zeros(pad)
        decreases if cnt == 0 then 0 else 8 - cnt
      {
        PutBit(0);
        assert Zeros(pad + 1) == Zeros(pad) + [0];
        pad := pad + 1;
      }
    }
  }

  /** The next bit when `cnt` bits of byte `pos - 1` are left. */
  lemma {:induction false} PendingBit(d: seq<Byte>, p: nat, pos: nat, cnt: nat)
    requires 1 <= cnt <= 8 && 1 <= pos <= |d| && p + cnt == 8 * pos
    ensures BitAt(BytesToBits(d), p) == d[pos - 1] / Pow2(cnt - 1) % 2
  {
    BytesToBitsIndex(d, p);
    assert p / 8 == pos - 1 && p % 8 == 8 - cnt;
  }

  lemma {:induction false} PastBit(d: seq<Byte>, p: nat, cnt: nat)
    requires p >= 8 * |d|
    ensures BitAt(BytesToBits(d), p) == 0 && 0 / Pow2(cnt) % 2 == 0
  {
  }

  /** `struct bitr`. The ghost `p` is the number of bits delivered so far. */
  class BitReader {
    const d: seq<Byte>
    var pos: nat
    var buf: nat
    var cnt: nat
    ghost var p: nat

    ghost predicate Valid()
      reads this
    {
      && cnt < 8 && pos <= |d|
      && (|| (p + cnt == 8 * pos && (cnt > 0 ==> buf == d[pos - 1]))
          || (p >= 8 * |d| && pos == |d| && (cnt > 0 ==> buf == 0)))
    }

    constructor (data: seq<Byte>, start: nat)
      requires start <= |data|
      ensures Valid() && d == data && p == 8 * start
    {
      d, pos, buf, cnt, p := data, start, 0, 0, 8 * start;
    }

    method GetBit() returns (bit: Bit)
      requires Valid()
      modifies this
      ensures Valid()
      ensures bit == BitAt(BytesToBits(d), old(p)) && p == old(p) + 1
    {
      hide BytesToBits, Pow2, BitAt;
      if cnt == 0 {
        if pos < |d| {
          buf := d[pos];
          pos := pos + 1;
        } else {
          buf := 0;
        }
        cnt := 8;
      }
      if p < 8 * |d| {
        PendingBit(d, p, pos, cnt);
      } else {
        PastBit(d, p, cnt - 1);
      }
      cnt := cnt - 1;
      bit := buf / Pow2(cnt) % 2;
      p := p + 1;
    }

    /** `rbits`; every call asks for at most the width of an unsigned int. */
    method Get(k: nat) returns (v: nat)
      requires Valid() && k <= 32
      modifies this
      ensures Valid()
      ensures v == ReadBits(BytesToBits(d), old(p), k) && p == old(p) + k
    {
      v := 0;
      var i := 0;
      while i < k
        invariant 0 <= i <= k && Valid()
        invariant p == old(p) + i && v == ReadBits(BytesToBits(d), old(p), i)
      {
        var bit := GetBit();
        v := 2 * v + bit;
        i := i + 1;
      }
    }
  }
}
