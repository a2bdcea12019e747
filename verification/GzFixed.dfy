/** The fixed codes of DEFLATE (section 3.2.6 of RFC 1951): the tables `inflate` builds and the
    codes the `emit` functions write are the same. */
module GzFixed {
  import opened Bits
  import opened CountingSort
  import opened GzHuffman

  /** The length of literal/length symbol `s`. */
  function LitLen(s: nat): Byte
  {
    if s < 144 then 8 else if s < 256 then 9 else if s < 280 then 7 else 8
  }

  function FixedLits(n: nat): (r: seq<Byte>)
    ensures |r| == n && forall i :: 0 <= i < n ==> r[i] == LitLen(i)
  {
    seq(n, i requires 0 <= i => LitLen(i))
  }

  function FixedDists(n: nat): (r: seq<Byte>)
    ensures |r| == n && forall i :: 0 <= i < n ==> r[i] == 5
  {
    seq(n, i => 5)
  }

  /** What the compressor writes for symbol `s`. */
  function LitCode(s: nat): nat
    requires s < 288
  {
    if s < 144 then 0x30 + s else if s < 256 then 0x190 + (s - 144) else if s < 280 then s - 256 else 0xc0 + (s - 280)
  }

  /** How many of the first `n` symbols have length `l`. */
  function Among(n: nat, l: nat): nat
  {
    if l == 8 then (if n <= 144 then n else if n <= 280 then 144 else 144 + (n - 280))
    else if l == 9 then (if n <= 144 then 0 else if n <= 256 then n - 144 else 112)
    else if l == 7 then (if n <= 256 then 0 else if n <= 280 then n - 256 else 24)
    else 0
  }

  lemma {:induction false} AmongCounts(n: nat, l: nat)
    ensures CountEq(FixedLits(n), l) == Among(n, l)
  {
    if n > 0 {
      AmongCounts(n - 1, l);
      assert FixedLits(n)[..n - 1] == FixedLits(n - 1);
    }
  }

  lemma {:induction false} LitFirst(l: nat)
    requires l <= 9
    ensures First(FixedLits(288), l) == if l == 8 then 0x30 else if l == 9 then 0x190 else 0
  {
    hide CountEq, FixedLits;
    if l > 1 {
      LitFirst(l - 1);
      AmongCounts(288, l - 1);
    }
  }

  /** The canonical code of every literal/length symbol is the one the compressor writes. */
  lemma {:induction false} LitCodeIs(s: nat)
    requires s < 288
    ensures Code(FixedLits(288), s) == LitCode(s) && LitCode(s) < Pow2(LitLen(s))
  {
    hide CountEq, First, Pow2;
    LitFirst(LitLen(s));
    AmongCounts(s, LitLen(s));
    assert FixedLits(288)[..s] == FixedLits(s);
    LitPowers();
  }

  lemma {:induction false} LitPowers()
    ensures Pow2(5) == 32 && Pow2(7) == 128 && Pow2(8) == 256 && Pow2(9) == 512
  {
    assert Pow2(3) == 8 && Pow2(2) == 4;
    assert Pow2(5) == 32;
    assert Pow2(7) == 128 by { Pow2Add(5, 2); }
    assert Pow2(8) == 2 * Pow2(7) && Pow2(9) == 2 * Pow2(8);
  }

  lemma {:induction false} DistCounts(n: nat, l: nat)
    ensures CountEq(FixedDists(n), l) == if l == 5 then n else 0
  {
    if n > 0 {
      DistCounts(n - 1, l);
      assert FixedDists(n)[..n - 1] == FixedDists(n - 1);
    }
  }

  lemma {:induction false} DistFirst(l: nat)
    requires l <= 5
    ensures First(FixedDists(30), l) == 0
  {
    hide CountEq, FixedDists;
    if l > 1 {
      DistFirst(l - 1);
      DistCounts(30, l - 1);
    }
  }

  /** The canonical code of a distance symbol is its number. */
  lemma {:induction false} DistCodeIs(s: nat)
    requires s < 30
    ensures Code(FixedDists(30), s) == s && s < Pow2(5)
  {
    hide CountEq, First, Pow2;
    DistFirst(5);
    DistCounts(s, 5);
    assert FixedDists(30)[..s] == FixedDists(s);
    LitPowers();
  }

  /** A literal/length symbol written with the fixed code is decoded with the fixed table. */
  lemma {:induction false} LitDecodes(d: seq<Bit>, p: nat, s: nat)
    requires s < 288 && At(d, p, ToBits(LitCode(s), LitLen(s)))
    ensures Decode(d, p, FixedLits(288)) == Decoded(s, p + LitLen(s))
  {
    hide Decode, Code;
    LitCodeIs(s);
    WordDecodes(d, p, FixedLits(288), s);
  }

  lemma {:induction false} DistDecodes(d: seq<Bit>, p: nat, s: nat)
    requires s < 30 && At(d, p, ToBits(s, 5))
    ensures Decode(d, p, FixedDists(30)) == Decoded(s, p + 5)
  {
    hide Decode, Code;
    DistCodeIs(s);
    WordDecodes(d, p, FixedDists(30), s);
  }
}
