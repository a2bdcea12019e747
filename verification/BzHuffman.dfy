/** Canonical Huffman codes: what `gen_codes` assigns and what the `limit`/`base`/`perm`
    decoder reads, for an arbitrary vector of code lengths. */
module BzHuffman {
  import opened Options
  import opened Bits
  import opened CountingSort

  // ---------------------------------------------------------------------- codes

  /** The first code of length `l`. */
  function First(lens: seq<Byte>, l: nat): nat
  {
    if l == 0 then 0 else 2 * (First(lens, l - 1) + CountEq(lens, l - 1))
  }

  /** One past the last code of length `l`. */
  function Next(lens: seq<Byte>, l: nat): nat
  {
    First(lens, l) + CountEq(lens, l)
  }

  /** The code of symbol `s`: the first of its length plus its rank among that length. */
  function Code(lens: seq<Byte>, s: nat): nat
    requires s < |lens|
  {
    First(lens, lens[s]) + CountEq(lens[..s], lens[s])
  }

  lemma {:induction false} CodeBelowNext(lens: seq<Byte>, s: nat)
    requires s < |lens|
    ensures Code(lens, s) < Next(lens, lens[s])
  {
    CountEqStep(lens, s, lens[s]);
    CountEqPrefix(lens, s + 1, |lens|, lens[s]);
    assert lens[..|lens|] == lens;
  }

  lemma {:induction false} Twice(a: nat, x: nat)
    ensures (2 * a) * x == 2 * (a * x)
  {
  }

  /** Every code of length `l`, extended to a greater length, stays below the codes of that length. */
  lemma {:induction false} NextGrows(lens: seq<Byte>, l: nat, m: nat)
    requires l <= m
    ensures Pow2(m - l) * Next(lens, l) <= Next(lens, m)
    ensures l < m ==> Pow2(m - l) * Next(lens, l) <= First(lens, m)
    decreases m - l
  {
    hide CountEq;
    if l < m {
      NextGrows(lens, l, m - 1);
      Twice(Pow2(m - 1 - l), Next(lens, l));
    }
  }

  /** `s`'s code word as written. */
  function CodeWord(lens: seq<Byte>, s: nat): (bs: seq<Bit>)
    requires s < |lens|
    ensures |bs| == lens[s]
  {
    ToBits(Code(lens, s), lens[s])
  }

  // ------------------------------------------------------------------- the decoder

  /** `mn` as the code computes it, starting from 32. */
  function Shortest(lens: seq<Byte>): (m: nat)
    ensures forall i :: 0 <= i < |lens| ==> m <= lens[i]
    ensures m <= 32
  {
    if lens == [] then 32
    else
      var m := Shortest(lens[..|lens| - 1]);
      if lens[|lens| - 1] < m then lens[|lens| - 1] else m
  }

  /** `mx` as the code computes it, starting from 0. */
  function Longest(lens: seq<Byte>): (m: nat)
    ensures forall i :: 0 <= i < |lens| ==> lens[i] <= m
    ensures m < 256
  {
    if lens == [] then 0
    else
      var m := Longest(lens[..|lens| - 1]);
      if lens[|lens| - 1] > m then lens[|lens| - 1] else m
  }

  lemma {:induction false} LongestAttained(lens: seq<Byte>) returns (i: nat)
    requires lens != []
    ensures i < |lens| && lens[i] == Longest(lens)
  {
    var n := |lens| - 1;
    if n == 0 || lens[n] > Longest(lens[..n]) {
      i := n;
    } else {
      i := LongestAttained(lens[..n]);
    }
  }

  /** `limit[l]` after the table is built. */
  function Limit(lens: seq<Byte>, l: nat): int
  {
    Next(lens, l) - 1
  }

  /** `base[l]` after the table is built. */
  function Base(lens: seq<Byte>, l: nat): int
  {
    First(lens, l) - CountLess(lens, l)
  }

  /** How many bits GETSYM reads at `p`, having read `zn` and not stopped before: it goes on while the
      value exceeds the limit. None stands for running past the longest code, out of the tables. */
  function StopLength(d: seq<Bit>, p: nat, lens: seq<Byte>, mx: nat, zn: nat): Option<nat>
    decreases mx + 1 - zn
  {
    if zn > mx then None
    else if ReadBits(d, p, zn) > Limit(lens, zn) then StopLength(d, p, lens, mx, zn + 1)
    else Some(zn)
  }

  /** The `perm` entry for `zn` bits of value `zv`, or None outside the table. */
  function Lookup(lens: seq<Byte>, zn: nat, zv: nat): (r: Option<nat>)
    ensures r.Some? ==> r.value < |lens|
  {
    var at := zv - Base(lens, zn);
    if 0 <= at < |lens| then
      LinksBelow(lens, |lens|, at);
      Some(Links(lens)[at])
    else None
  }

  /** GETSYM: the symbol at `p` and the position after it. */
  function DecodeSym(d: seq<Bit>, p: nat, lens: seq<Byte>): (r: Option<(nat, nat)>)
    ensures r.Some? ==> r.value.0 < |lens| && r.value.1 >= p
  {
    match StopLength(d, p, lens, Longest(lens), Shortest(lens))
    case None => None
    case Some(zn) =>
      match Lookup(lens, zn, ReadBits(d, p, zn))
      case None => None
      case Some(sym) => Some((sym, p + zn))
  }

  lemma {:induction false} ReadBitsPrefix(d: seq<Bit>, p: nat, k: nat, m: nat)
    ensures ReadBits(d, p, k) == ReadBits(d, p, k + m) / Pow2(m)
  {
    hide BitAt;
    if m == 0 {
    } else {
      ReadBitsPrefix(d, p, k, m - 1);
      var v := ReadBits(d, p, k + m);
      assert v / 2 == ReadBits(d, p, k + m - 1);
      DivHalfPow2(v, m);
    }
  }

  lemma {:induction false} DivAtLeast(v: nat, q: nat, d: nat)
    requires d > 0 && d * q <= v
    ensures v / d >= q
  {
    var k, r := v / d, v % d;
    assert v == d * k + r;
    assert d * (k + 1) == d * k + d;
    if k < q { MulMono(d, k + 1, q); }
  }

  lemma {:induction false} MulMono(d: nat, a: nat, b: nat)
    requires a <= b
    ensures d * a <= d * b
  {
  }

  /** While fewer bits than the code is long have been read, the value exceeds every shorter code. */
  lemma {:induction false} PrefixExceedsLimit(d: seq<Bit>, p: nat, lens: seq<Byte>, s: nat, zn: nat)
    requires s < |lens| && zn < lens[s]
    requires ReadBits(d, p, lens[s]) == Code(lens, s)
    ensures ReadBits(d, p, zn) > Limit(lens, zn)
  {
    var L := lens[s];
    NextGrows(lens, zn, L);
    ReadBitsPrefix(d, p, zn, L - zn);
    DivAtLeast(Code(lens, s), Next(lens, zn), Pow2(L - zn));
  }

  lemma {:induction false} StopsAtCode(d: seq<Bit>, p: nat, lens: seq<Byte>, s: nat, mx: nat, zn: nat)
    requires s < |lens| && zn <= lens[s] <= mx
    requires ReadBits(d, p, lens[s]) == Code(lens, s)
    ensures StopLength(d, p, lens, mx, zn) == Some(lens[s])
    decreases lens[s] - zn
  {
    if zn < lens[s] {
      PrefixExceedsLimit(d, p, lens, s, zn);
      StopsAtCode(d, p, lens, s, mx, zn + 1);
    } else {
      CodeBelowNext(lens, s);
    }
  }

  lemma {:induction false} LookupCode(lens: seq<Byte>, s: nat, zv: nat)
    requires s < |lens|
    ensures Lookup(lens, lens[s], zv) == Some(s) <==> zv == Code(lens, s)
  {
    DestBound(lens, s);
    LinksInvertDest(lens, |lens|, s);
    assert Code(lens, s) - Base(lens, lens[s]) == Dest(lens, s);
    var at := zv - Base(lens, lens[s]);
    if 0 <= at < |lens| { DestInvertsLinks(lens, at); }
  }

  /** The decoder returns `s` and consumes its length exactly when the next bits are the code of `s`. */
  lemma {:induction false} DecodeExact(d: seq<Bit>, p: nat, lens: seq<Byte>, s: nat)
    requires s < |lens|
    ensures DecodeSym(d, p, lens) == Some((s, p + lens[s])) <==> ReadBits(d, p, lens[s]) == Code(lens, s)
  {
    LookupCode(lens, s, ReadBits(d, p, lens[s]));
    if ReadBits(d, p, lens[s]) == Code(lens, s) {
      StopsAtCode(d, p, lens, s, Longest(lens), Shortest(lens));
    }
  }

  lemma {:induction false} StoppedBelow(d: seq<Bit>, p: nat, lens: seq<Byte>, mx: nat, zn: nat)
    ensures var r := StopLength(d, p, lens, mx, zn); r.Some? ==> ReadBits(d, p, r.value) <= Limit(lens, r.value)
    decreases mx + 1 - zn
  {
    hide ReadBits, Limit;
    if !(zn > mx) && ReadBits(d, p, zn) > Limit(lens, zn) { StoppedBelow(d, p, lens, mx, zn + 1); }
  }

  /** Whatever symbol the decoder returns, it has read at least that symbol's length. */
  lemma {:induction false} DecodeAtLeast(d: seq<Bit>, p: nat, lens: seq<Byte>)
    ensures var r := DecodeSym(d, p, lens); r.Some? ==> r.value.1 >= p + lens[r.value.0]
  {
    hide ReadBits, StopLength, CountEq, CountLess, First;
    match StopLength(d, p, lens, Longest(lens), Shortest(lens))
    case None =>
    case Some(zn) =>
      StoppedBelow(d, p, lens, Longest(lens), Shortest(lens));
      var at := ReadBits(d, p, zn) - Base(lens, zn);
      if 0 <= at < |lens| {
        DestInvertsLinks(lens, at);
        CountLessNext(lens, zn);
        var s := Links(lens)[at];
        if lens[s] > zn { CountLessMono(lens, zn + 1, lens[s]); }
      }
  }

  /** A written code word is read back exactly when the code fits in its length. */
  lemma {:induction false} WordDecodes(d: seq<Bit>, p: nat, lens: seq<Byte>, s: nat)
    requires s < |lens| && At(d, p, CodeWord(lens, s))
    ensures DecodeSym(d, p, lens) == Some((s, p + lens[s])) <==> Code(lens, s) < Pow2(lens[s])
  {
    DecodeExact(d, p, lens, s);
    ReadBack(d, p, Code(lens, s), lens[s]);
  }

  // ------------------------------------------------------------------------- Kraft

  /** The Kraft sum scaled by 2^h. */
  function Kraft(lens: seq<Byte>, h: nat): nat
    requires forall i :: 0 <= i < |lens| ==> lens[i] <= h
  {
    if lens == [] then 0
    else Kraft(lens[..|lens| - 1], h) + Pow2(h - lens[|lens| - 1])
  }

  /** The part of the scaled sum due to lengths up to `l`. */
  function KraftUpTo(lens: seq<Byte>, l: nat): nat
  {
    if lens == [] then 0
    else KraftUpTo(lens[..|lens| - 1], l) + if lens[|lens| - 1] <= l then Pow2(l - lens[|lens| - 1]) else 0
  }

  lemma {:induction false} KraftUpToStep(lens: seq<Byte>, l: nat)
    ensures KraftUpTo(lens, l + 1) == 2 * KraftUpTo(lens, l) + CountEq(lens, l + 1)
  {
    if lens != [] { KraftUpToStep(lens[..|lens| - 1], l); }
  }

  lemma {:induction false} KraftUpToZero(lens: seq<Byte>)
    ensures KraftUpTo(lens, 0) == CountEq(lens, 0)
  {
    if lens != [] { KraftUpToZero(lens[..|lens| - 1]); }
  }

  lemma {:induction false} NextIsKraft(lens: seq<Byte>, l: nat)
    ensures Next(lens, l) == KraftUpTo(lens, l)
  {
    if l == 0 {
      KraftUpToZero(lens);
    } else {
      NextIsKraft(lens, l - 1);
      KraftUpToStep(lens, l - 1);
    }
  }

  lemma {:induction false} KraftUpToAll(lens: seq<Byte>, h: nat)
    requires forall i :: 0 <= i < |lens| ==> lens[i] <= h
    ensures KraftUpTo(lens, h) == Kraft(lens, h)
  {
    if lens != [] { KraftUpToAll(lens[..|lens| - 1], h); }
  }

  ghost predicate CodesFit(lens: seq<Byte>)
  {
    forall s {:trigger Code(lens, s)} :: 0 <= s < |lens| ==> Code(lens, s) < Pow2(lens[s])
  }

  lemma {:induction false} LastOf(lens: seq<Byte>, l: nat, i: nat) returns (s: nat)
    requires i < |lens| && lens[i] == l
    ensures s < |lens| && lens[s] == l && CountEq(lens[..s], l) + 1 == CountEq(lens, l)
  {
    var n := |lens| - 1;
    if lens[n] == l {
      s := n;
    } else {
      s := LastOf(lens[..n], l, i);
      assert lens[..n][..s] == lens[..s];
    }
  }

  /** Beyond the longest length the sum only doubles. */
  lemma {:induction false} NextBeyond(lens: seq<Byte>, l: nat, h: nat)
    requires l <= h && forall i :: 0 <= i < |lens| ==> lens[i] <= l
    requires Next(lens, l) <= Pow2(l)
    ensures Next(lens, h) <= Pow2(h)
    decreases h - l
  {
    if l < h {
      CountEqNone(lens, l + 1);
      NextBeyond(lens, l + 1, h);
    }
  }

  lemma {:induction false} CountEqNone(lens: seq<Byte>, l: nat)
    requires forall i :: 0 <= i < |lens| ==> lens[i] != l
    ensures CountEq(lens, l) == 0
  {
    if lens != [] { CountEqNone(lens[..|lens| - 1], l); }
  }

  /** All codes fit their lengths if and only if the lengths satisfy Kraft's inequality. */
  lemma {:induction false} FitIffKraft(lens: seq<Byte>, h: nat)
    requires lens != [] && forall i :: 0 <= i < |lens| ==> lens[i] <= h
    ensures CodesFit(lens) <==> Kraft(lens, h) <= Pow2(h)
  {
    KraftUpToAll(lens, h);
    NextIsKraft(lens, h);
    if CodesFit(lens) {
      var i := LongestAttained(lens);
      var s := LastOf(lens, lens[i], i);
      assert Code(lens, s) < Pow2(lens[s]);
      NextBeyond(lens, lens[s], h);
    }
    if Kraft(lens, h) <= Pow2(h) {
      forall s | 0 <= s < |lens| ensures Code(lens, s) < Pow2(lens[s]) {
        KraftFits(lens, s, h);
      }
    }
  }

  lemma {:induction false} KraftFits(lens: seq<Byte>, s: nat, h: nat)
    requires s < |lens| && lens[s] <= h && Next(lens, h) <= Pow2(h)
    ensures Code(lens, s) < Pow2(lens[s])
  {
    var l := lens[s];
    CodeBelowNext(lens, s);
    NextGrows(lens, l, h);
    Pow2Add(h - l, l);
    if Next(lens, l) > Pow2(l) {
      MulStrict(Pow2(h - l), Pow2(l), Next(lens, l));
    }
  }

  lemma {:induction false} MulStrict(d: nat, a: nat, b: nat)
    requires d > 0 && a < b
    ensures d * a < d * b
  {
    assert d * b == d * a + d * (b - a);
    MulAtLeast(d, b - a);
  }
}
