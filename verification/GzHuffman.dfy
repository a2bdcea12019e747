/** DEFLATE's canonical Huffman codes (section 3.2.2 of RFC 1951), in which a length of 0 means
    that a symbol has no code, and vgzip's count-based decoder for them. */
module GzHuffman {
  import opened Bits
  import opened CountingSort
  import H = BzHuffman

  /** Lengths as `huff_build` can take them. */
  ghost predicate Lens15(lens: seq<Byte>)
  {
    forall i :: 0 <= i < |lens| ==> lens[i] <= 15
  }

  /** The first code of length `l`. */
  function First(lens: seq<Byte>, l: nat): nat
  {
    if l <= 1 then 0 else 2 * (First(lens, l - 1) + CountEq(lens, l - 1))
  }

  /** One past the last code of length `l`. */
  function Next(lens: seq<Byte>, l: nat): nat
    requires l > 0
  {
    First(lens, l) + CountEq(lens, l)
  }

  function Code(lens: seq<Byte>, s: nat): nat
    requires s < |lens|
  {
    First(lens, lens[s]) + CountEq(lens[..s], lens[s])
  }

  // ---- the code without the symbols that have none ----

  function Nonzero(lens: seq<Byte>): (r: seq<Byte>)
    ensures forall i :: 0 <= i < |r| ==> r[i] > 0
  {
    if lens == [] then [] else Nonzero(lens[..|lens| - 1]) + if lens[|lens| - 1] == 0 then [] else [lens[|lens| - 1]]
  }

  lemma {:induction false} NonzeroCount(lens: seq<Byte>, l: nat)
    ensures CountEq(Nonzero(lens), l) == if l == 0 then 0 else CountEq(lens, l)
  {
    if lens != [] {
      var n := |lens| - 1;
      NonzeroCount(lens[..n], l);
      if lens[n] != 0 {
        var r := Nonzero(lens);
        assert r[..|r| - 1] == Nonzero(lens[..n]);
      } else {
        assert Nonzero(lens) == Nonzero(lens[..n]);
      }
    }
  }

  lemma {:induction false} NonzeroBelow(lens: seq<Byte>, h: nat)
    requires forall i :: 0 <= i < |lens| ==> lens[i] <= h
    ensures forall i :: 0 <= i < |Nonzero(lens)| ==> Nonzero(lens)[i] <= h
  {
    if lens != [] { NonzeroBelow(lens[..|lens| - 1], h); }
  }

  lemma {:induction false} FirstNonzero(lens: seq<Byte>, l: nat)
    ensures First(lens, l) == H.First(Nonzero(lens), l)
  {
    hide CountEq;
    if l > 0 {
      FirstNonzero(lens, l - 1);
      NonzeroCount(lens, l - 1);
    }
  }

  lemma {:induction false} NextNonzero(lens: seq<Byte>, l: nat)
    requires l > 0
    ensures Next(lens, l) == H.Next(Nonzero(lens), l)
  {
    FirstNonzero(lens, l);
    NonzeroCount(lens, l);
  }

  // ---- decoding ----

  datatype Decoded = Decoded(sym: nat, pos: nat) | NoCode | Undefined

  /** The symbol table entry for a code of length `len`; outside the table, memory that was
      never set. */
  function Lookup(lens: seq<Byte>, len: nat, v: nat, pos: nat): (r: Decoded)
    ensures r.Decoded? ==> r.sym < |lens| && r.pos == pos
  {
    var at := CountLess(lens, len) + v - First(lens, len);
    if CountEq(lens, 0) <= at < |lens| then
      LinksBelow(lens, |lens|, at);
      Decoded(Links(lens)[at], pos)
    else Undefined
  }

  /** `huff_decode` from the `len`-th bit on, having found no shorter code. */
  function DecodeFrom(d: seq<Bit>, p: nat, lens: seq<Byte>, len: nat): (r: Decoded)
    ensures r.Decoded? ==> r.sym < |lens| && p + len <= r.pos <= |d|
    decreases 16 - len
  {
    if len > 15 || p + len > |d| then NoCode
    else if ReadBits(d, p, len) - First(lens, len) < CountEq(lens, len) then
        Lookup(lens, len, ReadBits(d, p, len), p + len)
    else DecodeFrom(d, p, lens, len + 1)
  }

  function Decode(d: seq<Bit>, p: nat, lens: seq<Byte>): (r: Decoded)
    ensures r.Decoded? ==> r.sym < |lens| && p < r.pos <= |d|
  {
    DecodeFrom(d, p, lens, 1)
  }

  /** While fewer bits than the code is long have been read, the value is past every shorter
      code. */
  lemma {:induction false} PrefixPast(d: seq<Bit>, p: nat, lens: seq<Byte>, s: nat, len: nat)
    requires s < |lens| && 0 < len < lens[s]
    requires ReadBits(d, p, lens[s]) == Code(lens, s)
    ensures ReadBits(d, p, len) >= Next(lens, len)
  {
    hide CountEq, ReadBits, BitAt;
    var L := lens[s];
    var r := Nonzero(lens);
    H.NextGrows(r, len, L);
    NextNonzero(lens, len);
    FirstNonzero(lens, L);
    H.ReadBitsPrefix(d, p, len, L - len);
    H.DivAtLeast(Code(lens, s), Next(lens, len), Pow2(L - len));
  }

  lemma {:induction false} CodeBelowNext(lens: seq<Byte>, s: nat)
    requires s < |lens| && lens[s] > 0
    ensures Code(lens, s) < Next(lens, lens[s])
  {
    CountEqStep(lens, s, lens[s]);
    CountEqPrefix(lens, s + 1, |lens|, lens[s]);
    assert lens[..|lens|] == lens;
  }

  lemma {:induction false} CountLessOne(lens: seq<Byte>)
    ensures CountLess(lens, 1) == CountEq(lens, 0)
  {
    CountLessNone(lens);
    CountLessNext(lens, 0);
  }

  /** The table holds `s` where its code leads, and nowhere else among its length. */
  lemma {:induction false} LookupCode(lens: seq<Byte>, s: nat, v: nat, pos: nat)
    requires s < |lens| && lens[s] > 0
    ensures Lookup(lens, lens[s], v, pos) == Decoded(s, pos) <==> v == Code(lens, s)
  {
    hide CountEq, CountLess, Links, LinksUpTo;
    DestBound(lens, s);
    LinksInvertDest(lens, |lens|, s);
    CountLessOne(lens);
    CountLessMono(lens, 1, lens[s]);
    assert Code(lens, s) - First(lens, lens[s]) + CountLess(lens, lens[s]) == Dest(lens, s);
    LinksAll(lens);
    var at := CountLess(lens, lens[s]) + v - First(lens, lens[s]);
    if 0 <= at < |lens| { DestInvertsLinks(lens, at); }
  }

  lemma {:induction false} LinksAll(lens: seq<Byte>)
    ensures Links(lens) == LinksUpTo(lens, |lens|)
  {
  }

  lemma {:induction false} StopsAtCode(d: seq<Bit>, p: nat, lens: seq<Byte>, s: nat, len: nat)
    requires s < |lens| && 0 < len <= lens[s] <= 15 && p + lens[s] <= |d|
    requires ReadBits(d, p, lens[s]) == Code(lens, s)
    ensures DecodeFrom(d, p, lens, len) == Decoded(s, p + lens[s])
    decreases lens[s] - len
  {
    hide CountEq, ReadBits, Lookup, First;
    if len < lens[s] {
      PrefixPast(d, p, lens, s, len);
      StopsAtCode(d, p, lens, s, len + 1);
    } else {
      CodeBelowNext(lens, s);
      LookupCode(lens, s, Code(lens, s), p + lens[s]);
    }
  }

  /** Where the decoder stops it has read as many bits as the length it stopped at. */
  lemma {:induction false} StoppedAt(d: seq<Bit>, p: nat, lens: seq<Byte>, s: nat, len: nat)
    requires s < |lens| && 0 < len <= lens[s] && DecodeFrom(d, p, lens, len) == Decoded(s, p + lens[s])
    ensures p + lens[s] <= |d| && Lookup(lens, lens[s], ReadBits(d, p, lens[s]), p + lens[s]) == Decoded(s, p + lens[s])
    decreases lens[s] - len
  {
    hide CountEq, ReadBits, Lookup, First;
    if len < lens[s] {
      if !(ReadBits(d, p, len) - First(lens, len) < CountEq(lens, len)) { StoppedAt(d, p, lens, s, len + 1); }
    }
  }

  /** The decoder returns `s` and consumes its length exactly when the next bits are the code
      of `s`, for every table of lengths. */
  lemma {:induction false} DecodeExact(d: seq<Bit>, p: nat, lens: seq<Byte>, s: nat)
    requires s < |lens| && 0 < lens[s] <= 15 && p + lens[s] <= |d|
    ensures Decode(d, p, lens) == Decoded(s, p + lens[s]) <==> ReadBits(d, p, lens[s]) == Code(lens, s)
  {
    hide CountEq, ReadBits, Lookup, DecodeFrom;
    if ReadBits(d, p, lens[s]) == Code(lens, s) { StopsAtCode(d, p, lens, s, 1); }
    if Decode(d, p, lens) == Decoded(s, p + lens[s]) {
      StoppedAt(d, p, lens, s, 1);
      LookupCode(lens, s, ReadBits(d, p, lens[s]), p + lens[s]);
    }
  }

  /** A written code is read back exactly when it fits in its length. */
  lemma {:induction false} WordDecodes(d: seq<Bit>, p: nat, lens: seq<Byte>, s: nat)
    requires s < |lens| && 0 < lens[s] <= 15 && At(d, p, ToBits(Code(lens, s), lens[s]))
    ensures Decode(d, p, lens) == Decoded(s, p + lens[s]) <==> Code(lens, s) < Pow2(lens[s])
  {
    hide Decode, Code;
    DecodeExact(d, p, lens, s);
    ReadBack(d, p, Code(lens, s), lens[s]);
  }

  // ---- Kraft ----

  /** 2^15 times the Kraft sum of the symbols that have a code. */
  ghost function Kraft(lens: seq<Byte>): nat
    requires Lens15(lens)
  {
    NonzeroBelow(lens, 15);
    H.Kraft(Nonzero(lens), 15)
  }

  ghost predicate CodesFit(lens: seq<Byte>)
  {
    forall s {:trigger Code(lens, s)} :: 0 <= s < |lens| && lens[s] > 0 ==> Code(lens, s) < Pow2(lens[s])
  }

  lemma {:induction false} KraftIsNext(lens: seq<Byte>)
    requires Lens15(lens)
    ensures Kraft(lens) == Next(lens, 15)
  {
    hide Pow2, Next, H.Kraft, H.Next, H.KraftUpTo;
    NonzeroBelow(lens, 15);
    H.KraftUpToAll(Nonzero(lens), 15);
    H.NextIsKraft(Nonzero(lens), 15);
    NextNonzero(lens, 15);
  }

  lemma {:induction false} KraftFits(lens: seq<Byte>, s: nat)
    requires s < |lens| && 0 < lens[s] <= 15 && Next(lens, 15) <= Pow2(15)
    ensures Code(lens, s) < Pow2(lens[s])
  {
    hide Pow2, Next, H.Next;
    var l := lens[s];
    CodeBelowNext(lens, s);
    NextNonzero(lens, l);
    NextNonzero(lens, 15);
    H.NextGrows(Nonzero(lens), l, 15);
    Pow2Add(15 - l, l);
    if Next(lens, l) > Pow2(l) {
      H.MulStrict(Pow2(15 - l), Pow2(l), Next(lens, l));
    }
  }

  lemma {:induction false} NonzeroFrom(lens: seq<Byte>, j: nat) returns (i: nat)
    requires j < |Nonzero(lens)|
    ensures i < |lens| && lens[i] == Nonzero(lens)[j]
  {
    var n := |lens| - 1;
    if j < |Nonzero(lens[..n])| { i := NonzeroFrom(lens[..n], j); } else { i := n; }
  }

  /** If all codes fit, so does the sum: the last code of the longest length tells. */
  lemma {:induction false} FitsKraft(lens: seq<Byte>)
    requires Lens15(lens) && CodesFit(lens)
    ensures Next(lens, 15) <= Pow2(15)
  {
    hide Pow2, Next, H.Next, H.Longest;
    var r := Nonzero(lens);
    NonzeroBelow(lens, 15);
    NextNonzero(lens, 15);
    if r == [] {
      NoCodes(15);
    } else {
      var j := H.LongestAttained(r);
      var i := NonzeroFrom(lens, j);
      var s := H.LastOf(lens, lens[i], i);
      assert Code(lens, s) < Pow2(lens[s]);
      LastIsNext(lens, s);
      NextNonzero(lens, lens[s]);
      H.NextBeyond(r, lens[s], 15);
    }
  }

  lemma {:induction false} LastIsNext(lens: seq<Byte>, s: nat)
    requires s < |lens| && lens[s] > 0 && CountEq(lens[..s], lens[s]) + 1 == CountEq(lens, lens[s])
    ensures Code(lens, s) + 1 == Next(lens, lens[s])
  {
  }

  lemma {:induction false} NoCodes(l: nat)
    ensures H.Next([], l) == 0
  {
    if l > 0 { NoCodes(l - 1); }
  }

  /** All codes fit their lengths if and only if the lengths satisfy Kraft's inequality; so
      for exactly those tables every code is read back as its symbol. */
  lemma {:induction false} FitIffKraft(lens: seq<Byte>)
    requires Lens15(lens)
    ensures CodesFit(lens) <==> Kraft(lens) <= Pow2(15)
  {
    hide Pow2, Next, Kraft, Code;
    KraftIsNext(lens);
    if CodesFit(lens) { FitsKraft(lens); }
    if Kraft(lens) <= Pow2(15) {
      forall s | 0 <= s < |lens| && lens[s] > 0 ensures Code(lens, s) < Pow2(lens[s]) { KraftFits(lens, s); }
    }
  }
}
