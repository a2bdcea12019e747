/** vgzip's compressor: LZ77 with hash chains and the fixed Huffman code. */
module GzDeflate {
  import opened Bits
  import opened Seqs
  import opened GzBits
  import opened GzFixed
  import opened GzTokens
  import opened Inflate

  const HASHSIZE: nat := 32768
  const WSIZE: nat := 32768

  function Hash(a: Byte, b: Byte, c: Byte): (h: nat)
    ensures h < HASHSIZE
  {
    ((((a as bv32) << 10) ^ ((b as bv32) << 5) ^ (c as bv32)) & 0x7fff) as nat
  }

  // ---- the emit functions ----

  /** `len_sym` */
  method LenSymbol(len: nat) returns (s: nat, extra: nat, nextra: nat)
    requires 3 <= len <= 258
    ensures s == LenSym(len) && LenBase(s) + extra == len && nextra == LenExtra(s)
  {
    hide Pow2, Pick;
    LenCovered(len);
    s := 28;
    while len < LEN_BASE[s]
      invariant s <= 28 && Pick(LEN_BASE, len, 28) == Pick(LEN_BASE, len, s)
    {
      PickStep(LEN_BASE, len, s);
      LenPositive(0);
      s := s - 1;
    }
    PickStep(LEN_BASE, len, s);
    extra, nextra := len - LEN_BASE[s], LEN_EXTRA[s];
  }

  /** `dist_sym` */
  method DistSymbol(dist: nat) returns (s: nat, extra: nat, nextra: nat)
    requires 1 <= dist <= 32768
    ensures s == DistSym(dist) && DistBase(s) + extra == dist && nextra == DistExtra(s)
  {
    hide Pow2, Pick;
    DistCovered(dist);
    s := 29;
    while dist < DIST_BASE[s]
      invariant s <= 29 && Pick(DIST_BASE, dist, 29) == Pick(DIST_BASE, dist, s)
    {
      PickStep(DIST_BASE, dist, s);
      s := s - 1;
    }
    PickStep(DIST_BASE, dist, s);
    extra, nextra := dist - DIST_BASE[s], DIST_EXTRA[s];
  }

  lemma {:induction false} PickStep(base: seq<nat>, v: nat, k: nat)
    requires k < |base|
    ensures Pick(base, v, k) == if k == 0 || v >= base[k] then k else Pick(base, v, k - 1)
  {
  }

  /** `emit_lit` */
  method EmitLit(w: LsbWriter, lit: Byte)
    requires w.Valid()
    modifies w
    ensures w.Valid() && w.Written() == old(w.Written()) + SymBits(lit)
  {
    if lit < 144 { w.PutCode(0x30 + lit, 8); } else { w.PutCode(0x190 + (lit - 144), 9); }
  }

  /** `emit_len` */
  method EmitLen(w: LsbWriter, len: nat)
    requires w.Valid() && 3 <= len <= 258
    modifies w
    ensures w.Valid() && w.Written() == old(w.Written()) + LenBits(len)
  {
    hide LeBits, ToBits, LenSym, LenBase, LenExtra, Pow2;
    var s, extra, nextra := LenSymbol(len);
    if 257 + s <= 279 { w.PutCode(257 + s - 256, 7); } else { w.PutCode(0xc0 + (257 + s - 280), 8); }
    Assoc(old(w.Written()), SymBits(257 + s), LeBits(extra, nextra));
    w.PutBits(extra, nextra);
  }

  /** `emit_dist` */
  method EmitDist(w: LsbWriter, dist: nat)
    requires w.Valid() && 1 <= dist <= 32768
    modifies w
    ensures w.Valid() && w.Written() == old(w.Written()) + DistBits(dist)
  {
    hide LeBits, ToBits, DistSym, DistBase, DistExtra, Pow2;
    var s, extra, nextra := DistSymbol(dist);
    w.PutCode(s, 5);
    Assoc(old(w.Written()), ToBits(s, 5), LeBits(extra, nextra));
    w.PutBits(extra, nextra);
  }

  // ---- hash chains ----

  /** The chains lead from positions below `lim` to ever smaller ones; a position is on a chain
      only if three bytes start there. */
  ghost predicate Chains(head: array<int>, prev: array<int>, n: nat, lim: nat)
    reads head, prev
  {
    head.Length == HASHSIZE && prev.Length >= n
    && (forall h :: 0 <= h < HASHSIZE ==> -1 <= head[h] < lim && (head[h] >= 0 ==> head[h] + 3 <= n))
    && (forall p :: 0 <= p < lim && p + 3 <= n ==> -1 <= prev[p] < p)
  }

  method Insert(input: seq<Byte>, p: nat, head: array<int>, prev: array<int>)
    requires Chains(head, prev, |input|, p) && p + 3 <= |input| && head != prev
    modifies head, prev
    ensures Chains(head, prev, |input|, p + 1)
  {
    var h := Hash(input[p], input[p + 1], input[p + 2]);
    prev[p] := head[h];
    head[h] := p;
  }

  /** The bytes from `i` on repeat those from `j` on, for `l` bytes. */
  ghost predicate Repeats(input: seq<Byte>, j: int, i: nat, l: nat)
  {
    0 <= j < i && i + l <= |input| && forall k :: i <= k < i + l ==> input[k] == input[k - (i - j)]
  }

  method MatchLength(input: seq<Byte>, j: nat, i: nat) returns (l: nat)
    requires j < i <= |input|
    ensures l <= 258 && Repeats(input, j, i, l)
    ensures l == 258 || i + l == |input| || input[j + l] != input[i + l]
  {
    l := 0;
    while l < 258 && i + l < |input| && input[j + l] == input[i + l]
      invariant l <= 258 && Repeats(input, j, i, l)
    {
      l := l + 1;
    }
  }

  /** What the search may return: nothing, or a true repetition within the window. */
  ghost predicate Found(input: seq<Byte>, i: nat, len: nat, dist: nat)
  {
    len <= 258 && (len > 0 ==> 1 <= dist <= WSIZE && Repeats(input, i - dist, i, len))
  }

  method Search(input: seq<Byte>, i: nat, head: array<int>, prev: array<int>) returns (len: nat, dist: nat)
    requires Chains(head, prev, |input|, i) && i + 3 <= |input|
    ensures Found(input, i, len, dist)
  {
    hide Repeats, Hash;
    len, dist := 0, 0;
    var h := Hash(input[i], input[i + 1], input[i + 2]);
    var j, chain := head[h], 0;
    while j >= 0 && chain < 128
      invariant -1 <= j < i && (j >= 0 ==> j + 3 <= |input|) && Found(input, i, len, dist)
      decreases j
    {
      chain := chain + 1;
      if i - j <= WSIZE {
        var l := MatchLength(input, j, i);
        if l > len {
          len, dist := l, i - j;
          if l >= 258 { break; }
        }
      }
      j := prev[j];
    }
  }

  /** The positions a match covers go into the chains. */
  method InsertCovered(input: seq<Byte>, i: nat, len: nat, head: array<int>, prev: array<int>)
    requires 1 <= len && i + len <= |input| && Chains(head, prev, |input|, i + 1) && head != prev
    modifies head, prev
    ensures Chains(head, prev, |input|, i + len)
  {
    for k := 1 to len
      invariant Chains(head, prev, |input|, i + k)
    {
      var p := i + k;
      if p + 3 <= |input| { Insert(input, p, head, prev); }
    }
  }

  /** A repetition found is a match that copies exactly the next bytes. */
  lemma {:induction false} FoundExtends(input: seq<Byte>, i: nat, len: nat, dist: nat)
    requires Found(input, i, len, dist) && len >= 3
    ensures TokenOk(Match(len, dist), i) && Extend(input[..i], Match(len, dist)) == input[..i + len]
  {
    hide CopyBack;
    assert forall k :: i <= k < i + len ==> input[k] == input[k - dist];
    CopyIs(input, i, dist, len);
  }

  /** One position: a match or a literal is written. */
  method OneToken(w: LsbWriter, input: seq<Byte>, i: nat, head: array<int>, prev: array<int>) returns (i': nat,
      ghost t: Token)
    requires w.Valid() && i < |input| && Chains(head, prev, |input|, i) && head != prev
    modifies w, head, prev
    ensures w.Valid() && i < i' <= |input| && Chains(head, prev, |input|, i')
    ensures TokenOk(t, i) && Extend(input[..i], t) == input[..i'] && w.Written() == old(w.Written()) + TokenBits(t, i)
  {
    hide LenBits, DistBits, SymBits, Found, CopyBack;
    var len, dist := 0, 0;
    assert Found(input, i, 0, 0) by { NotFound(input, i); }
    if i + 3 <= |input| {
      len, dist := Search(input, i, head, prev);
      Insert(input, i, head, prev);
    }
    if len >= 3 {
      FoundExtends(input, i, len, dist);
      FoundInside(input, i, len, dist);
      t := Match(len, dist);
      Assoc(w.Written(), LenBits(len), DistBits(dist));
      EmitLen(w, len);
      EmitDist(w, dist);
      InsertCovered(input, i, len, head, prev);
      i' := i + len;
    } else {
      t := Lit(input[i]);
      EmitLit(w, input[i]);
      SnocSlice(input, i);
      i' := i + 1;
    }
  }

  lemma {:induction false} NotFound(input: seq<Byte>, i: nat)
    ensures Found(input, i, 0, 0)
  {
  }

  lemma {:induction false} FoundInside(input: seq<Byte>, i: nat, len: nat, dist: nat)
    requires Found(input, i, len, dist) && len > 0
    ensures i + len <= |input|
  {
  }

  /** `deflate`: for every input, a final block of matches and literals that stand for it. The
      decompressor gives the input back, whatever bytes follow. */
  method Deflate(input: seq<Byte>) returns (out: seq<Byte>, ghost ts: seq<Token>)
    requires |input| < 0x8000_0000
    ensures TokensOk(ts, []) && Expand(ts, []) == input
    ensures exists pad :: 0 <= pad < 8 && Stream(out) == DeflatedBits(ts) + Zeros(pad)
    ensures forall tail: seq<Byte> :: Inflated(out + tail).Out? && Inflated(out + tail).data == input
  {
    hide Stream, LeBits, SymBits, TokenBits, TokensBits, Extend, Expand, Inflated, Zeros;
    var w := new LsbWriter();
    w.PutBit(1);
    w.PutBits(1, 2);
    var head := new int[HASHSIZE](_ => -1);
    var prev := new int[if |input| == 0 then 1 else |input|];
    var i := 0;
    ts := [];
    ghost var start := w.Written();
    assert start == [1] + LeBits(1, 2);
    assert TokensBits(ts, []) == [] && Expand(ts, []) == input[..0] by { NoTokens(); }
    while i < |input|
      invariant i <= |input| && w.Valid() && fresh(w) && fresh(head) && fresh(prev) && head != prev
      invariant Chains(head, prev, |input|, i)
      invariant TokensOk(ts, []) && Expand(ts, []) == input[..i] && w.Written() == start + TokensBits(ts, [])
    {
      ghost var t;
      ghost var before := w.Written();
      i, t := OneToken(w, input, i, head, prev);
      TokensSnoc(ts, [], t);
      Assoc(start, TokensBits(ts, []), TokenBits(t, |Expand(ts, [])|));
      ts := ts + [t];
    }
    assert input[..i] == input;
    Assoc(start, TokensBits(ts, []), SymBits(256));
    w.PutCode(0, 7);
    assert ToBits(0, 7) == SymBits(256) by { EndCode(); }
    ghost var all := w.Written();
    Assoc([1], LeBits(1, 2), TokensBits(ts, []) + SymBits(256));
    assert all == DeflatedBits(ts);
    w.Flush();
    out := w.out;
    ghost var pad :| 0 <= pad < 8 && Stream(out) == all + Zeros(pad);
    forall tail: seq<Byte> ensures Inflated(out + tail).Out? && Inflated(out + tail).data == input {
      StreamAppend(out, tail);
      Assoc(all, Zeros(pad), Stream(tail));
      InflateBack(out + tail, ts, Zeros(pad) + Stream(tail));
    }
  }

  lemma {:induction false} NoTokens()
    ensures TokensOk([], []) && TokensBits([], []) == [] && Expand([], []) == []
  {
  }

  lemma {:induction false} EndCode()
    ensures ToBits(0, 7) == SymBits(256)
  {
  }
}
