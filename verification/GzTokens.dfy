/** The symbols of a DEFLATE block: literals, and matches that copy from what is already out. */
module GzTokens {
  import opened Bits
  import opened Seqs
  import opened GzBits
  import opened GzFixed

  const LEN_BASE: seq<nat> := [3, 4, 5, 6, 7, 8, 9, 10, 11, 13, 15, 17, 19, 23, 27, 31, 35, 43, 51, 59, 67, 83, 99, 115,
      131, 163, 195, 227, 258]
  const LEN_EXTRA: seq<nat> := [0, 0, 0, 0, 0, 0, 0, 0, 1, 1, 1, 1, 2, 2, 2, 2, 3, 3, 3, 3, 4, 4, 4, 4, 5, 5, 5, 5, 0]
  const DIST_BASE: seq<nat> := [1, 2, 3, 4, 5, 7, 9, 13, 17, 25, 33, 49, 65, 97, 129, 193, 257, 385, 513, 769, 1025,
      1537, 2049, 3073, 4097, 6145, 8193, 12289, 16385, 24577]
  const DIST_EXTRA: seq<nat> :=
      [0, 0, 0, 0, 1, 1, 2, 2, 3, 3, 4, 4, 5, 5, 6, 6, 7, 7, 8, 8, 9, 9, 10, 10, 11, 11, 12, 12, 13, 13]

  /** The last of the first `k + 1` entries that does not exceed `v`; entry 0 if none. */
  function Pick(base: seq<nat>, v: nat, k: nat): (s: nat)
    requires k < |base|
    ensures s <= k
  {
    if k == 0 || v >= base[k] then k else Pick(base, v, k - 1)
  }

  /** Consecutive entries leave no gap. */
  predicate NoGaps(base: seq<nat>, extra: seq<nat>, k: nat)
    requires k < |base| == |extra|
  {
    k == 0 || (base[k] <= base[k - 1] + Pow2(extra[k - 1]) && NoGaps(base, extra, k - 1))
  }

  /** The entry picked covers the value: what is left over fits in the extra bits. */
  lemma {:induction false} PickCovers(base: seq<nat>, extra: seq<nat>, v: nat, k: nat)
    requires k < |base| == |extra| && NoGaps(base, extra, k) && base[0] <= v < base[k] + Pow2(extra[k])
    ensures var s := Pick(base, v, k); base[s] <= v < base[s] + Pow2(extra[s])
  {
    if k > 0 && v < base[k] { PickCovers(base, extra, v, k - 1); }
  }

  lemma {:induction false} Powers()
    ensures Pow2(0) == 1 && Pow2(1) == 2 && Pow2(2) == 4 && Pow2(3) == 8 && Pow2(4) == 16 && Pow2(5) == 32
    ensures Pow2(6) == 64
    ensures Pow2(7) == 128 && Pow2(8) == 256 && Pow2(9) == 512 && Pow2(10) == 1024 && Pow2(11) == 2048
    ensures Pow2(12) == 4096 && Pow2(13) == 8192
  {
    assert Pow2(4) == 16;
    assert Pow2(8) == 256 by { Pow2Add(4, 4); }
    assert Pow2(12) == 4096 by { Pow2Add(8, 4); }
  }

  lemma {:induction false} LenGap(k: nat)
    requires 0 < k < 29
    ensures LEN_BASE[k] <= LEN_BASE[k - 1] + Pow2(LEN_EXTRA[k - 1])
  {
    Powers();
    hide Pow2;
  }

  lemma {:induction false} DistGap(k: nat)
    requires 0 < k < 30
    ensures DIST_BASE[k] <= DIST_BASE[k - 1] + Pow2(DIST_EXTRA[k - 1])
  {
    Powers();
    hide Pow2;
  }

  lemma {:induction false} LenGaps(k: nat)
    requires k < 29
    ensures NoGaps(LEN_BASE, LEN_EXTRA, k)
  {
    if k > 0 {
      LenGap(k);
      LenGaps(k - 1);
    }
  }

  lemma {:induction false} DistGaps(k: nat)
    requires k < 30
    ensures NoGaps(DIST_BASE, DIST_EXTRA, k)
  {
    if k > 0 {
      DistGap(k);
      DistGaps(k - 1);
    }
  }

  function LenBase(s: nat): nat
    requires s < 29
  {
    LEN_BASE[s]
  }

  function LenExtra(s: nat): nat
    requires s < 29
  {
    LEN_EXTRA[s]
  }

  function DistBase(s: nat): nat
    requires s < 30
  {
    DIST_BASE[s]
  }

  function DistExtra(s: nat): nat
    requires s < 30
  {
    DIST_EXTRA[s]
  }

  /** The entry `len_sym` finds. */
  function LenSym(len: nat): (s: nat)
    ensures s < 29
  {
    Pick(LEN_BASE, len, 28)
  }

  /** The entry `dist_sym` finds. */
  function DistSym(dist: nat): (s: nat)
    ensures s < 30
  {
    Pick(DIST_BASE, dist, 29)
  }

  /** Every length from 3 to 258 has a symbol whose extra bits reach it. */
  lemma {:induction false} LenCovered(len: nat)
    requires 3 <= len <= 258
    ensures var s := LenSym(len); LenBase(s) <= len < LenBase(s) + Pow2(LenExtra(s))
  {
    hide NoGaps, Pick, Pow2;
    Powers();
    LenGaps(28);
    PickCovers(LEN_BASE, LEN_EXTRA, len, 28);
  }

  /** Every distance from 1 to 32768 has a symbol whose extra bits reach it. */
  lemma {:induction false} DistCovered(dist: nat)
    requires 1 <= dist <= 32768
    ensures var s := DistSym(dist); DistBase(s) <= dist < DistBase(s) + Pow2(DistExtra(s))
  {
    hide NoGaps, Pick, Pow2;
    Powers();
    DistGaps(29);
    PickCovers(DIST_BASE, DIST_EXTRA, dist, 29);
  }

  // ---- tokens ----

  datatype Token = Lit(b: Byte) | Match(len: nat, dist: nat)

  /** What RFC 1951 allows a match to be when `n` bytes are out. */
  predicate TokenOk(t: Token, n: nat)
  {
    t.Match? ==> 3 <= t.len <= 258 && 1 <= t.dist <= 32768 && t.dist <= n
  }

  /** `len` bytes are copied one by one from `dist` back; a copy may run into itself. */
  function CopyBack(out: seq<Byte>, dist: nat, len: nat): (r: seq<Byte>)
    requires 1 <= dist <= |out|
    ensures |r| == |out| + len
    decreases len
  {
    if len == 0 then out else CopyBack(out + [out[|out| - dist]], dist, len - 1)
  }

  function Extend(out: seq<Byte>, t: Token): (r: seq<Byte>)
    requires TokenOk(t, |out|)
  {
    match t
    case Lit(b) => out + [b]
    case Match(len, dist) => CopyBack(out, dist, len)
  }

  /** Every match refers to what the tokens before it have put out. */
  predicate TokensOk(ts: seq<Token>, out: seq<Byte>)
    decreases |ts|
  {
    ts == [] || (TokenOk(ts[0], |out|) && TokensOk(ts[1..], Extend(out, ts[0])))
  }

  function Expand(ts: seq<Token>, out: seq<Byte>): seq<Byte>
    requires TokensOk(ts, out)
    decreases |ts|
  {
    if ts == [] then out else Expand(ts[1..], Extend(out, ts[0]))
  }

  function SymBits(s: nat): seq<Bit>
    requires s < 288
  {
    ToBits(LitCode(s), LitLen(s))
  }

  /** `emit_len` */
  function LenBits(len: nat): seq<Bit>
    requires 3 <= len <= 258
  {
    LenCovered(len);
    var s := LenSym(len);
    SymBits(257 + s) + LeBits(len - LenBase(s), LenExtra(s))
  }

  /** `emit_dist` */
  function DistBits(dist: nat): seq<Bit>
    requires 1 <= dist <= 32768
  {
    DistCovered(dist);
    var s := DistSym(dist);
    ToBits(s, 5) + LeBits(dist - DistBase(s), DistExtra(s))
  }

  function TokenBits(t: Token, n: nat): seq<Bit>
    requires TokenOk(t, n)
  {
    match t
    case Lit(b) => SymBits(b)
    case Match(len, dist) => LenBits(len) + DistBits(dist)
  }

  function TokensBits(ts: seq<Token>, out: seq<Byte>): seq<Bit>
    requires TokensOk(ts, out)
    decreases |ts|
  {
    if ts == [] then [] else TokenBits(ts[0], |out|) + TokensBits(ts[1..], Extend(out, ts[0]))
  }

  // ---- one token more at the end ----

  lemma {:induction false} TokensSnoc(ts: seq<Token>, out: seq<Byte>, t: Token)
    requires TokensOk(ts, out) && TokenOk(t, |Expand(ts, out)|)
    ensures TokensOk(ts + [t], out) && Expand(ts + [t], out) == Extend(Expand(ts, out), t)
    ensures TokensBits(ts + [t], out) == TokensBits(ts, out) + TokenBits(t, |Expand(ts, out)|)
    decreases |ts|
  {
    hide Extend, TokenBits;
    var us := ts + [t];
    if ts == [] {
      assert us[1..] == [];
    } else {
      var next := Extend(out, ts[0]);
      assert us[0] == ts[0] && us[1..] == ts[1..] + [t];
      TokensSnoc(ts[1..], next, t);
      Assoc(TokenBits(ts[0], |out|), TokensBits(ts[1..], next), TokenBits(t, |Expand(ts, out)|));
    }
  }

  /** If each of the next `len` bytes equals the one `dist` before it, copying from `dist`
      back writes exactly them, overlap or not. */
  lemma {:induction false} CopyIs(data: seq<Byte>, i: nat, dist: nat, len: nat)
    requires 1 <= dist <= i && i + len <= |data|
    requires forall k :: i <= k < i + len ==> data[k] == data[k - dist]
    ensures CopyBack(data[..i], dist, len) == data[..i + len]
    decreases len
  {
    if len > 0 {
      assert data[..i][|data[..i]| - dist] == data[i - dist] == data[i];
      assert data[..i] + [data[i]] == data[..i + 1];
      CopyIs(data, i + 1, dist, len - 1);
    }
  }
}
