/** DEFLATE decompression (section 3.2 of RFC 1951) as vgzip does it, and its round trip with
    the blocks vgzip writes. */
module Inflate {
  import opened Bits
  import opened Seqs
  import opened GzBits
  import opened GzHuffman
  import opened GzFixed
  import opened GzTokens

  /** What a run of the decompressor ends in. `Undef`: it used memory it never set, or wrote
      past a table. */
  datatype Outcome = Out(data: seq<Byte>, pos: nat) | Err | Undef

  /** `getbits`: the value, or -1 with everything used up. */
  datatype Field = Field(value: int, pos: nat)

  function GetBits(d: seq<Bit>, p: nat, n: nat): (f: Field)
    requires p <= |d|
    ensures p <= f.pos <= |d| && f.value >= -1
    ensures n == 0 ==> f.value == 0
  {
    if p + n <= |d| then Field(ReadLe(d, p, n), p + n) else Field(-1, |d|)
  }

  /** The table entries for matches leave a length, and a distance of at least 1, even when the
      input ends in the extra bits. */
  lemma {:induction false} LenPositive(s: nat)
    requires s < 29
    ensures LenBase(s) >= 3
  {
  }

  lemma {:induction false} DistPositive(s: nat)
    requires s < 30
    ensures DistBase(s) >= if DistExtra(s) == 0 then 1 else 2
  {
  }

  /** `inflate_block` */
  function Block(d: seq<Bit>, p: nat, ll: seq<Byte>, dl: seq<Byte>, out: seq<Byte>): (r: Outcome)
    requires p <= |d|
    ensures r.Out? ==> p < r.pos <= |d|
    decreases |d| - p
  {
    match Decode(d, p, ll)
    case NoCode => Err
    case Undefined => Undef
    case Decoded(sym, q) =>
      if sym == 256 then Out(out, q)
      else if sym < 256 then Block(d, q, ll, dl, out + [sym])
      else if sym - 257 >= 29 then Err
      else Copy(d, q, ll, dl, out, sym - 257)
  }

  /** A match, from its extra length bits on. */
  function Copy(d: seq<Bit>, q: nat, ll: seq<Byte>, dl: seq<Byte>, out: seq<Byte>, s: nat): (r: Outcome)
    requires q <= |d| && s < 29
    ensures r.Out? ==> q < r.pos <= |d|
    decreases |d| - q, 0
  {
    LenPositive(s);
    var x := GetBits(d, q, LenExtra(s));
    match Decode(d, x.pos, dl)
    case NoCode => Err
    case Undefined => Undef
    case Decoded(sym, r) =>
      if sym >= 30 then Err else
        DistPositive(sym);
        var y := GetBits(d, r, DistExtra(sym));
        var dist := DistBase(sym) + y.value;
        if dist > |out| then Err else Block(d, y.pos, ll, dl, CopyBack(out, dist, LenBase(s) + x.value))
  }

  // ---- dynamic tables ----

  const ORDER: seq<nat> := [16, 17, 18, 0, 8, 7, 9, 6, 10, 5, 11, 4, 12, 3, 13, 2, 14, 1, 15]

  /** The code length code after `n` of its lengths have been read. */
  function CodeLens(d: seq<Bit>, p: nat, n: nat): (cl: seq<Byte>)
    requires n <= 19 && p + 3 * n <= |d|
    ensures |cl| == 19 && Lens15(cl)
  {
    if n == 0 then [0, 0, 0, 0, 0, 0, 0, 0, 0, 0, 0, 0, 0, 0, 0, 0, 0, 0, 0] else
      var v := ReadLe(d, p + 3 * (n - 1), 3);
      assert v < 8 by { Powers(); }
      OrderBelow(n - 1);
      CodeLens(d, p, n - 1)[ORDER[n - 1] := v]
  }

  lemma {:induction false} OrderBelow(i: nat)
    requires i < 19
    ensures ORDER[i] < 19
  {
  }

  datatype Lengths = Lengths(lens: seq<Byte>, pos: nat) | Bad | Unset

  function Least(a: nat, b: nat): nat
  {
    if a < b then a else b
  }

  /** The loop that reads `total` lengths. */
  function ReadLens(d: seq<Bit>, p: nat, cl: seq<Byte>, total: nat, acc: seq<Byte>): (r: Lengths)
    requires p <= |d| && |acc| <= total && Lens15(acc)
    ensures r.Lengths? ==> |r.lens| == total && Lens15(r.lens) && p <= r.pos <= |d|
    decreases |d| - p
  {
    if |acc| == total then Lengths(acc, p) else
      match Decode(d, p, cl)
      case NoCode => Bad
      case Undefined => Unset
      case Decoded(s, q) =>
        var room := total - |acc|;
        if s < 16 then ReadLens(d, q, cl, total, acc + [s])
        else if s == 16 then
          var x := GetBits(d, q, 2);
          if acc == [] then Bad else ReadLens(d, x.pos, cl, total,
              acc + Repeat(acc[|acc| - 1], Least(x.value + 3, room)))
        else if s == 17 then
          var x := GetBits(d, q, 3);
          ReadLens(d, x.pos, cl, total, acc + Repeat(0, Least(x.value + 3, room)))
        else
          var x := GetBits(d, q, 7);
          ReadLens(d, x.pos, cl, total, acc + Repeat(0, Least(x.value + 11, room)))
  }

  const MAX_LENS: nat := 318

  /** A block with its own tables. A header cut short sets lengths no table has room for, as do
      more lengths than the array holds. */
  function Dynamic(d: seq<Bit>, p: nat, out: seq<Byte>): (r: Outcome)
    requires p <= |d|
    ensures r.Out? ==> p < r.pos <= |d|
  {
    if p + 14 > |d| then Undef else
      var hlit := ReadLe(d, p, 5) + 257;
      var hdist := ReadLe(d, p + 5, 5) + 1;
      var hclen := ReadLe(d, p + 10, 4) + 4;
      Powers();
      if p + 14 + 3 * hclen > |d| || hlit + hdist > MAX_LENS then Undef else
        match ReadLens(d, p + 14 + 3 * hclen, CodeLens(d, p + 14, hclen), hlit + hdist, [])
        case Bad => Err
        case Unset => Undef
        case Lengths(lens, q) => Block(d, q, lens[..hlit], lens[hlit..], out)
  }

  // ---- blocks ----

  function BytesAt(d: seq<Bit>, p: nat, n: nat): (r: seq<Byte>)
    requires p + 8 * n <= |d|
    ensures |r| == n
  {
    Pow2Eight();
    seq(n, i requires 0 <= i < n => ReadLe(d, p + 8 * i, 8))
  }

  /** A stored block: its length, four bytes on its data; the complement of the length is not
      looked at. */
  function StoredBlock(d: seq<Bit>, p: nat, out: seq<Byte>): (r: Outcome)
    requires p <= |d|
    ensures r.Out? ==> p < r.pos <= |d|
  {
    var q := Aligned(p);
    if q + 32 > |d| then Err else
      var len := ReadLe(d, q, 16);
      if q + 32 + 8 * len > |d| then Err else Out(out + BytesAt(d, q + 32, len), q + 32 + 8 * len)
  }

  /** One block of the given type. */
  function OneBlock(d: seq<Bit>, p: nat, kind: nat, out: seq<Byte>): (r: Outcome)
    requires p <= |d|
    ensures r.Out? ==> p < r.pos <= |d|
  {
    if kind == 0 then StoredBlock(d, p, out)
    else if kind == 1 then Block(d, p, FixedLits(288), FixedDists(30), out)
    else if kind == 2 then Dynamic(d, p, out)
    else Err
  }

  /** `inflate` */
  function Blocks(d: seq<Bit>, p: nat, out: seq<Byte>): (r: Outcome)
    requires p <= |d|
    decreases |d| - p
  {
    if p + 3 > |d| then Err else
      match OneBlock(d, p + 3, ReadLe(d, p + 1, 2), out)
      case Err => Err
      case Undef => Undef
      case Out(more, q) => if d[p] == 1 then Out(more, q) else Blocks(d, q, more)
  }

  function Inflated(data: seq<Byte>): Outcome
  {
    Blocks(Stream(data), 0, [])
  }

  // ---- reading back what was written ----

  lemma {:induction false} LitBack(d: seq<Bit>, p: nat, b: Byte, out: seq<Byte>)
    requires At(d, p, SymBits(b))
    ensures Block(d, p, FixedLits(288), FixedDists(30), out)
         == Block(d, p + |SymBits(b)|, FixedLits(288), FixedDists(30), out + [b])
  {
    hide Decode, FixedLits, FixedDists, LitCode;
    LitDecodes(d, p, b);
  }

  /** The length symbol and its extra bits. */
  lemma {:induction false} LenBack(d: seq<Bit>, p: nat, len: nat, out: seq<Byte>)
    requires 3 <= len <= 258 && At(d, p, LenBits(len))
    ensures var s := LenSym(len); var q := p + LitLen(257 + s);
            Block(d, p, FixedLits(288), FixedDists(30), out) == Copy(d, q, FixedLits(288), FixedDists(30), out, s)
            && GetBits(d, q, LenExtra(s)) == Field(len - LenBase(s), p + |LenBits(len)|)
  {
    hide Decode, FixedLits, FixedDists, LitCode, Copy, LenSym, LenBase, LenExtra, Pow2, ReadLe, LeBits, ToBits;
    LenCovered(len);
    var s := LenSym(len);
    AtSplit(d, p, SymBits(257 + s), LeBits(len - LenBase(s), LenExtra(s)));
    LitDecodes(d, p, 257 + s);
    LeBack(d, p + LitLen(257 + s), len - LenBase(s), LenExtra(s));
  }

  lemma {:induction false} DistBack(d: seq<Bit>, p: nat, dist: nat)
    requires 1 <= dist <= 32768 && At(d, p, DistBits(dist))
    ensures var s := DistSym(dist);
            Decode(d, p, FixedDists(30)) == Decoded(s, p + 5)
            && GetBits(d, p + 5, DistExtra(s)) == Field(dist - DistBase(s), p + |DistBits(dist)|)
  {
    hide Decode, FixedDists, DistSym, DistBase, DistExtra, Pow2, ReadLe, LeBits, ToBits;
    DistCovered(dist);
    var s := DistSym(dist);
    AtSplit(d, p, ToBits(s, 5), LeBits(dist - DistBase(s), DistExtra(s)));
    DistDecodes(d, p, s);
    LeBack(d, p + 5, dist - DistBase(s), DistExtra(s));
  }

  lemma {:induction false} MatchBack(d: seq<Bit>, p: nat, len: nat, dist: nat, out: seq<Byte>)
    requires TokenOk(Match(len, dist), |out|) && At(d, p, LenBits(len) + DistBits(dist))
    ensures Block(d, p, FixedLits(288), FixedDists(30), out)
         == Block(d, p + |LenBits(len) + DistBits(dist)|, FixedLits(288), FixedDists(30), CopyBack(out, dist, len))
  {
    hide Decode, FixedLits, FixedDists, LitCode, Block, CopyBack, LenSym, DistSym, LenBase, LenExtra, DistBase,
      DistExtra, LenBits, DistBits, GetBits;
    AtSplit(d, p, LenBits(len), DistBits(dist));
    LenBack(d, p, len, out);
    DistBack(d, p + |LenBits(len)|, dist);
  }

  lemma {:induction false} TokenBack(d: seq<Bit>, p: nat, t: Token, out: seq<Byte>)
    requires TokenOk(t, |out|) && At(d, p, TokenBits(t, |out|))
    ensures Block(d, p, FixedLits(288), FixedDists(30), out)
         == Block(d, p + |TokenBits(t, |out|)|, FixedLits(288), FixedDists(30), Extend(out, t))
  {
    hide Block, LenBits, DistBits, SymBits, CopyBack, FixedLits, FixedDists;
    match t
    case Lit(b) => LitBack(d, p, b, out);
    case Match(len, dist) => MatchBack(d, p, len, dist, out);
  }

  /** A block written with the fixed code is read back as what its tokens stand for. */
  lemma {:induction false} TokensBack(d: seq<Bit>, p: nat, ts: seq<Token>, out: seq<Byte>)
    requires TokensOk(ts, out) && At(d, p, TokensBits(ts, out) + SymBits(256))
    ensures Block(d, p, FixedLits(288), FixedDists(30), out) == Out(Expand(ts, out), p + |TokensBits(ts, out)| + 7)
    decreases |ts|
  {
    hide TokenBits, SymBits, Extend, FixedLits, FixedDists, Block;
    if ts == [] {
      EmptyLeft(SymBits(256));
      EndBack(d, p, out);
    } else {
      var first := TokenBits(ts[0], |out|);
      var next := Extend(out, ts[0]);
      Assoc(first, TokensBits(ts[1..], next), SymBits(256));
      AtSplit(d, p, first, TokensBits(ts[1..], next) + SymBits(256));
      TokenBack(d, p, ts[0], out);
      TokensBack(d, p + |first|, ts[1..], next);
    }
  }

  lemma {:induction false} EndBack(d: seq<Bit>, p: nat, out: seq<Byte>)
    requires At(d, p, SymBits(256))
    ensures Block(d, p, FixedLits(288), FixedDists(30), out) == Out(out, p + 7)
  {
    hide Decode, FixedLits, FixedDists, LitCode;
    LitDecodes(d, p, 256);
  }

  /** What `deflate` writes before padding: one final block with the fixed code. */
  function DeflatedBits(ts: seq<Token>): seq<Bit>
    requires TokensOk(ts, [])
  {
    [1] + (LeBits(1, 2) + (TokensBits(ts, []) + SymBits(256)))
  }

  /** Decompression gives back what the tokens stand for, whatever follows the block. */
  lemma {:induction false} InflateBack(data: seq<Byte>, ts: seq<Token>, rest: seq<Bit>)
    requires TokensOk(ts, []) && Stream(data) == DeflatedBits(ts) + rest
    ensures Inflated(data).Out? && Inflated(data).data == Expand(ts, [])
  {
    hide Stream, TokensBits, SymBits, Block, FixedLits, FixedDists, LeBits, ReadLe;
    var d := Stream(data);
    var body := TokensBits(ts, []) + SymBits(256);
    assert At(d, 0, DeflatedBits(ts)) by { assert d[0..|DeflatedBits(ts)|] == DeflatedBits(ts); }
    AtSplit(d, 0, [1], LeBits(1, 2) + body);
    assert d[0] == d[0..1][0] == 1;
    AtSplit(d, 1, LeBits(1, 2), body);
    assert 1 < Pow2(2) by { Powers(); }
    LeBack(d, 1, 1, 2);
    TokensBack(d, 3, ts, []);
  }
}
