/** vgzip's decompressor as it runs. Local arrays are fixed-size sequences; where the program
    would use memory it never set, the specification is `Undef` and the result is anything. */
module GzInflate {
  import opened Bits
  import opened Seqs
  import opened CountingSort
  import opened GzBits
  import opened GzHuffman
  import H = BzHuffman
  import opened GzFixed
  import opened GzTokens
  import opened Inflate

  // ---- tables ----

  /** `struct huff` for the given lengths. */
  datatype Huff = Huff(count: seq<nat>, sym: seq<nat>)

  ghost predicate Counted(count: seq<nat>, lens: seq<Byte>)
  {
    |count| == 16 && count[0] == 0 && forall l :: 0 < l < 16 ==> count[l] == CountEq(lens, l)
  }

  ghost predicate IsTable(h: Huff, lens: seq<Byte>)
  {
    Counted(h.count, lens) && |h.sym| == 288 && |lens| <= 288 && CountEq(lens, 0) <= |lens|
    && forall k :: CountEq(lens, 0) <= k < |lens| ==> h.sym[k - CountEq(lens, 0)] == Links(lens)[k]
  }

  method CountLengths(lens: seq<Byte>) returns (count: seq<nat>)
    requires Lens15(lens)
    ensures Counted(count, lens)
  {
    hide CountEq;
    count := seq(16, _ => 0);
    forall l | 0 <= l < 16 ensures CountEq(lens[..0], l) == 0 { CountNone(l); }
    for i := 0 to |lens|
      invariant |count| == 16 && forall l :: 0 <= l < 16 ==> count[l] == CountEq(lens[..i], l)
    {
      forall l | 0 <= l < 16
        ensures CountEq(lens[..i + 1], l) == CountEq(lens[..i], l) + if lens[i] == l then 1 else 0 {
        CountEqStep(lens, i, l);
      }
      count := count[lens[i] := count[lens[i]] + 1];
    }
    assert lens[..|lens|] == lens;
    count := count[0 := 0];
  }

  lemma {:induction false} CountNone(l: nat)
    ensures CountEq([], l) == 0
  {
  }

  /** Where the symbols of each length begin, symbols without a code not counted. */
  ghost predicate Offsets(offs: seq<nat>, lens: seq<Byte>, i: nat)
    requires i <= |lens|
  {
    |offs| == 16 && forall l :: 0 < l < 16 ==> offs[l] + CountEq(lens, 0) == CountLess(lens, l) + CountEq(lens[..i], l)
  }

  method StartOffsets(count: seq<nat>, lens: seq<Byte>) returns (offs: seq<nat>)
    requires Counted(count, lens)
    ensures Offsets(offs, lens, 0)
  {
    hide CountEq, CountLess;
    offs := seq(16, _ => 0);
    CountLessOne(lens);
    for i := 1 to 15
      invariant |offs| == 16 && forall l :: 0 < l <= i ==> offs[l] + CountEq(lens, 0) == CountLess(lens, l)
    {
      CountLessNext(lens, i);
      offs := offs[i + 1 := offs[i] + count[i]];
    }
    forall l | 0 < l < 16 ensures CountEq(lens[..0], l) == 0 { CountNone(l); }
  }

  /** The symbols placed so far. */
  ghost predicate Placed(sym: seq<nat>, lens: seq<Byte>, i: nat)
    requires i <= |lens| <= 288
  {
    |sym| == 288 && CountEq(lens, 0) <= |lens|
    && forall k :: CountEq(lens, 0) <= k < |lens| ==> sym[k - CountEq(lens, 0)] == LinksUpTo(lens, i)[k]
  }

  lemma {:induction false} PlaceOne(offs: seq<nat>, sym: seq<nat>, lens: seq<Byte>, i: nat)
    requires i < |lens| <= 288 && Lens15(lens) && lens[i] > 0 && Offsets(offs, lens, i) && Placed(sym, lens, i)
    ensures offs[lens[i]] < 288
    ensures Placed(sym[offs[lens[i]] := i], lens, i + 1)
    ensures Offsets(offs[lens[i] := offs[lens[i]] + 1], lens, i + 1)
  {
    hide CountEq, CountLess, LinksUpTo;
    DestBound(lens, i);
    assert offs[lens[i]] + CountEq(lens, 0) == Dest(lens, i);
    LinksStep(lens, i);
    forall l | 0 < l < 16 ensures CountEq(lens[..i + 1], l) == CountEq(lens[..i], l) + if lens[i] == l then 1 else 0 {
      CountEqStep(lens, i, l);
    }
  }

  lemma {:induction false} SkipOne(offs: seq<nat>, sym: seq<nat>, lens: seq<Byte>, i: nat)
    requires i < |lens| <= 288 && lens[i] == 0 && Offsets(offs, lens, i) && Placed(sym, lens, i)
    ensures Placed(sym, lens, i + 1) && Offsets(offs, lens, i + 1)
  {
    hide CountEq, CountLess, LinksUpTo;
    DestBound(lens, i);
    CountLessOne(lens);
    LinksStep(lens, i);
    forall l | 0 < l < 16 ensures CountEq(lens[..i + 1], l) == CountEq(lens[..i], l) { CountEqStep(lens, i, l); }
  }

  lemma {:induction false} LinksStep(lens: seq<Byte>, i: nat)
    requires i < |lens|
    ensures Dest(lens, i) < |lens| && LinksUpTo(lens, i + 1) == LinksUpTo(lens, i)[Dest(lens, i) := i]
  {
    DestBound(lens, i);
  }

  lemma {:induction false} NothingPlaced(lens: seq<Byte>)
    requires |lens| <= 288
    ensures Placed(seq(288, _ => 0), lens, 0)
  {
    CountLessOne(lens);
  }

  /** `huff_build` */
  method HuffBuild(lens: seq<Byte>) returns (h: Huff)
    requires Lens15(lens) && |lens| <= 288
    ensures IsTable(h, lens)
  {
    hide CountEq, CountLess, LinksUpTo, Offsets, Placed;
    var count := CountLengths(lens);
    var offs := StartOffsets(count, lens);
    var sym: seq<nat> := seq(288, _ => 0);
    NothingPlaced(lens);
    for i := 0 to |lens|
      invariant Offsets(offs, lens, i) && Placed(sym, lens, i)
    {
      Sizes(offs, sym, lens, i);
      if lens[i] != 0 {
        PlaceOne(offs, sym, lens, i);
        sym := sym[offs[lens[i]] := i];
        offs := offs[lens[i] := offs[lens[i]] + 1];
      } else {
        SkipOne(offs, sym, lens, i);
      }
    }
    h := Huff(count, sym);
    TableBuilt(h, lens);
  }

  lemma {:induction false} Sizes(offs: seq<nat>, sym: seq<nat>, lens: seq<Byte>, i: nat)
    requires i <= |lens| <= 288 && Offsets(offs, lens, i) && Placed(sym, lens, i)
    ensures |offs| == 16 && |sym| == 288
  {
  }

  lemma {:induction false} TableBuilt(h: Huff, lens: seq<Byte>)
    requires |lens| <= 288 && Counted(h.count, lens) && Placed(h.sym, lens, |lens|)
    ensures IsTable(h, lens)
  {
    hide CountEq, LinksUpTo;
  }

  // ---- decoding a symbol ----

  /** What the incremental variables of `huff_decode` stand for before bit `len` is read. */
  ghost predicate Scanning(d: seq<Bit>, p: nat, lens: seq<Byte>, len: nat, code: nat, first: nat, index: int)
    requires len > 0
  {
    code == 2 * ReadBits(d, p, len - 1) && first == First(lens, len) && index == CountLess(lens, len) - CountEq(lens, 0)
  }

  lemma {:induction false} ScanStart(d: seq<Bit>, p: nat, lens: seq<Byte>)
    ensures Scanning(d, p, lens, 1, 0, 0, 0)
  {
    CountLessOne(lens);
  }

  lemma {:induction false} ScanStep(d: seq<Bit>, p: nat, lens: seq<Byte>, len: nat, code: nat, first: nat, index: int)
    requires len > 0 && Scanning(d, p, lens, len, code, first, index)
    ensures Scanning(d, p, lens, len + 1, 2 * (code + BitAt(d, p + len - 1)), 2 * (first + CountEq(lens, len)),
        index + CountEq(lens, len))
    ensures code + BitAt(d, p + len - 1) == ReadBits(d, p, len)
  {
    hide CountEq, CountLess, BitAt;
    CountLessNext(lens, len);
    ReadMore(d, p, len);
  }

  lemma {:induction false} ReadMore(d: seq<Bit>, p: nat, len: nat)
    requires len > 0
    ensures ReadBits(d, p, len) == 2 * ReadBits(d, p, len - 1) + BitAt(d, p + len - 1)
  {
  }

  /** `huff_decode`: a symbol, or -1 when there is none. */
  method HuffDecode(r: LsbReader, h: Huff, ghost lens: seq<Byte>) returns (s: int)
    requires r.Valid() && IsTable(h, lens) && r.p <= 8 * |r.d|
    modifies r
    ensures r.Valid() && old(r.p) <= r.p <= 8 * |r.d| && s >= -1 && (s >= 0 ==> r.p > old(r.p))
    ensures match Decode(Stream(r.d), old(r.p), lens)
            case Decoded(sym, q) => s == sym && r.p == q
            case NoCode => s == -1
            case Undefined => true
  {
    hide Stream, ReadBits, CountEq, CountLess, First, Scanning, IsTable, DecodeFrom, Lookup, BitAt;
    ghost var d := Stream(r.d);
    ghost var p := r.p;
    var code, first, index := 0, 0, 0;
    ScanStart(d, p, lens);
    for len := 1 to 16
      invariant r.Valid() && r.p == p + len - 1 && r.p <= |d| && code >= 0 && first >= 0
      invariant Scanning(d, p, lens, len, code, first, index)
      invariant Decode(d, p, lens) == DecodeFrom(d, p, lens, len)
    {
      var b := r.GetBit();
      DecodeStep(d, p, lens, len);
      if b < 0 { return -1; }
      TableParts(h, lens, len);
      ScanBit(d, p, lens, len, code, first, index, b);
      code := code + b;
      var count := h.count[len];
      if code - first < count {
        var k := index + (code - first);
        TableEntry(h, lens, len, code, p + len);
        s := if 0 <= k < 288 then h.sym[k] else -1;
        return;
      }
      index := index + count;
      first := 2 * (first + count);
      code := 2 * code;
    }
    DecodeStep(d, p, lens, 16);
    return -1;
  }

  /** One step of the specification. */
  lemma {:induction false} DecodeStep(d: seq<Bit>, p: nat, lens: seq<Byte>, len: nat)
    ensures DecodeFrom(d, p, lens, len) ==
            if len > 15 || p + len > |d| then NoCode
            else if ReadBits(d, p, len) - First(lens, len) < CountEq(lens, len) then
                Lookup(lens, len, ReadBits(d, p, len), p + len)
            else DecodeFrom(d, p, lens, len + 1)
  {
  }

  /** One step of the variables. */
  lemma {:induction false} ScanBit(d: seq<Bit>, p: nat, lens: seq<Byte>, len: nat, code: nat, first: nat, index: int,
      b: Bit)
    requires len > 0 && Scanning(d, p, lens, len, code, first, index) && p + len <= |d| && b == d[p + len - 1]
    ensures code + b == ReadBits(d, p, len) && first == First(lens, len)
    ensures index == CountLess(lens, len) - CountEq(lens, 0)
    ensures Scanning(d, p, lens, len + 1, 2 * (code + b), 2 * (first + CountEq(lens, len)), index + CountEq(lens, len))
  {
    hide ReadBits, CountEq, CountLess, First;
    ScanStep(d, p, lens, len, code, first, index);
  }

  lemma {:induction false} TableParts(h: Huff, lens: seq<Byte>, len: nat)
    requires IsTable(h, lens) && 0 < len < 16
    ensures |h.count| == 16 && h.count[len] == CountEq(lens, len) && |h.sym| == 288
  {
    hide CountEq;
  }

  /** Where the decoder's look-up is defined, the table has the symbol. */
  lemma {:induction false} TableEntry(h: Huff, lens: seq<Byte>, len: nat, code: nat, pos: nat)
    requires IsTable(h, lens)
    ensures var k := CountLess(lens, len) - CountEq(lens, 0) + (code - First(lens, len));
            var r := Lookup(lens, len, code, pos);
            !r.NoCode? && (r.Decoded? ==> 0 <= k < 288 && h.sym[k] == r.sym && r.pos == pos)
  {
    hide CountEq, CountLess, First, Links;
  }

  // ---- a block ----

  /** The program's result agrees with the specification, wherever that is defined. */
  ghost predicate Meets(spec: Outcome, ok: bool, data: seq<Byte>, p: nat)
  {
    match spec
    case Undef => true
    case Err => !ok
    case Out(x, q) => ok && data == x && p == q
  }

  /** The copy loop: byte by byte from `dist` back. */
  method CopyBytes(out0: seq<Byte>, dist: nat, len: int) returns (out: seq<Byte>)
    requires 1 <= dist <= |out0|
    ensures out == if len < 0 then out0 else CopyBack(out0, dist, len)
  {
    out := out0;
    var i := 0;
    while i < len
      invariant 0 <= i
      invariant (len >= 0 ==>
          i <= len && |out| == |out0| + i
          && CopyBack(out0, dist, len) == CopyBack(out, dist, len - i))
      invariant len < 0 ==> out == out0
    {
      out := out + [out[|out| - dist]];
      i := i + 1;
    }
  }

  /** A match, from its extra length bits on. */
  method CopyMatch(r: LsbReader, dh: Huff, ghost ll: seq<Byte>, ghost dl: seq<Byte>, out: seq<Byte>, s: nat)
      returns (ok: bool, out': seq<Byte>)
    requires r.Valid() && r.p <= 8 * |r.d| && IsTable(dh, dl) && s < 29
    modifies r
    ensures r.Valid() && old(r.p) <= r.p <= 8 * |r.d|
    ensures var spec := Copy(Stream(r.d), old(r.p), ll, dl, out, s);
            spec == Undef || (if ok then spec == Block(Stream(r.d), r.p, ll, dl, out') else spec == Err)
  {
    hide Stream, Decode, Block, IsTable, LenBase, LenExtra, DistBase, DistExtra, CopyBack, ReadLe;
    ok, out' := false, out;
    LenPositive(s);
    var x := r.GetBits(LenExtra(s));
    var len := LenBase(s) + x;
    var dsym := HuffDecode(r, dh, dl);
    if dsym < 0 || dsym >= 30 { return; }
    DistPositive(dsym);
    var y := r.GetBits(DistExtra(dsym));
    var dist := DistBase(dsym) + y;
    if dist > |out| { return; }
    out' := CopyBytes(out, dist, len);
    ok := true;
  }

  /** `inflate_block` */
  method InflateBlock(r: LsbReader, lh: Huff, dh: Huff, ghost ll: seq<Byte>, ghost dl: seq<Byte>, out0: seq<Byte>)
      returns (ok: bool, out: seq<Byte>)
    requires r.Valid() && r.p <= 8 * |r.d| && IsTable(lh, ll) && IsTable(dh, dl)
    modifies r
    ensures r.Valid() && old(r.p) <= r.p <= 8 * |r.d| && (ok ==> r.p > old(r.p))
    ensures Meets(Block(Stream(r.d), old(r.p), ll, dl, out0), ok, out, r.p)
  {
    hide Stream, Decode, Copy, IsTable, Block;
    ghost var d := Stream(r.d);
    ghost var spec := Block(d, r.p, ll, dl, out0);
    out := out0;
    while true
      invariant r.Valid() && old(r.p) <= r.p <= 8 * |r.d|
      invariant spec == Undef || spec == Block(d, r.p, ll, dl, out)
      decreases 8 * |r.d| - r.p
    {
      BlockStep(d, r.p, ll, dl, out);
      var sym := HuffDecode(r, lh, ll);
      if sym < 0 { return false, out; }
      if sym == 256 { return true, out; }
      if sym < 256 {
        out := out + [sym];
      } else {
        if sym - 257 >= 29 { return false, out; }
        ok, out := CopyMatch(r, dh, ll, dl, out, sym - 257);
        if !ok { return; }
      }
    }
  }

  /** One step of the specification. */
  lemma {:induction false} BlockStep(d: seq<Bit>, p: nat, ll: seq<Byte>, dl: seq<Byte>, out: seq<Byte>)
    requires p <= |d|
    ensures match Decode(d, p, ll)
            case NoCode => Block(d, p, ll, dl, out) == Err
            case Undefined => Block(d, p, ll, dl, out) == Undef
            case Decoded(sym, q) =>
              Block(d, p, ll, dl, out) ==
              if sym == 256 then Out(out, q)
              else if sym < 256 then Block(d, q, ll, dl, out + [sym])
              else if sym - 257 >= 29 then Err
              else Copy(d, q, ll, dl, out, sym - 257)
  {
    hide Copy, Decode;
  }

  // ---- a stored block ----

  lemma {:induction false} ReadSplit(d: seq<Bit>, p: nat, a: nat, b: nat)
    requires p + a + b <= |d|
    ensures ReadLe(d, p, a + b) == ReadLe(d, p, a) + Pow2(a) * ReadLe(d, p + a, b)
    decreases a
  {
    hide ReadLe, Pow2;
    if a == 0 {
      ReadNone(d, p);
      assert Pow2(0) == 1 by { PowZeroIs(); }
    } else {
      ReadSplit(d, p + 1, a - 1, b);
      var rest := ReadLe(d, p + a, b);
      assert (p + 1) + (a - 1) == p + a && (a - 1) + b == a + b - 1;
      H.Twice(Pow2(a - 1), rest);
      ReadFirst(d, p, a + b);
      ReadFirst(d, p, a);
      PowNext(a);
    }
  }

  lemma {:induction false} ReadFirst(d: seq<Bit>, p: nat, k: nat)
    requires k > 0 && p + k <= |d|
    ensures ReadLe(d, p, k) == d[p] + 2 * ReadLe(d, p + 1, k - 1)
  {
  }

  lemma {:induction false} PowZeroIs()
    ensures Pow2(0) == 1
  {
  }

  lemma {:induction false} PowNext(k: nat)
    requires k > 0
    ensures Pow2(k) == 2 * Pow2(k - 1)
  {
  }

  /** A 16-bit number, low byte first. */
  function Le16(lo: Byte, hi: Byte): nat
  {
    var x: int, y: int := lo, hi;
    x + 256 * y
  }

  /** Eight bits at a byte boundary are the byte. */
  lemma {:induction false} ByteIs(s: seq<Byte>, k: nat)
    requires k < |s|
    ensures ReadLe(Stream(s), 8 * k, 8) == s[k]
  {
    hide Stream, ReadLe, LeBits;
    var a, b := s[..k], s[k + 1..];
    assert s == (a + [s[k]]) + b;
    StreamAppend(a + [s[k]], b);
    StreamSnoc(a, s[k]);
    Pow2Eight();
    ByteAt(Stream(a), LeBits(s[k], 8), Stream(b));
    LeBack(Stream(s), 8 * k, s[k], 8);
  }

  lemma {:induction false} ByteAt(a: seq<Bit>, b: seq<Bit>, c: seq<Bit>)
    ensures At((a + b) + c, |a|, b)
  {
  }

  lemma {:induction false} BytesAre(s: seq<Byte>, k: nat, n: nat)
    requires k + n <= |s|
    ensures BytesAt(Stream(s), 8 * k, n) == s[k..k + n]
  {
    hide Stream, ReadLe;
    forall i | 0 <= i < n ensures BytesAt(Stream(s), 8 * k, n)[i] == s[k..k + n][i] {
      assert 8 * k + 8 * i == 8 * (k + i);
      ByteIs(s, k + i);
    }
  }

  lemma {:induction false} TwoBytes(s: seq<Byte>, k: nat)
    requires k + 2 <= |s|
    ensures ReadLe(Stream(s), 8 * k, 16) == Le16(s[k], s[k + 1])
  {
    hide Stream, ReadLe, Pow2;
    ReadSplit(Stream(s), 8 * k, 8, 8);
    ByteIs(s, k);
    assert 8 * k + 8 == 8 * (k + 1);
    ByteIs(s, k + 1);
    Pow2Eight();
  }

  /** A stored block in terms of bytes. */
  lemma {:induction false} StoredIs(data: seq<Byte>, p: nat, k: nat, out: seq<Byte>)
    requires p <= 8 * |data| && 8 * k == Aligned(p)
    ensures k + 4 > |data| ==> StoredBlock(Stream(data), p, out) == Err
    ensures k + 4 <= |data| ==>
      var n := Le16(data[k], data[k + 1]);
      StoredBlock(Stream(data), p, out) == if k + 4 + n > |data| then Err
          else Out(out + data[k + 4..k + 4 + n], 8 * (k + 4 + n))
  {
    hide Stream, ReadLe, Le16, Aligned, BytesAt;
    if k + 4 <= |data| {
      TwoBytes(data, k);
      var n := Le16(data[k], data[k + 1]);
      assert 8 * k + 32 == 8 * (k + 4);
      if k + 4 + n <= |data| { BytesAre(data, k + 4, n); }
    }
  }

  lemma {:induction false} AlignedUp(p: nat)
    ensures p <= Aligned(p)
  {
  }

  method InflateStored(r: LsbReader, out0: seq<Byte>) returns (ok: bool, out: seq<Byte>)
    requires r.Valid() && r.p <= 8 * |r.d|
    modifies r
    ensures r.Valid() && old(r.p) <= r.p <= 8 * |r.d| && (ok ==> r.p > old(r.p))
    ensures Meets(StoredBlock(Stream(r.d), old(r.p), out0), ok, out, r.p)
  {
    hide Stream, StoredBlock, Le16, Aligned;
    out := out0;
    AlignedUp(r.p);
    r.Align();
    StoredIs(r.d, old(r.p), r.pos, out0);
    if r.pos + 4 > |r.d| { return false, out; }
    var len := Le16(r.d[r.pos], r.d[r.pos + 1]);
    r.Skip(4);
    if r.pos + len > |r.d| { return false, out; }
    out := out + r.d[r.pos..r.pos + len];
    r.Skip(len);
    ok := true;
  }

  // ---- a block with its own tables ----

  /** The lengths of the code length code. -1 for a field stands for the end of the input. */
  method TakeCodeLens(r: LsbReader, hclen: nat) returns (ok: bool, cl: seq<Byte>)
    requires r.Valid() && r.p <= 8 * |r.d| && hclen <= 19
    modifies r
    ensures r.Valid() && old(r.p) <= r.p <= 8 * |r.d|
    ensures ok <==> old(r.p) + 3 * hclen <= 8 * |r.d|
    ensures ok ==> cl == CodeLens(Stream(r.d), old(r.p), hclen) && r.p == old(r.p) + 3 * hclen
  {
    hide Stream, ReadLe, Pow2, CodeLens;
    ghost var p := r.p;
    CodeLensNone(Stream(r.d), p);
    cl := [0, 0, 0, 0, 0, 0, 0, 0, 0, 0, 0, 0, 0, 0, 0, 0, 0, 0, 0];
    for i := 0 to hclen
      invariant r.Valid() && r.p == p + 3 * i <= 8 * |r.d| && cl == CodeLens(Stream(r.d), p, i)
    {
      var v := r.GetBits(3);
      if v < 0 { return false, cl; }
      CodeLensStep(Stream(r.d), p, i);
      cl := cl[ORDER[i] := v];
    }
    ok := true;
  }

  lemma {:induction false} CodeLensNone(d: seq<Bit>, p: nat)
    requires p <= |d|
    ensures CodeLens(d, p, 0) == [0, 0, 0, 0, 0, 0, 0, 0, 0, 0, 0, 0, 0, 0, 0, 0, 0, 0, 0]
  {
  }

  lemma {:induction false} CodeLensStep(d: seq<Bit>, p: nat, i: nat)
    requires i < 19 && p + 3 * (i + 1) <= |d|
    ensures ORDER[i] < 19 && ReadLe(d, p + 3 * i, 3) < 8
    ensures CodeLens(d, p, i + 1) == CodeLens(d, p, i)[ORDER[i] := ReadLe(d, p + 3 * i, 3)]
  {
    hide ReadLe, Pow2;
    OrderBelow(i);
    Powers();
  }

  /** The repetition loops: `rep` times `b`, as long as there is room. */
  method Fill(acc0: seq<Byte>, b: Byte, rep: int, total: nat) returns (acc: seq<Byte>)
    requires |acc0| <= total && rep >= 0
    ensures acc == acc0 + Repeat(b, Least(rep, total - |acc0|))
  {
    acc := acc0;
    ghost var k := 0;
    var left := rep;
    while left > 0 && |acc| < total
      invariant 0 <= left && left + k == rep && |acc| == |acc0| + k <= total && acc == acc0 + Repeat(b, k)
      decreases left
    {
      acc := acc + [b];
      left := left - 1;
      k := k + 1;
    }
  }

  /** Agreement of the length loop with its specification. */
  ghost predicate LensMeet(spec: Lengths, ok: bool, lens: seq<Byte>, p: nat)
  {
    match spec
    case Unset => true
    case Bad => !ok
    case Lengths(x, q) => ok && lens == x && p == q
  }

  /** `getbits` against its specification. */
  method TakeField(r: LsbReader, n: nat) returns (v: int)
    requires r.Valid() && r.p <= 8 * |r.d|
    modifies r
    ensures r.Valid() && old(r.p) <= r.p <= 8 * |r.d| && Field(v, r.p) == GetBits(Stream(r.d), old(r.p), n)
  {
    hide Stream, ReadLe;
    v := r.GetBits(n);
  }

  /** One symbol of the length loop. */
  method TakeRun(r: LsbReader, ghost cl: seq<Byte>, s: nat, total: nat, acc: seq<Byte>) returns (ok: bool,
      acc': seq<Byte>)
    requires r.Valid() && r.p <= 8 * |r.d| && |acc| < total && Lens15(acc)
    modifies r
    ensures r.Valid() && old(r.p) <= r.p <= 8 * |r.d|
    ensures ok ==> |acc| <= |acc'| <= total && Lens15(acc')
    ensures RunSpec(Stream(r.d), old(r.p), cl, total, acc, s) == if ok then ReadLens(Stream(r.d), r.p, cl, total, acc')
        else Bad
  {
    hide Stream, ReadLens, GetBits, Repeat;
    acc' := acc;
    if s < 16 { return true, acc + [s]; }
    if s == 16 {
      var rep := TakeField(r, 2);
      if acc == [] { return false, acc; }
      acc' := Fill(acc, acc[|acc| - 1], rep + 3, total);
    } else if s == 17 {
      var rep := TakeField(r, 3);
      acc' := Fill(acc, 0, rep + 3, total);
    } else {
      var rep := TakeField(r, 7);
      acc' := Fill(acc, 0, rep + 11, total);
    }
    ok := true;
  }

  /** The specification from a decoded symbol on. */
  ghost function RunSpec(d: seq<Bit>, q: nat, cl: seq<Byte>, total: nat, acc: seq<Byte>, s: nat): Lengths
    requires q <= |d| && |acc| < total && Lens15(acc)
  {
    var room := total - |acc|;
    if s < 16 then ReadLens(d, q, cl, total, acc + [s])
    else if s == 16 then
      if acc == [] then Bad else ReadLens(d, GetBits(d, q, 2).pos, cl, total,
          acc + Repeat(acc[|acc| - 1], Least(GetBits(d, q, 2).value + 3, room)))
    else if s == 17 then ReadLens(d, GetBits(d, q, 3).pos, cl, total,
        acc + Repeat(0, Least(GetBits(d, q, 3).value + 3, room)))
    else ReadLens(d, GetBits(d, q, 7).pos, cl, total, acc + Repeat(0, Least(GetBits(d, q, 7).value + 11, room)))
  }

  lemma {:induction false} LensStep(d: seq<Bit>, p: nat, cl: seq<Byte>, total: nat, acc: seq<Byte>)
    requires p <= |d| && |acc| < total && Lens15(acc)
    ensures match Decode(d, p, cl)
            case NoCode => ReadLens(d, p, cl, total, acc) == Bad
            case Undefined => ReadLens(d, p, cl, total, acc) == Unset
            case Decoded(s, q) => ReadLens(d, p, cl, total, acc) == RunSpec(d, q, cl, total, acc, s)
  {
    hide Decode, GetBits;
  }

  lemma {:induction false} LensDone(d: seq<Bit>, p: nat, cl: seq<Byte>, total: nat, acc: seq<Byte>)
    requires p <= |d| && |acc| == total && Lens15(acc)
    ensures ReadLens(d, p, cl, total, acc) == Lengths(acc, p)
  {
  }

  method TakeLens(r: LsbReader, cl: seq<Byte>, total: nat) returns (ok: bool, lens: seq<Byte>)
    requires r.Valid() && r.p <= 8 * |r.d| && Lens15(cl) && |cl| <= 288
    modifies r
    ensures r.Valid() && old(r.p) <= r.p <= 8 * |r.d|
    ensures ok ==> |lens| == total && Lens15(lens)
    ensures LensMeet(ReadLens(Stream(r.d), old(r.p), cl, total, []), ok, lens, r.p)
  {
    hide Stream, ReadLens, RunSpec, Decode, IsTable;
    var h := HuffBuild(cl);
    ghost var d := Stream(r.d);
    ghost var spec := ReadLens(d, r.p, cl, total, []);
    lens := [];
    while |lens| < total
      invariant r.Valid() && old(r.p) <= r.p <= 8 * |r.d| && |lens| <= total && Lens15(lens)
      invariant spec == Unset || spec == ReadLens(d, r.p, cl, total, lens)
      decreases 8 * |r.d| - r.p
    {
      LensStep(d, r.p, cl, total, lens);
      var s := HuffDecode(r, h, cl);
      if s < 0 { return false, lens; }
      ok, lens := TakeRun(r, cl, s, total, lens);
      if !ok { return; }
    }
    LensDone(d, r.p, cl, total, lens);
    ok := true;
  }

  /** The three counts of a dynamic header, if the input has them. */
  datatype Counts = Counts(hlit: nat, hdist: nat, hclen: nat)

  ghost function CountsAt(d: seq<Bit>, p: nat): (c: Counts)
    requires p + 14 <= |d|
    ensures 257 <= c.hlit <= 288 && 1 <= c.hdist <= 32 && 4 <= c.hclen <= 19
  {
    Powers();
    Counts(ReadLe(d, p, 5) + 257, ReadLe(d, p + 5, 5) + 1, ReadLe(d, p + 10, 4) + 4)
  }

  method TakeCounts(r: LsbReader) returns (ok: bool, c: Counts)
    requires r.Valid() && r.p <= 8 * |r.d|
    modifies r
    ensures r.Valid() && old(r.p) <= r.p <= 8 * |r.d|
    ensures ok <==> old(r.p) + 14 <= 8 * |r.d|
    ensures ok ==> c == CountsAt(Stream(r.d), old(r.p)) && r.p == old(r.p) + 14
  {
    hide Stream, ReadLe, Pow2;
    c := Counts(0, 0, 0);
    var hlit := r.GetBits(5);
    var hdist := r.GetBits(5);
    var hclen := r.GetBits(4);
    if hlit < 0 || hdist < 0 || hclen < 0 { return false, c; }
    return true, Counts(hlit + 257, hdist + 1, hclen + 4);
  }

  /** The specification in terms of the counts. */
  lemma {:induction false} DynamicIs(d: seq<Bit>, p: nat, out: seq<Byte>)
    requires p <= |d|
    ensures Dynamic(d, p, out) ==
            if p + 14 > |d| then Undef else
              var c := CountsAt(d, p);
              if p + 14 + 3 * c.hclen > |d| || c.hlit + c.hdist > MAX_LENS then Undef else
                match ReadLens(d, p + 14 + 3 * c.hclen, CodeLens(d, p + 14, c.hclen), c.hlit + c.hdist, [])
                case Bad => Err
                case Unset => Undef
                case Lengths(lens, q) => Block(d, q, lens[..c.hlit], lens[c.hlit..], out)
  {
    hide ReadLens, CodeLens, Block, ReadLe, Pow2;
    Powers();
  }

  method InflateDynamic(r: LsbReader, out0: seq<Byte>) returns (ok: bool, out: seq<Byte>)
    requires r.Valid() && r.p <= 8 * |r.d|
    modifies r
    ensures r.Valid() && old(r.p) <= r.p <= 8 * |r.d| && (ok ==> r.p > old(r.p))
    ensures Meets(Dynamic(Stream(r.d), old(r.p), out0), ok, out, r.p)
  {
    hide Stream, Dynamic, CountsAt, ReadLens, CodeLens, Block, IsTable;
    DynamicIs(Stream(r.d), r.p, out0);
    out := out0;
    var okh, c := TakeCounts(r);
    if !okh { return false, out; }
    var okc, cl := TakeCodeLens(r, c.hclen);
    if !okc || c.hlit + c.hdist > MAX_LENS { return false, out; }
    var okl, lens := TakeLens(r, cl, c.hlit + c.hdist);
    if !okl { return false, out; }
    var lh := HuffBuild(lens[..c.hlit]);
    var dh := HuffBuild(lens[c.hlit..]);
    ok, out := InflateBlock(r, lh, dh, lens[..c.hlit], lens[c.hlit..], out);
  }

  // ---- inflate ----

  /** The loops that fill in the fixed lengths. */
  method FixedTables() returns (ll: seq<Byte>, dl: seq<Byte>)
    ensures ll == FixedLits(288) && dl == FixedDists(30)
  {
    ll := [];
    for i := 0 to 144
      invariant ll == FixedLits(i)
    { ll := ll + [8]; }
    for i := 144 to 256
      invariant ll == FixedLits(i)
    { ll := ll + [9]; }
    for i := 256 to 280
      invariant ll == FixedLits(i)
    { ll := ll + [7]; }
    for i := 280 to 288
      invariant ll == FixedLits(i)
    { ll := ll + [8]; }
    dl := [];
    for i := 0 to 30
      invariant dl == FixedDists(i)
    { dl := dl + [5]; }
  }

  method InflateFixed(r: LsbReader, out0: seq<Byte>) returns (ok: bool, out: seq<Byte>)
    requires r.Valid() && r.p <= 8 * |r.d|
    modifies r
    ensures r.Valid() && old(r.p) <= r.p <= 8 * |r.d| && (ok ==> r.p > old(r.p))
    ensures Meets(Block(Stream(r.d), old(r.p), FixedLits(288), FixedDists(30), out0), ok, out, r.p)
  {
    hide Stream, Block, IsTable;
    var ll, dl := FixedTables();
    var lh := HuffBuild(ll);
    var dh := HuffBuild(dl);
    ok, out := InflateBlock(r, lh, dh, ll, dl, out0);
  }

  method InflateOne(r: LsbReader, kind: nat, out0: seq<Byte>) returns (ok: bool, out: seq<Byte>)
    requires r.Valid() && r.p <= 8 * |r.d|
    modifies r
    ensures r.Valid() && old(r.p) <= r.p <= 8 * |r.d| && (ok ==> r.p > old(r.p))
    ensures Meets(OneBlock(Stream(r.d), old(r.p), kind, out0), ok, out, r.p)
  {
    hide Stream, Block, Dynamic, StoredBlock, FixedLits, FixedDists;
    out := out0;
    if kind == 0 { ok, out := InflateStored(r, out); }
    else if kind == 1 { ok, out := InflateFixed(r, out); }
    else if kind == 2 { ok, out := InflateDynamic(r, out); }
    else { ok := false; }
  }

  /** One round of the specification. */
  lemma {:induction false} BlocksStep(d: seq<Bit>, p: nat, out: seq<Byte>)
    requires p <= |d|
    ensures Blocks(d, p, out) ==
            if p + 3 > |d| then Err else
              match OneBlock(d, p + 3, ReadLe(d, p + 1, 2), out)
              case Err => Err
              case Undef => Undef
              case Out(more, q) => if d[p] == 1 then Out(more, q) else Blocks(d, q, more)
  {
    hide OneBlock;
  }

  /** `inflate`: every outcome of the specification is the program's. */
  method InflateAll(data: seq<Byte>) returns (ok: bool, out: seq<Byte>)
    ensures match Inflated(data)
            case Undef => true
            case Err => !ok
            case Out(x, _) => ok && out == x
  {
    hide Stream, OneBlock, Blocks, ReadLe;
    var r := new LsbReader(data);
    ghost var d := Stream(data);
    ghost var spec := Blocks(d, 0, []);
    out := [];
    while true
      invariant r.Valid() && fresh(r) && r.d == data && r.p <= 8 * |data|
      invariant spec == Undef || spec == Blocks(d, r.p, out)
      decreases 8 * |data| - r.p
    {
      BlocksStep(d, r.p, out);
      var final := r.GetBit();
      if final < 0 { return false, out; }
      var kind := r.GetBits(2);
      if kind < 0 { return false, out; }
      ok, out := InflateOne(r, kind, out);
      if !ok { return; }
      if final == 1 { return; }
    }
  }
}
