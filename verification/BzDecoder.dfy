/** The loops of `decode_block` and `decompress`, against the reading of arbitrary bit streams. Where the
    C code would leave an array or use an entry it never set, the model returns `Undefined`. */
module BzDecoder {
  import opened Options
  import opened Bits
  import opened Seqs
  import opened CountingSort
  import opened BzBitIO
  import opened BzCrc
  import opened BzHuffman
  import opened BzFormat
  import opened BzBlock
  import opened Bzip2
  import opened BzTables
  import BzRle1
  import BzMtf
  import BzUnBwt

  // ------------------------------------------------------------------- symbol map

  lemma {:induction false} UnusedGroup(flags: seq<bool>, n: nat)
    requires |flags| + n <= 256
    ensures SymbolList(flags + Falses(n)) == SymbolList(flags)
  {
    if n > 0 {
      UnusedGroup(flags, n - 1);
      var all := flags + Falses(n);
      assert all[..|all| - 1] == flags + Falses(n - 1);
    } else {
      assert flags + Falses(0) == flags;
    }
  }

  lemma {:induction false} NumberBit(d: seq<Bit>, q: nat, k: nat, j: nat)
    requires j < k
    ensures ReadBits(d, q, k) / Pow2(k - 1 - j) % 2 == BitAt(d, q + j)
  {
    hide *;
    ReadBitsPrefix(d, q, j + 1, k - 1 - j);
    LastBit(d, q, j);
  }

  lemma {:induction false} LastBit(d: seq<Bit>, q: nat, j: nat)
    ensures ReadBits(d, q, j + 1) % 2 == BitAt(d, q + j)
  {
    hide BitAt, Pow2;
    assert ReadBits(d, q, j + 1) == 2 * ReadBits(d, q, j) + BitAt(d, q + j);
  }

  lemma {:induction false} MaskBit(d: seq<Bit>, q: nat, j: nat)
    requires j < 16
    ensures ReadBits(d, q, 16) / Pow2(15 - j) % 2 == BitAt(d, q + j)
  {
    hide *;
    NumberBit(d, q, 16, j);
  }

  /** One 16-bit mask: the bytes it marks join the list. */
  method TakeMask(r: BitReader, list0: seq<Byte>, i: nat, ghost flags: seq<bool>) returns (list: seq<Byte>)
    requires r.Valid() && i < 16 && |flags| == 16 * i && list0 == SymbolList(flags)
    modifies r
    ensures r.Valid() && r.p == old(r.p) + 16
    ensures list == SymbolList(flags + ReadMask(BytesToBits(r.d), old(r.p)))
  {
    hide BytesToBits, SymbolList, BitAt, Pow2;
    ghost var D, q := BytesToBits(r.d), r.p;
    ghost var mask := ReadMask(D, q);
    var bits := r.Get(16);
    list := list0;
    var j := 0;
    assert flags + mask[..0] == flags;
    while j < 16
      invariant 0 <= j <= 16 && list == SymbolList(flags + mask[..j])
      invariant r.Valid() && r.p == q + 16
    {
      MaskBit(D, q, j);
      SnocSlice(mask, j);
      Assoc(flags, mask[..j], [mask[j]]);
      ListSnoc(flags + mask[..j], mask[j]);
      if bits / Pow2(15 - j) % 2 == 1 { list := list + [i * 16 + j]; }
      j := j + 1;
    }
    assert mask[..16] == mask;
  }

  lemma {:induction false} ListSnoc(flags: seq<bool>, b: bool)
    requires |flags| < 256
    ensures SymbolList(flags + [b]) == SymbolList(flags) + if b then [|flags|] else []
  {
    assert (flags + [b])[..|flags|] == flags;
  }

  /** The symbol map: the list of bytes in use. */
  method TakeMap(r: BitReader) returns (list: seq<Byte>, ghost flags: seq<bool>)
    requires r.Valid()
    modifies r
    ensures r.Valid() && |flags| == 256 && list == SymbolList(flags)
    ensures ReadFlags(BytesToBits(r.d), old(r.p)) == Got(flags, r.p)
  {
    hide SymbolList, ReadMask, BitAt, BytesToBits, ReadFlagsFrom, ReadBits, Pow2;
    ghost var D, p0 := BytesToBits(r.d), r.p;
    var in16 := r.Get(16);
    ghost var want := ReadFlagsFrom(D, p0, 0, p0 + 16);
    list, flags := [], [];
    EmptyLeft(want.value);
    assert SymbolList([]) == [] by { EmptyList(); }
    var i := 0;
    while i < 16
      invariant 0 <= i <= 16 && r.Valid() && |flags| == 16 * i && list == SymbolList(flags)
      invariant var rest := ReadFlagsFrom(D, p0, i, r.p); want == Got(flags + rest.value, rest.pos)
    {
      MaskBit(D, p0, i);
      ghost var rest, f0 := ReadFlagsFrom(D, p0, i, r.p), flags;
      FlagsUnfold(D, p0, i, r.p);
      if in16 / Pow2(15 - i) % 2 == 1 {
        ghost var mask := ReadMask(D, r.p);
        Assoc(f0, mask, ReadFlagsFrom(D, p0, i + 1, r.p + 16).value);
        list := TakeMask(r, list, i, flags);
        flags := flags + mask;
      } else {
        Assoc(f0, Falses(16), ReadFlagsFrom(D, p0, i + 1, r.p).value);
        UnusedGroup(flags, 16);
        flags := flags + Falses(16);
      }
      i := i + 1;
    }
    FlagsEnd(D, p0, r.p);
    assert flags + [] == flags;
  }

  lemma {:induction false} EmptyList()
    ensures SymbolList([]) == []
  {
  }

  lemma {:induction false} FlagsEnd(d: seq<Bit>, p: nat, q: nat)
    ensures ReadFlagsFrom(d, p, 16, q) == Got([], q)
  {
  }

  lemma {:induction false} FlagsUnfold(d: seq<Bit>, p: nat, i: nat, q: nat)
    requires i < 16
    ensures BitAt(d, p + i) == 1 ==> var rest := ReadFlagsFrom(d, p, i + 1, q + 16);
      ReadFlagsFrom(d, p, i, q) == Got(ReadMask(d, q) + rest.value, rest.pos)
    ensures BitAt(d, p + i) == 0 ==> var rest := ReadFlagsFrom(d, p, i + 1, q);
      ReadFlagsFrom(d, p, i, q) == Got(Falses(16) + rest.value, rest.pos)
  {
  }

  // --------------------------------------------------------------------- selectors

  /** `while (rbits(r, 1)) j++`. */
  method TakeUnary(r: BitReader) returns (j: nat)
    requires r.Valid()
    modifies r
    ensures r.Valid() && ReadUnary(BytesToBits(r.d), old(r.p)) == Got(j, r.p)
  {
    ghost var D, q := BytesToBits(r.d), r.p;
    j := 0;
    var bit := r.GetBit();
    while bit == 1
      invariant r.Valid() && r.p > q && bit == BitAt(D, r.p - 1)
      invariant var rest := ReadUnary(D, r.p - 1); ReadUnary(D, q) == Got(j + rest.value, rest.pos)
      decreases |D| - r.p
    {
      j := j + 1;
      bit := r.GetBit();
    }
  }

  method TakeSelectors(r: BitReader, n: nat) returns (sel: seq<nat>)
    requires r.Valid()
    modifies r
    ensures r.Valid() && ReadSelectors(BytesToBits(r.d), old(r.p), n) == Got(sel, r.p)
  {
    hide ReadUnary, BytesToBits;
    ghost var D, q := BytesToBits(r.d), r.p;
    sel := [];
    var i := 0;
    EmptyLeft(ReadSelectors(D, q, n).value);
    while i < n
      invariant 0 <= i <= n && r.Valid()
      invariant var rest := ReadSelectors(D, r.p, n - i); ReadSelectors(D, q, n) == Got(sel + rest.value, rest.pos)
    {
      ghost var one := ReadUnary(D, r.p);
      Assoc(sel, [one.value % 256], ReadSelectors(D, one.pos, n - i - 1).value);
      var j := TakeUnary(r);
      sel := sel + [j % 256];
      i := i + 1;
    }
    assert sel + [] == sel;
  }

  /** Selector move-to-front over the array `pos`. */
  method UnMtfSelectors(selmtf: seq<nat>, groups: nat) returns (o: Option<seq<nat>>)
    ensures o == UnMtf(selmtf, BzMtf.Identity(groups))
  {
    hide BzMtf.MoveToFront;
    var pos := new nat[groups](i => i);
    assert pos[..] == BzMtf.Identity(groups);
    ghost var want := UnMtf(selmtf, BzMtf.Identity(groups));
    var sel: seq<nat> := [];
    if want.Some? { EmptyLeft(want.value); }
    var i := 0;
    assert selmtf[0..] == selmtf;
    while i < |selmtf|
      invariant 0 <= i <= |selmtf|
      invariant want == match UnMtf(selmtf[i..], pos[..]) case None => None case Some(rest) => Some(sel + rest)
    {
      ConsSlice(selmtf, i);
      var v := selmtf[i];
      if v >= groups { return None; }
      ghost var pos0 := pos[..];
      var tmp := BzMtf.ShiftToFront(pos, groups, v);
      assert pos[..groups] == pos[..] && pos0[..groups] == pos0;
      ghost var tail := UnMtf(selmtf[i + 1..], pos[..]);
      if tail.Some? { Assoc(sel, [tmp], tail.value); }
      sel := sel + [tmp];
      i := i + 1;
    }
    assert sel + [] == sel;
    return Some(sel);
  }

  // ------------------------------------------------------------------ code lengths

  method TakeDelta(r: BitReader, c0: int) returns (c: int)
    requires r.Valid()
    modifies r
    ensures r.Valid() && ReadDelta(BytesToBits(r.d), old(r.p), c0) == Got(c, r.p)
  {
    ghost var D, q := BytesToBits(r.d), r.p;
    c := c0;
    var more := r.GetBit();
    while more == 1
      invariant r.Valid() && r.p > q && more == BitAt(D, r.p - 1)
      invariant ReadDelta(D, q, c0) == ReadDelta(D, r.p - 1, c)
      decreases |D| - r.p
    {
      var down := r.GetBit();
      c := if down == 1 then c - 1 else c + 1;
      more := r.GetBit();
    }
  }

  /** The lengths of one table. */
  method TakeTable(r: BitReader, alpha: nat) returns (len: seq<Byte>)
    requires r.Valid()
    modifies r
    ensures r.Valid() && |len| == alpha && ReadTable(BytesToBits(r.d), old(r.p), alpha) == Got(len, r.p)
  {
    hide ReadDelta, BytesToBits;
    ghost var D, q := BytesToBits(r.d), r.p;
    var start := r.Get(5);
    var c: int := start;
    ghost var want := ReadLengths(D, q + 5, c, alpha);
    len := [];
    EmptyLeft(want.value);
    var s := 0;
    while s < alpha
      invariant 0 <= s <= alpha && r.Valid() && |len| == s
      invariant var rest := ReadLengths(D, r.p, c, alpha - s); want == Got(len + rest.value, rest.pos)
    {
      ghost var one := ReadDelta(D, r.p, c);
      Assoc(len, [one.value % 256], ReadLengths(D, one.pos, one.value, alpha - s - 1).value);
      c := TakeDelta(r, c);
      len := len + [c % 256];
      s := s + 1;
    }
    assert len + [] == len;
  }

  predicate Usable(len: seq<Byte>)
  {
    forall s :: 0 <= s < |len| ==> len[s] <= 22
  }

  /** The built decoders stand for the length tables. */
  ghost predicate DecodersFor(ts: seq<Tables>, mxs: seq<nat>, lens: seq<seq<Byte>>)
  {
    && |ts| == |mxs| == |lens|
    && forall g :: 0 <= g < |ts| ==> TablesFor(ts[g], lens[g]) && mxs[g] == Longest(lens[g])
  }

  /** All tables, each built as soon as its lengths are read; not ok when lengths leave the tables. */
  method TakeTables(r: BitReader, groups: nat, alpha: nat)
    returns (ok: bool, ts: seq<Tables>, mxs: seq<nat>, ghost lens: seq<seq<Byte>>)
    requires r.Valid() && alpha <= 258
    modifies r
    ensures r.Valid()
    ensures ok == LengthsUsable(ReadTables(BytesToBits(r.d), old(r.p), groups, alpha).value)
    ensures ok ==> DecodersFor(ts, mxs, lens) && ReadTables(BytesToBits(r.d), old(r.p), groups, alpha) == Got(lens, r.p)
  {
    hide ReadTable, BytesToBits, TablesFor, Longest;
    ghost var D, q := BytesToBits(r.d), r.p;
    ghost var want := ReadTables(D, q, groups, alpha);
    ts, mxs, lens := [], [], [];
    EmptyLeft(want.value);
    var g := 0;
    while g < groups
      invariant 0 <= g <= groups && r.Valid() && |lens| == g && DecodersFor(ts, mxs, lens)
      invariant var rest := ReadTables(D, r.p, groups - g, alpha); want == Got(lens + rest.value, rest.pos)
      invariant LengthsUsable(lens)
    {
      ghost var one := ReadTable(D, r.p, alpha);
      ghost var rest := ReadTables(D, one.pos, groups - g - 1, alpha);
      Assoc(lens, [one.value], rest.value);
      var len := TakeTable(r, alpha);
      if !Usable(len) {
        assert want.value[g] == len;
        return false, ts, mxs, lens;
      }
      var t, mx := BuildTables(len);
      lens, ts, mxs := lens + [len], ts + [t], mxs + [mx];
      g := g + 1;
    }
    assert lens + [] == lens;
    ok := true;
  }

  /** GETSYM: read the shortest length, then bit by bit until the value is within the limit. */
  method TakeSymbol(r: BitReader, t: Tables, mx: nat, alpha: nat, ghost len: seq<Byte>) returns (o: Option<nat>)
    requires r.Valid() && TablesFor(t, len) && mx == Longest(len) && alpha == |len|
    modifies r
    ensures r.Valid()
    ensures match DecodeSym(BytesToBits(r.d), old(r.p), len)
      case None => o == None
      case Some((sym, q)) => o == Some(sym) && r.p == q
  {
    hide BytesToBits, Limit, Base, Longest, Shortest, Links, Pow2, BitAt;
    ghost var D, q := BytesToBits(r.d), r.p;
    var zn := t.minL;
    if zn > mx { return None; }
    var zv := r.Get(zn);
    while zv > t.limit[zn]
      invariant t.minL <= zn <= mx && r.Valid() && r.p == q + zn && zv == ReadBits(D, q, zn)
      invariant StopLength(D, q, len, mx, t.minL) == StopLength(D, q, len, mx, zn)
      decreases mx - zn
    {
      if zn == mx { return None; }
      zn := zn + 1;
      var bit := r.GetBit();
      zv := 2 * zv + bit;
    }
    var at := zv - t.base[zn];
    if at < 0 || at >= alpha { return None; }
    return Some(t.perm[at]);
  }

  // -------------------------------------------------------------- the column and its counts

  /** `tt` and `cftab` hold the column so far: the bytes, and one slot up, how many of each. */
  ghost predicate Column(tt: seq<nat>, cftab: seq<nat>, col: seq<Byte>)
  {
    && |cftab| == 257 && cftab[0] == 0 && |col| <= |tt|
    && (forall i :: 0 <= i < |col| ==> tt[i] == col[i])
    && (forall b :: 1 <= b <= 256 ==> cftab[b] == CountEq(col, b - 1))
  }

  lemma {:induction false} CountRepeat(col: seq<Byte>, b: Byte, n: nat, x: int)
    ensures CountEq(col + Repeat(b, n), x) == CountEq(col, x) + if x == b then n else 0
  {
    var all := col + Repeat(b, n);
    if n == 0 {
      assert all == col;
    } else {
      CountRepeat(col, b, n - 1, x);
      assert all[..|all| - 1] == col + Repeat(b, n - 1);
    }
  }

  /** `cftab[b + 1] += n; while (n--) tt[nblock++] = b`. */
  method Emit(tt: array<nat>, cftab: array<nat>, nblock: nat, b: Byte, n: nat, ghost col: seq<Byte>)
    requires tt != cftab && nblock == |col| && nblock + n <= tt.Length && Column(tt[..], cftab[..], col)
    modifies tt, cftab
    ensures Column(tt[..], cftab[..], col + Repeat(b, n))
  {
    ghost var cf0 := cftab[..];
    cftab[b + 1] := cftab[b + 1] + n;
    var k := 0;
    while k < n
      invariant 0 <= k <= n && cftab[..] == cf0[b + 1 := cf0[b + 1] + n]
      invariant forall i :: 0 <= i < nblock ==> tt[i] == col[i]
      invariant forall i :: nblock <= i < nblock + k ==> tt[i] == b
    {
      tt[nblock + k] := b;
      k := k + 1;
    }
    ghost var all := col + Repeat(b, n);
    forall x | 1 <= x <= 256 ensures cftab[x] == CountEq(all, x - 1) {
      CountRepeat(col, b, n, x - 1);
      assert cf0[x] == CountEq(col, x - 1);
    }
  }

  /** Indices into the list of bytes in use, as bytes. */
  ghost function Bytes(vs: seq<nat>, list: seq<Byte>): (l: seq<Byte>)
    requires forall i :: 0 <= i < |vs| ==> vs[i] < |list|
    ensures |l| == |vs| && forall i :: 0 <= i < |vs| ==> l[i] == list[vs[i]]
  {
    seq(|vs|, i requires 0 <= i < |vs| => list[vs[i]])
  }

  ghost predicate AllBelow(vs: seq<nat>, n: nat)
  {
    forall i :: 0 <= i < |vs| ==> vs[i] < n
  }

  lemma {:induction false} AdvanceBelow(st: BzMtf.Progress, sym: nat, n: nat)
    requires st.m != [] && sym <= |st.m| && AllBelow(st.out, n) && AllBelow(st.m, n)
    ensures var st' := BzMtf.Advance(st, sym); AllBelow(st'.out, n) && AllBelow(st'.m, n)
  {
  }

  lemma {:induction false} BytesRun(vs: seq<nat>, v: nat, n: nat, list: seq<Byte>)
    requires AllBelow(vs, |list|) && v < |list|
    ensures AllBelow(vs + Repeat(v, n), |list|)
    ensures Bytes(vs + Repeat(v, n), list) == Bytes(vs, list) + Repeat(list[v], n)
  {
  }

  /** The loop's registers agree with the progress made on the symbols read so far. */
  ghost predicate Holds(st: BzMtf.Progress, tt: seq<nat>, cftab: seq<nat>, mtf: seq<nat>, nblock: nat,
                        run: nat, bit: nat, list: seq<Byte>)
  {
    && st.m == mtf && st.run == run && st.bit == bit && |st.out| == nblock && |mtf| == |list| > 0
    && AllBelow(st.out, |list|) && AllBelow(st.m, |list|)
    && Column(tt, cftab, Bytes(st.out, list))
  }

  /** One symbol other than the end of block. Not ok when the column outgrows `tt`. */
  method ApplySymbol(sym: nat, tt: array<nat>, cftab: array<nat>, mtf: array<nat>, list: seq<Byte>,
                     nblock: nat, run: nat, bit: nat, ghost st: BzMtf.Progress)
    returns (ok: bool, nblock': nat, run': nat, bit': nat)
    requires tt != cftab && tt != mtf && cftab != mtf && sym <= |list|
    requires Holds(st, tt[..], cftab[..], mtf[..], nblock, run, bit, list)
    modifies tt, cftab, mtf
    ensures ok <==> |BzMtf.Advance(st, sym).out| <= tt.Length
    ensures ok ==> Holds(BzMtf.Advance(st, sym), tt[..], cftab[..], mtf[..], nblock', run', bit', list)
  {
    AdvanceBelow(st, sym, |list|);
    ghost var st' := BzMtf.Advance(st, sym);
    if sym < 2 {
      return true, nblock, run + (sym + 1) * Pow2(bit), bit + 1;
    }
    if nblock + run + 1 > tt.Length { return false, nblock, run, bit; }
    ghost var v0 := st.m[0];
    Emit(tt, cftab, nblock, list[mtf[0]], run, Bytes(st.out, list));
    BytesRun(st.out, v0, run, list);
    ghost var mid := st.out + Repeat(v0, run);
    ghost var m0 := mtf[..];
    var tmp := BzMtf.ShiftToFront(mtf, mtf.Length, sym - 1);
    assert mtf[..] == mtf[..mtf.Length] && m0 == m0[..mtf.Length];
    Emit(tt, cftab, nblock + run, list[tmp], 1, Bytes(mid, list));
    BytesRun(mid, tmp, 1, list);
    assert Repeat(tmp, 1) == [tmp];
    Assoc(st.out, Repeat(v0, run), [tmp]);
    return true, nblock + run + 1, 0, 0;
  }

  // ---------------------------------------------------------------------- the symbol loop

  /** What `k` symbols read, then more read from `q` on, amount to. */
  function Then(done: seq<nat>, rest: Option<Got<seq<nat>>>): Option<Got<seq<nat>>>
  {
    match rest
    case None => None
    case Some(g) => Some(Got(done + g.value, g.pos))
  }

  lemma {:induction false} ThenStep(d: seq<Bit>, q: nat, lens: seq<seq<Byte>>, sel: seq<nat>, k: nat, eob: nat,
                                    done: seq<nat>, sym: nat, q1: nat)
    requires forall i :: 0 <= i < |sel| ==> sel[i] < |lens|
    requires forall g :: 0 <= g < |lens| ==> |lens[g]| == eob + 1
    requires k / 50 < |sel| && DecodeSym(d, q, lens[sel[k / 50]]) == Some((sym, q1))
    ensures sym == eob ==> Then(done, ReadSyms(d, q, lens, sel, k, eob)) == Some(Got(done, q1))
    ensures sym != eob ==>
      Then(done, ReadSyms(d, q, lens, sel, k, eob)) == Then(done + [sym], ReadSyms(d, q1, lens, sel, k + 1, eob))
  {
    hide DecodeSym;
    if sym == eob {
      assert done + [] == done;
    } else {
      var rest := ReadSyms(d, q1, lens, sel, k + 1, eob);
      if rest.Some? { Assoc(done, [sym], rest.value.value); }
    }
  }

  lemma {:induction false} AfterSnoc(done: seq<nat>, sym: nat, m: seq<nat>)
    requires m != [] && BzMtf.InRange(done, |m|) && sym <= |m|
    ensures BzMtf.InRange(done + [sym], |m|)
    ensures BzMtf.After(done + [sym], m) == BzMtf.Advance(BzMtf.After(done, m), sym)
  {
    assert (done + [sym])[..|done|] == done;
  }

  /** A column that has outgrown `tt` part-way is too long when finished. */
  lemma {:induction false} TooLong(done: seq<nat>, rest: Option<Got<seq<nat>>>, m: seq<nat>, cap: nat)
    requires m != [] && BzMtf.InRange(done, |m|) && |BzMtf.After(done, m).out| > cap
    requires rest.Some? ==> BzMtf.InRange(rest.value.value, |m|)
    ensures Then(done, rest).Some? ==>
      && BzMtf.InRange(Then(done, rest).value.value, |m|)
      && |BzMtf.Decode(Then(done, rest).value.value, m, 0, 0)| > cap
  {
    if rest.Some? { BzMtf.DecodeContinues(done, rest.value.value, m); }
  }

  /** The result of the symbol loop as a function of the symbols: the column, when it fits. */
  ghost predicate ColumnRead(syms: Option<Got<seq<nat>>>, list: seq<Byte>, cap: nat, ok: bool, pos: nat, col: seq<Byte>)
    requires list != [] && (syms.Some? ==> BzMtf.InRange(syms.value.value, |list|))
  {
    match syms
    case None => !ok
    case Some(g) =>
      var vs := BzMtf.Decode(g.value, BzMtf.Identity(|list|), 0, 0);
      && (ok <==> |vs| <= cap)
      && (ok ==> pos == g.pos && AllBelow(vs, |list|) && col == Bytes(vs, list))
  }

  lemma {:induction false} SymsInRange(d: seq<Bit>, q: nat, lens: seq<seq<Byte>>, sel: seq<nat>, k: nat, eob: nat)
    requires eob >= 1
    requires forall i :: 0 <= i < |sel| ==> sel[i] < |lens|
    requires forall g :: 0 <= g < |lens| ==> |lens[g]| == eob + 1
    ensures ReadSyms(d, q, lens, sel, k, eob).Some? ==>
      BzMtf.InRange(ReadSyms(d, q, lens, sel, k, eob).value.value, eob - 1)
  {
    hide DecodeSym;
  }

  /** The symbol loop has read `done`, and the registers hold the progress on it. */
  ghost predicate Looped(d: seq<Bit>, q0: nat, q: nat, lens: seq<seq<Byte>>, sel: seq<nat>, k: nat, eob: nat,
      done: seq<nat>)
    requires forall i :: 0 <= i < |sel| ==> sel[i] < |lens|
    requires forall g :: 0 <= g < |lens| ==> |lens[g]| == eob + 1
  {
    && eob >= 1 && BzMtf.InRange(done, eob - 1)
    && ReadSyms(d, q0, lens, sel, 0, eob) == Then(done, ReadSyms(d, q, lens, sel, k, eob))
  }

  lemma {:induction false} LoopEnds(syms: Option<Got<seq<nat>>>, done: seq<nat>, pos: nat, list: seq<Byte>, cap: nat,
                                    ok: bool, col: seq<Byte>)
    requires list != [] && BzMtf.InRange(done, |list|) && syms == Some(Got(done, pos))
    requires var st := BzMtf.After(done, BzMtf.Identity(|list|));
      && AllBelow(st.out, |list|) && AllBelow(st.m, |list|)
      && (ok <==> |st.out| + st.run <= cap)
      && (ok ==> col == Bytes(st.out, list) + Repeat(list[st.m[0]], st.run))
    ensures ColumnRead(syms, list, cap, ok, pos, col)
  {
    hide BzMtf.Decode, BzMtf.After, Bytes;
    var m := BzMtf.Identity(|list|);
    BzMtf.DecodeIsAfter(done, m);
    var st := BzMtf.After(done, m);
    BytesRun(st.out, st.m[0], st.run, list);
  }

  /** The symbol loop of `decode_block`: symbols straight into the column and its counts. */
  method SymbolLoop(r: BitReader, ts: seq<Tables>, mxs: seq<nat>, sel: seq<nat>, list: seq<Byte>,
                    tt: array<nat>, cftab: array<nat>, ghost lens: seq<seq<Byte>>)
    returns (ok: bool, nblock: nat, ghost col: seq<Byte>)
    requires r.Valid() && list != [] && tt != cftab && DecodersFor(ts, mxs, lens)
    requires forall i :: 0 <= i < |sel| ==> sel[i] < |lens|
    requires forall g :: 0 <= g < |lens| ==> |lens[g]| == |list| + 2
    requires Column(tt[..], cftab[..], [])
    modifies r, tt, cftab
    ensures r.Valid()
    ensures var syms := ReadSyms(BytesToBits(r.d), old(r.p), lens, sel, 0, |list| + 1);
      && (syms.Some? ==> BzMtf.InRange(syms.value.value, |list|))
      && ColumnRead(syms, list, tt.Length, ok, r.p, col)
    ensures ok ==> nblock == |col| && Column(tt[..], cftab[..], col)
  {
    hide BytesToBits, ReadSyms, DecodeSym, TablesFor, Column, BzMtf.After, BzMtf.Advance, BzMtf.Decode, Bytes;
    ghost var D, q0 := BytesToBits(r.d), r.p;
    var eob, alpha := |list| + 1, |list| + 2;
    SymsInRange(D, q0, lens, sel, 0, eob);
    var mtf := new nat[|list|](i => i);
    ghost var m := BzMtf.Identity(|list|);
    assert mtf[..] == m;
    var run, bit, grpPos := 0, 0, 0;
    var grpIdx: int := -1;
    nblock, col := 0, [];
    ghost var done: seq<nat>, k: nat := [], 0;
    StartLoop(D, q0, lens, sel, eob, tt[..], cftab[..], list);
    while true
      invariant r.Valid() && 0 <= grpPos < 50 && grpIdx >= -1 && k == 50 * grpIdx + 50 - grpPos
      invariant fresh(mtf) && mtf.Length == |list|
      invariant Looped(D, q0, r.p, lens, sel, k, eob, done)
      invariant Holds(BzMtf.After(done, m), tt[..], cftab[..], mtf[..], nblock, run, bit, list)
      decreases 50 * |sel| - k
    {
      if grpPos == 0 {
        grpIdx := grpIdx + 1;
        grpPos := 50;
      }
      assert k / 50 == grpIdx;
      if grpIdx >= |sel| {
        SymsRunOut(D, r.p, lens, sel, k, eob);
        return false, nblock, col;
      }
      grpPos := grpPos - 1;
      var g := sel[grpIdx];
      ghost var q := r.p;
      var o := TakeSymbol(r, ts[g], mxs[g], alpha, lens[g]);
      if o == None {
        SymsStuck(D, q, lens, sel, k, eob);
        return false, nblock, col;
      }
      ThenStep(D, q, lens, sel, k, eob, done, o.value, r.p);
      if o.value == eob {
        break;
      }
      ghost var st := BzMtf.After(done, m);
      AfterSnoc(done, o.value, m);
      done := done + [o.value];
      k := k + 1;
      ok, nblock, run, bit := ApplySymbol(o.value, tt, cftab, mtf, list, nblock, run, bit, st);
      if !ok {
        SymsInRange(D, r.p, lens, sel, k, eob);
        TooLong(done, ReadSyms(D, r.p, lens, sel, k, eob), m, tt.Length);
        return false, nblock, col;
      }
    }
    ghost var st := BzMtf.After(done, m);
    col := Bytes(st.out, list) + Repeat(list[st.m[0]], st.run);
    ok := nblock + run <= tt.Length;
    LoopEnds(ReadSyms(D, q0, lens, sel, 0, eob), done, r.p, list, tt.Length, ok, col);
    if ok {
      Emit(tt, cftab, nblock, list[mtf[0]], run, Bytes(st.out, list));
      nblock := nblock + run;
    }
  }

  lemma {:induction false} StartLoop(d: seq<Bit>, q0: nat, lens: seq<seq<Byte>>, sel: seq<nat>, eob: nat,
                                     tt: seq<nat>, cftab: seq<nat>, list: seq<Byte>)
    requires list != [] && eob == |list| + 1
    requires forall i :: 0 <= i < |sel| ==> sel[i] < |lens|
    requires forall g :: 0 <= g < |lens| ==> |lens[g]| == eob + 1
    requires Column(tt, cftab, [])
    ensures Looped(d, q0, q0, lens, sel, 0, eob, [])
    ensures Holds(BzMtf.After([], BzMtf.Identity(|list|)), tt, cftab, BzMtf.Identity(|list|), 0, 0, 0, list)
  {
    hide ReadSyms;
    var rest := ReadSyms(d, q0, lens, sel, 0, eob);
    if rest.Some? { EmptyLeft(rest.value.value); }
    assert Bytes([], list) == [];
  }

  lemma {:induction false} SymsRunOut(d: seq<Bit>, q: nat, lens: seq<seq<Byte>>, sel: seq<nat>, k: nat, eob: nat)
    requires forall i :: 0 <= i < |sel| ==> sel[i] < |lens|
    requires forall g :: 0 <= g < |lens| ==> |lens[g]| == eob + 1
    requires k / 50 >= |sel|
    ensures ReadSyms(d, q, lens, sel, k, eob) == None
  {
  }

  lemma {:induction false} SymsStuck(d: seq<Bit>, q: nat, lens: seq<seq<Byte>>, sel: seq<nat>, k: nat, eob: nat)
    requires forall i :: 0 <= i < |sel| ==> sel[i] < |lens|
    requires forall g :: 0 <= g < |lens| ==> |lens[g]| == eob + 1
    requires k / 50 < |sel| && DecodeSym(d, q, lens[sel[k / 50]]) == None
    ensures ReadSyms(d, q, lens, sel, k, eob) == None
  {
  }

  // --------------------------------------------------------------------- whole blocks

  /** The header fields up to the tables. */
  method TakeHead(r: BitReader) returns (o: Outcome<(nat, seq<Byte>, nat, seq<nat>)>, ghost head: Head)
    requires r.Valid()
    modifies r
    ensures r.Valid()
    ensures match ReadHead(BytesToBits(r.d), old(r.p))
      case Err => o == Err
      case Undefined => o == Undefined
      case Ok(got) =>
        && got == Got(head, r.p)
        && o == Ok((head.origPtr, SymbolList(head.flags), head.groups, head.sel))
  {
    hide BytesToBits, ReadFlags, ReadSelectors, SymbolList, UnMtf, BitAt, ReadBits, Pow2, BzMtf.Identity;
    head := Head(0, [], 0, []);
    var random := r.GetBit();
    if random == 1 { return Err, head; }
    var origPtr := r.Get(24);
    var list, flags := TakeMap(r);
    var groups := r.Get(3);
    var nSel := r.Get(15);
    var selmtf := TakeSelectors(r, nSel);
    if groups > 6 { return Undefined, head; }
    var sel := UnMtfSelectors(selmtf, groups);
    if sel == None { return Undefined, head; }
    head := Head(origPtr, flags, groups, sel.value);
    return Ok((origPtr, list, groups, sel.value)), head;
  }

  /** From the finished column to the bytes of the block. */
  method FinishBlock(tt: array<nat>, cftab: array<nat>, nblock: nat, origPtr: nat, ghost col: seq<Byte>)
    returns (blk: seq<Byte>)
    requires tt != cftab && nblock == |col| && origPtr < nblock && Column(tt[..], cftab[..], col)
    modifies tt, cftab
    ensures blk == BzRle1.Decode(BzUnBwt.UnBwt(col, origPtr), -1, 0)
  {
    BzUnBwt.PlaceLinks(tt, cftab, col, nblock);
    blk := BzUnBwt.Unwind(tt, col, nblock, origPtr);
  }

  /** What the column loop established, in terms of `Expand`. */
  lemma {:induction false} ExpandColumn(syms: seq<nat>, list: seq<Byte>, origPtr: nat, ok: bool, pos: nat, q: nat,
      col: seq<Byte>)
    requires list != [] && BzMtf.InRange(syms, |list|)
    requires ColumnRead(Some(Got(syms, q)), list, BzUnBwt.TT_SIZE, ok, pos, col)
    ensures !ok || origPtr >= |col| ==> Expand(syms, list, origPtr) == Undefined
    ensures ok && origPtr < |col| ==>
      pos == q && Expand(syms, list, origPtr) == Ok(BzRle1.Decode(BzUnBwt.UnBwt(col, origPtr), -1, 0))
  {
    hide BzRle1.Decode, BzUnBwt.UnBwt, BzMtf.Decode;
    if ok {
      var vs := BzMtf.Decode(syms, BzMtf.Identity(|list|), 0, 0);
      assert seq(|vs|, i requires 0 <= i < |vs| => list[vs[i]]) == col;
    }
  }

  /** Tables, symbols, inverse transforms: the block's bytes. */
  method TakeBody(r: BitReader, origPtr: nat, list: seq<Byte>, groups: nat, sel: seq<nat>)
      returns (o: Outcome<seq<Byte>>)
    requires r.Valid() && |list| <= 256 && forall i :: 0 <= i < |sel| ==> sel[i] < groups
    modifies r
    ensures r.Valid() && o != Err
    ensures match ReadPayload(BytesToBits(r.d), old(r.p), groups, sel, |list| + 2)
      case Err => true
      case Undefined => o == Undefined
      case Ok(syms) => o == Expand(syms.value, list, origPtr) && (o.Ok? ==> r.p == syms.pos)
  {
    hide BytesToBits, ReadTables, ReadSyms, Expand, LengthsUsable, Column, ColumnRead;
    if list == [] {
      EmptyAlphabet(BytesToBits(r.d), r.p, groups, sel, origPtr);
      return Undefined;
    }
    var ok, ts, mxs, lens := TakeTables(r, groups, |list| + 2);
    if !ok { return Undefined; }
    var tt := new nat[BzUnBwt.TT_SIZE];
    var cftab := new nat[257](_ => 0);
    EmptyColumn(tt[..], cftab[..]);
    ghost var syms := ReadSyms(BytesToBits(r.d), r.p, lens, sel, 0, |list| + 1);
    var read, nblock, col := SymbolLoop(r, ts, mxs, sel, list, tt, cftab, lens);
    if syms.Some? { ExpandColumn(syms.value.value, list, origPtr, read, r.p, syms.value.pos, col); }
    NoColumn(syms, list, read, r.p, col);
    if !read || origPtr >= nblock { return Undefined; }
    var blk := FinishBlock(tt, cftab, nblock, origPtr, col);
    return Ok(blk);
  }

  lemma {:induction false} NoColumn(syms: Option<Got<seq<nat>>>, list: seq<Byte>, ok: bool, pos: nat, col: seq<Byte>)
    requires list != [] && (syms.Some? ==> BzMtf.InRange(syms.value.value, |list|))
    requires ColumnRead(syms, list, BzUnBwt.TT_SIZE, ok, pos, col)
    ensures syms == None ==> !ok
  {
  }

  lemma {:induction false} EmptyColumn(tt: seq<nat>, cftab: seq<nat>)
    requires |cftab| == 257 && forall b :: 0 <= b < 257 ==> cftab[b] == 0
    ensures Column(tt, cftab, [])
  {
  }

  lemma {:induction false} EmptyAlphabet(d: seq<Bit>, q: nat, groups: nat, sel: seq<nat>, origPtr: nat)
    requires forall i :: 0 <= i < |sel| ==> sel[i] < groups
    ensures match ReadPayload(d, q, groups, sel, 2)
      case Ok(syms) => Expand(syms.value, [], origPtr) == Undefined
      case _ => true
  {
    hide ReadPayload;
  }

  /** `decode_block` does to an arbitrary stream exactly what `DecodeBlock` says. */
  method TakeBlock(r: BitReader, tab: array<Word>) returns (o: Outcome<seq<Byte>>)
    requires r.Valid() && IsTable(tab)
    modifies r
    ensures r.Valid()
    ensures match DecodeBlock(BytesToBits(r.d), old(r.p))
      case Err => o == Err
      case Undefined => o == Undefined
      case Ok(got) => o == Ok(got.value) && r.p == got.pos
  {
    hide BytesToBits, ReadHead, ReadPayload, Expand, SymbolList, CrcBitwise, Xor;
    ghost var D, p := BytesToBits(r.d), r.p;
    var blockcrc := r.Get(32);
    var h, head := TakeHead(r);
    if h == Err { return Err; }
    if h == Undefined { return Undefined; }
    var (origPtr, list, groups, sel) := h.value;
    ghost var payload := ReadPayload(D, r.p, groups, sel, |list| + 2);
    PayloadNeverRefuses(D, r.p, groups, sel, |list| + 2);
    var body := TakeBody(r, origPtr, list, groups, sel);
    if body == Undefined { return Undefined; }
    var blk := body.value;
    var crc := CrcUpdate(tab, ONES, blk);
    if FromBits(Xor(crc, ONES)) != blockcrc { return Err; }
    return Ok(blk);
  }

  lemma {:induction false} PayloadNeverRefuses(d: seq<Bit>, q: nat, groups: nat, sel: seq<nat>, alpha: nat)
    requires alpha >= 2 && forall i :: 0 <= i < |sel| ==> sel[i] < groups
    ensures ReadPayload(d, q, groups, sel, alpha) != Err
  {
  }

  /** `out` put out so far, then the rest of the stream. */
  function OutThen(out: seq<Byte>, rest: Outcome<seq<Byte>>): Outcome<seq<Byte>>
  {
    match rest
    case Ok(more) => Ok(out + more)
    case Err => Err
    case Undefined => Undefined
  }

  lemma {:induction false} StreamUnfold(d: seq<Bit>, p: nat, out: seq<Byte>)
    ensures var hi, lo := ReadBits(d, p, 24), ReadBits(d, p + 24, 24);
      OutThen(out, DecodeStream(d, p)) ==
        if hi == BLOCK_HI && lo == BLOCK_LO then
          match DecodeBlock(d, p + 48)
          case Err => Err
          case Undefined => Undefined
          case Ok(blk) => OutThen(out + blk.value, DecodeStream(d, blk.pos))
        else if hi == END_HI && lo == END_LO then Ok(out)
        else Err
  {
    hide ReadBits, DecodeBlock;
    var hi, lo := ReadBits(d, p, 24), ReadBits(d, p + 24, 24);
    if hi == BLOCK_HI && lo == BLOCK_LO {
      if DecodeBlock(d, p + 48).Ok? {
        var blk := DecodeBlock(d, p + 48).value;
        var rest := DecodeStream(d, blk.pos);
        if rest.Ok? { Assoc(out, blk.value, rest.value); }
      }
    } else {
      assert out + [] == out;
    }
  }

  /** `decompress`. */
  method Decompress(data: seq<Byte>) returns (o: Outcome<seq<Byte>>)
    ensures o == Decompressed(data)
  {
    hide BytesToBits, ReadBits, DecodeBlock, DecodeStream;
    if |data| < 4 || data[0] != 0x42 || data[1] != 0x5a || data[2] != 0x68 { return Err; }
    var tab := CrcInit();
    var r := new BitReader(data, 4);
    ghost var D := BytesToBits(data);
    var out: seq<Byte> := [];
    ghost var want := DecodeStream(D, 32);
    assert OutThen([], want) == want by { if want.Ok? { EmptyLeft(want.value); } }
    while true
      invariant r.Valid() && r.d == data && IsTable(tab)
      invariant want == OutThen(out, DecodeStream(D, r.p))
      decreases |D| - r.p
    {
      StreamUnfold(D, r.p, out);
      ghost var p := r.p;
      var hi := r.Get(24);
      var lo := r.Get(24);
      if hi == BLOCK_HI && lo == BLOCK_LO {
        NonZeroIsInside(D, p, 24);
        var blk := TakeBlock(r, tab);
        if blk == Err { return Err; }
        if blk == Undefined { return Undefined; }
        out := out + blk.value;
      } else if hi == END_HI && lo == END_LO {
        var sum := r.Get(32);
        return Ok(out);
      } else {
        return Err;
      }
    }
  }
}
