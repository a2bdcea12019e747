/** The fields of a bzip2 block: symbol map, selectors, delta-coded lengths, and coded symbols. Each
    comes as the bits the compressor writes and as the reading the decompressor performs. */
module BzFormat {
  import opened Options
  import opened Bits
  import opened Seqs
  import opened BzBitIO
  import opened BzHuffman
  import opened BzMtf

  /** A value read from the stream, and the position after it. */
  datatype Got<T> = Got(value: T, pos: nat)

  // -------------------------------------------------------------------- symbol map

  function BoolBits(fs: seq<bool>): (bs: seq<Bit>)
    ensures |bs| == |fs| && forall i :: 0 <= i < |fs| ==> bs[i] == if fs[i] then 1 else 0
  {
    seq(|fs|, i requires 0 <= i < |fs| => if fs[i] then 1 else 0)
  }

  function Group(flags: seq<bool>, i: nat): (g: seq<bool>)
    requires |flags| == 256 && i < 16
    ensures |g| == 16
  {
    flags[16 * i..16 * i + 16]
  }

  /** Group `i` has a symbol in use. */
  function Any(flags: seq<bool>, i: nat): bool
    requires |flags| == 256 && i < 16
  {
    true in Group(flags, i)
  }

  function GroupBits(flags: seq<bool>): (bs: seq<Bit>)
    requires |flags| == 256
    ensures |bs| == 16 && forall i :: 0 <= i < 16 ==> bs[i] == if Any(flags, i) then 1 else 0
  {
    seq(16, i requires 0 <= i < 16 => if Any(flags, i) then 1 else 0)
  }

  /** The 16-bit masks of the groups from `i` on that have a symbol in use. */
  function MasksFrom(flags: seq<bool>, i: nat): seq<Bit>
    requires |flags| == 256 && i <= 16
    decreases 16 - i
  {
    if i == 16 then []
    else (if Any(flags, i) then BoolBits(Group(flags, i)) else []) + MasksFrom(flags, i + 1)
  }

  function MapBits(flags: seq<bool>): seq<Bit>
    requires |flags| == 256
  {
    GroupBits(flags) + MasksFrom(flags, 0)
  }

  function ReadMask(d: seq<Bit>, q: nat): (g: seq<bool>)
    ensures |g| == 16
  {
    seq(16, i requires 0 <= i => BitAt(d, q + i) == 1)
  }

  function Falses(n: nat): (g: seq<bool>)
    ensures |g| == n
  {
    seq(n, _ => false)
  }

  /** Flags of the groups from `i` on; `p` is where the 16 group bits are, `q` the next mask. */
  function ReadFlagsFrom(d: seq<Bit>, p: nat, i: nat, q: nat): (r: Got<seq<bool>>)
    requires i <= 16
    ensures |r.value| == 16 * (16 - i)
    ensures r.pos >= q
    decreases 16 - i
  {
    if i == 16 then Got([], q)
    else if BitAt(d, p + i) == 1 then
      var rest := ReadFlagsFrom(d, p, i + 1, q + 16);
      Got(ReadMask(d, q) + rest.value, rest.pos)
    else
      var rest := ReadFlagsFrom(d, p, i + 1, q);
      Got(Falses(16) + rest.value, rest.pos)
  }

  function ReadFlags(d: seq<Bit>, p: nat): (r: Got<seq<bool>>)
    ensures |r.value| == 256
    ensures r.pos >= p + 16
  {
    ReadFlagsFrom(d, p, 0, p + 16)
  }

  lemma {:induction false} MaskReadBack(d: seq<Bit>, q: nat, g: seq<bool>)
    requires |g| == 16 && At(d, q, BoolBits(g))
    ensures ReadMask(d, q) == g
  {
    forall i | 0 <= i < 16 ensures ReadMask(d, q)[i] == g[i] {
      AtIndex(d, q, BoolBits(g), i);
    }
  }

  lemma {:induction false} EmptyGroup(flags: seq<bool>, i: nat)
    requires |flags| == 256 && i < 16 && !Any(flags, i)
    ensures Group(flags, i) == Falses(16)
  {
    forall j | 0 <= j < 16 ensures !Group(flags, i)[j] {
      assert Group(flags, i)[j] in Group(flags, i);
    }
  }

  lemma {:induction false} FlagsFromReadBack(d: seq<Bit>, p: nat, flags: seq<bool>, i: nat, q: nat)
    requires |flags| == 256 && i <= 16
    requires At(d, p, GroupBits(flags)) && At(d, q, MasksFrom(flags, i))
    ensures ReadFlagsFrom(d, p, i, q) == Got(flags[16 * i..], q + |MasksFrom(flags, i)|)
    decreases 16 - i
  {
    hide At, GroupBits, ReadMask;
    if i < 16 {
      var here := if Any(flags, i) then BoolBits(Group(flags, i)) else [];
      AtSplit(d, q, here, MasksFrom(flags, i + 1));
      FlagsFromReadBack(d, p, flags, i + 1, q + |here|);
      GroupReadBack(d, p, flags, i, q);
      assert flags[16 * i..] == Group(flags, i) + flags[16 * (i + 1)..];
    } else {
      assert flags[256..] == [];
    }
  }

  /** One group of sixteen: its group bit tells whether a mask follows. */
  lemma {:induction false} GroupReadBack(d: seq<Bit>, p: nat, flags: seq<bool>, i: nat, q: nat)
    requires |flags| == 256 && i < 16 && At(d, p, GroupBits(flags))
    requires Any(flags, i) ==> At(d, q, BoolBits(Group(flags, i)))
    ensures BitAt(d, p + i) == 1 <==> Any(flags, i)
    ensures Group(flags, i) == if Any(flags, i) then ReadMask(d, q) else Falses(16)
  {
    AtIndex(d, p, GroupBits(flags), i);
    if Any(flags, i) {
      MaskReadBack(d, q, Group(flags, i));
    } else {
      EmptyGroup(flags, i);
    }
  }

  /** The symbol map is read back. */
  lemma {:induction false} FlagsReadBack(d: seq<Bit>, p: nat, flags: seq<bool>)
    requires |flags| == 256 && At(d, p, MapBits(flags))
    ensures ReadFlags(d, p) == Got(flags, p + |MapBits(flags)|)
  {
    AtSplit(d, p, GroupBits(flags), MasksFrom(flags, 0));
    FlagsFromReadBack(d, p, flags, 0, p + 16);
    assert flags[0..] == flags;
  }

  /** The symbols in use, ascending. */
  function SymbolList(flags: seq<bool>): (l: seq<Byte>)
    requires |flags| <= 256
    ensures |l| <= |flags|
    ensures forall b :: b in l <==> 0 <= b < |flags| && flags[b]
  {
    if flags == [] then []
    else
      var n := |flags| - 1;
      SymbolList(flags[..n]) + if flags[n] then [n] else []
  }

  // --------------------------------------------------------------------- selectors

  /** A count in unary: ones up to the first zero. */
  function ReadUnary(d: seq<Bit>, q: nat): (r: Got<nat>)
    ensures r.pos > q
    decreases |d| - q
  {
    if BitAt(d, q) == 0 then Got(0, q + 1)
    else
      var rest := ReadUnary(d, q + 1);
      Got(rest.value + 1, rest.pos)
  }

  /** `n` selectors, each kept in an unsigned char. */
  function ReadSelectors(d: seq<Bit>, q: nat, n: nat): (r: Got<seq<nat>>)
    ensures |r.value| == n
    ensures r.pos >= q
    decreases n
  {
    if n == 0 then Got([], q)
    else
      var one := ReadUnary(d, q);
      var rest := ReadSelectors(d, one.pos, n - 1);
      Got([one.value % 256] + rest.value, rest.pos)
  }

  /** Selector move-to-front; None when a selector points outside the group list. */
  function UnMtf(sel: seq<nat>, pos: seq<nat>): (r: Option<seq<nat>>)
    ensures r.Some? ==> |r.value| == |sel|
    decreases |sel|
  {
    if sel == [] then Some([])
    else if sel[0] >= |pos| then None
    else
      match UnMtf(sel[1..], MoveToFront(pos, sel[0]))
      case None => None
      case Some(rest) => Some([pos[sel[0]]] + rest)
  }

  function ZeroNats(n: nat): (z: seq<nat>)
    ensures |z| == n
  {
    seq(n, _ => 0)
  }

  lemma {:induction false} SelectorsReadBack(d: seq<Bit>, q: nat, n: nat)
    requires At(d, q, Zeros(n))
    ensures ReadSelectors(d, q, n) == Got(ZeroNats(n), q + n)
    decreases n
  {
    if n > 0 {
      assert Zeros(n) == [0] + Zeros(n - 1);
      AtSplit(d, q, [0], Zeros(n - 1));
      AtIndex(d, q, [0], 0);
      SelectorsReadBack(d, q + 1, n - 1);
      assert ZeroNats(n) == [0] + ZeroNats(n - 1);
    }
  }

  lemma {:induction false} UnMtfZeros(n: nat, pos: seq<nat>)
    requires pos != [] && pos[0] == 0
    ensures UnMtf(ZeroNats(n), pos) == Some(ZeroNats(n))
    decreases n
  {
    if n > 0 {
      assert ZeroNats(n)[1..] == ZeroNats(n - 1);
      UnMtfZeros(n - 1, MoveToFront(pos, 0));
      assert ZeroNats(n) == [0] + ZeroNats(n - 1);
    }
  }

  // ------------------------------------------------------------------ code lengths

  /** Step from `c` to `t`: "10" up, "11" down, "0" to stop. */
  function DeltaBits(c: int, t: int): (bs: seq<Bit>)
    decreases if c < t then t - c else c - t
  {
    if c < t then [1, 0] + DeltaBits(c + 1, t)
    else if c > t then [1, 1] + DeltaBits(c - 1, t)
    else [0]
  }

  function LengthBits(lens: seq<Byte>, c: int): seq<Bit>
    decreases |lens|
  {
    if lens == [] then [] else DeltaBits(c, lens[0]) + LengthBits(lens[1..], lens[0])
  }

  /** One table of code lengths. */
  function TableBits(lens: seq<Byte>): seq<Bit>
    requires lens != []
  {
    ToBits(lens[0], 5) + LengthBits(lens, lens[0])
  }

  function ReadDelta(d: seq<Bit>, q: nat, c: int): (r: Got<int>)
    ensures r.pos > q
    decreases |d| - q
  {
    if BitAt(d, q) == 0 then Got(c, q + 1)
    else if BitAt(d, q + 1) == 1 then ReadDelta(d, q + 2, c - 1)
    else ReadDelta(d, q + 2, c + 1)
  }

  /** `n` lengths; each is stored in an unsigned char, the running value is not. */
  function ReadLengths(d: seq<Bit>, q: nat, c: int, n: nat): (r: Got<seq<Byte>>)
    ensures |r.value| == n
    ensures r.pos >= q
    decreases n
  {
    if n == 0 then Got([], q)
    else
      var one := ReadDelta(d, q, c);
      var rest := ReadLengths(d, one.pos, one.value, n - 1);
      Got([one.value % 256] + rest.value, rest.pos)
  }

  function ReadTable(d: seq<Bit>, q: nat, n: nat): (r: Got<seq<Byte>>)
    ensures |r.value| == n
    ensures r.pos >= q
  {
    ReadLengths(d, q + 5, ReadBits(d, q, 5), n)
  }

  function ReadTables(d: seq<Bit>, q: nat, groups: nat, n: nat): (r: Got<seq<seq<Byte>>>)
    ensures |r.value| == groups
    ensures forall g :: 0 <= g < groups ==> |r.value[g]| == n
    ensures r.pos >= q
    decreases groups
  {
    if groups == 0 then Got([], q)
    else
      var one := ReadTable(d, q, n);
      var rest := ReadTables(d, one.pos, groups - 1, n);
      Got([one.value] + rest.value, rest.pos)
  }

  lemma {:induction false} DeltaReadBack(d: seq<Bit>, q: nat, c: int, t: int)
    requires At(d, q, DeltaBits(c, t))
    ensures ReadDelta(d, q, c) == Got(t, q + |DeltaBits(c, t)|)
    decreases if c < t then t - c else c - t
  {
    if c == t {
      AtIndex(d, q, DeltaBits(c, t), 0);
    } else if c < t {
      DeltaStep(d, q, [1, 0], DeltaBits(c + 1, t));
      DeltaReadBack(d, q + 2, c + 1, t);
    } else {
      DeltaStep(d, q, [1, 1], DeltaBits(c - 1, t));
      DeltaReadBack(d, q + 2, c - 1, t);
    }
  }

  lemma {:induction false} DeltaStep(d: seq<Bit>, q: nat, step: seq<Bit>, rest: seq<Bit>)
    requires |step| == 2 && At(d, q, step + rest)
    ensures BitAt(d, q) == step[0] && BitAt(d, q + 1) == step[1] && At(d, q + 2, rest)
  {
    AtSplit(d, q, step, rest);
    AtIndex(d, q, step, 0);
    AtIndex(d, q, step, 1);
  }

  lemma {:induction false} ReadLengthsStep(d: seq<Bit>, q: nat, c: int, t: Byte, q1: nat, rest: seq<Byte>, q2: nat)
    requires ReadDelta(d, q, c) == Got(t, q1) && ReadLengths(d, q1, t, |rest|) == Got(rest, q2)
    ensures ReadLengths(d, q, c, |rest| + 1) == Got([t] + rest, q2)
  {
  }

  lemma {:induction false} LengthsReadBack(d: seq<Bit>, q: nat, lens: seq<Byte>, c: int)
    requires At(d, q, LengthBits(lens, c))
    ensures ReadLengths(d, q, c, |lens|) == Got(lens, q + |LengthBits(lens, c)|)
    decreases |lens|
  {
    hide ReadDelta, DeltaBits, At;
    if lens != [] {
      var t, rest := lens[0], lens[1..];
      var here, there := DeltaBits(c, t), LengthBits(rest, t);
      AtSplit(d, q, here, there);
      DeltaReadBack(d, q, c, t);
      LengthsReadBack(d, q + |here|, rest, t);
      ReadLengthsStep(d, q, c, t, q + |here|, rest, q + |here| + |there|);
      ConsSlice(lens, 0);
    }
  }

  lemma {:induction false} TableReadBack(d: seq<Bit>, q: nat, lens: seq<Byte>)
    requires lens != [] && lens[0] < 32 && At(d, q, TableBits(lens))
    ensures ReadTable(d, q, |lens|) == Got(lens, q + |TableBits(lens)|)
  {
    AtSplit(d, q, ToBits(lens[0], 5), LengthBits(lens, lens[0]));
    assert Pow2(5) == 32;
    ReadBack(d, q, lens[0], 5);
    LengthsReadBack(d, q + 5, lens, lens[0]);
  }

  lemma {:induction false} ReadTablesStep(d: seq<Bit>, q: nat, t: seq<Byte>, q1: nat, rest: seq<seq<Byte>>, q2: nat)
    requires ReadTable(d, q, |t|) == Got(t, q1) && ReadTables(d, q1, |rest|, |t|) == Got(rest, q2)
    ensures ReadTables(d, q, |rest| + 1, |t|) == Got([t] + rest, q2)
  {
  }

  lemma {:induction false} TwoTables(d: seq<Bit>, q: nat, lens: seq<Byte>, q1: nat, q2: nat)
    requires ReadTable(d, q, |lens|) == Got(lens, q1) && ReadTable(d, q1, |lens|) == Got(lens, q2)
    ensures ReadTables(d, q, 2, |lens|) == Got([lens, lens], q2)
  {
    ReadTablesStep(d, q1, lens, q2, [], q2);
    assert [lens] + [] == [lens];
    ReadTablesStep(d, q, lens, q1, [lens], q2);
    assert [lens] + [lens] == [lens, lens];
  }

  /** The two identical tables are read back. */
  lemma {:induction false} TwoTablesReadBack(d: seq<Bit>, q: nat, lens: seq<Byte>)
    requires lens != [] && lens[0] < 32 && At(d, q, TableBits(lens) + TableBits(lens))
    ensures ReadTables(d, q, 2, |lens|) == Got([lens, lens], q + 2 * |TableBits(lens)|)
  {
    var n := |TableBits(lens)|;
    AtSplit(d, q, TableBits(lens), TableBits(lens));
    TableReadBack(d, q, lens);
    TableReadBack(d, q + n, lens);
    TwoTables(d, q, lens, q + n, q + n + n);
  }

  // ----------------------------------------------------------------------- symbols

  function SymBits(syms: seq<nat>, lens: seq<Byte>): seq<Bit>
    requires forall i :: 0 <= i < |syms| ==> syms[i] < |lens|
    decreases |syms|
  {
    if syms == [] then [] else CodeWord(lens, syms[0]) + SymBits(syms[1..], lens)
  }

  /** The symbols before the end-of-block symbol, `k` having been read: every fifty use the table the
      next selector names. None stands for running out of selectors or out of a table. */
  function ReadSyms(d: seq<Bit>, q: nat, tables: seq<seq<Byte>>, sel: seq<nat>, k: nat, eob: nat)
    : (r: Option<Got<seq<nat>>>)
    requires forall i :: 0 <= i < |sel| ==> sel[i] < |tables|
    requires forall g :: 0 <= g < |tables| ==> |tables[g]| == eob + 1
    ensures r.Some? ==> forall i :: 0 <= i < |r.value.value| ==> r.value.value[i] < eob
    ensures r.Some? ==> r.value.pos >= q
    decreases 50 * |sel| - k
  {
    if k / 50 >= |sel| then None
    else
      match DecodeSym(d, q, tables[sel[k / 50]])
      case None => None
      case Some((sym, q')) =>
        if sym == eob then Some(Got([], q'))
        else
          match ReadSyms(d, q', tables, sel, k + 1, eob)
          case None => None
          case Some(rest) => Some(Got([sym] + rest.value, rest.pos))
  }

  /** Reading with the same table in both groups and every selector zero, as `compress_block` writes. */
  function ReadPlain(d: seq<Bit>, q: nat, lens: seq<Byte>, nSel: nat, k: nat): (r: Option<Got<seq<nat>>>)
    requires lens != []
  {
    ReadSyms(d, q, [lens, lens], ZeroNats(nSel), k, |lens| - 1)
  }

  lemma {:induction false} PlainEnd(d: seq<Bit>, q: nat, lens: seq<Byte>, nSel: nat, k: nat, q1: nat)
    requires lens != [] && k < 50 * nSel
    requires DecodeSym(d, q, lens) == Some((|lens| - 1, q1))
    ensures ReadPlain(d, q, lens, nSel, k) == Some(Got([], q1))
  {
    assert [lens, lens][ZeroNats(nSel)[k / 50]] == lens;
  }

  lemma {:induction false} PlainStep(d: seq<Bit>, q: nat, lens: seq<Byte>, nSel: nat, k: nat,
                                     sym: nat, q1: nat, rest: seq<nat>, q2: nat)
    requires lens != [] && k < 50 * nSel
    requires DecodeSym(d, q, lens) == Some((sym, q1)) && sym < |lens| - 1
    requires ReadPlain(d, q1, lens, nSel, k + 1) == Some(Got(rest, q2))
    ensures ReadPlain(d, q, lens, nSel, k) == Some(Got([sym] + rest, q2))
  {
    assert [lens, lens][ZeroNats(nSel)[k / 50]] == lens;
  }

  /** A symbol stream of a block: symbols below `eob`, then `eob` itself. */
  ghost predicate Closed(all: seq<nat>, eob: nat)
  {
    && all != [] && all[|all| - 1] == eob
    && forall i :: 0 <= i < |all| - 1 ==> all[i] < eob
  }

  lemma {:induction false} ClosedTail(all: seq<nat>, eob: nat)
    requires Closed(all, eob) && |all| > 1
    ensures Closed(all[1..], eob)
    ensures all[..|all| - 1] == [all[0]] + all[1..][..|all| - 2]
  {
  }

  /** Every symbol that occurs in the stream has a code that fits its length. */
  ghost predicate UsedCodesFit(all: seq<nat>, lens: seq<Byte>)
    decreases |all|
  {
    all == [] || (all[0] < |lens| && Code(lens, all[0]) < Pow2(lens[all[0]]) && UsedCodesFit(all[1..], lens))
  }

  lemma {:induction false} UsedFits(all: seq<nat>, lens: seq<Byte>, i: nat)
    requires UsedCodesFit(all, lens) && i < |all|
    ensures all[i] < |lens| && Code(lens, all[i]) < Pow2(lens[all[i]])
    decreases |all|
  {
    if i > 0 { UsedFits(all[1..], lens, i - 1); }
  }

  lemma {:induction false} AllFitUsedFit(all: seq<nat>, lens: seq<Byte>)
    requires CodesFit(lens) && forall i :: 0 <= i < |all| ==> all[i] < |lens|
    ensures UsedCodesFit(all, lens)
    decreases |all|
  {
    if all != [] { AllFitUsedFit(all[1..], lens); }
  }

  /** Decoding from `q` gives the symbols `all` one after the other and ends at `end`. */
  ghost predicate Decodes(d: seq<Bit>, q: nat, lens: seq<Byte>, all: seq<nat>, end: nat)
    decreases |all|
  {
    if all == [] then q == end
    else
      && all[0] < |lens|
      && DecodeSym(d, q, lens) == Some((all[0], q + lens[all[0]]))
      && Decodes(d, q + lens[all[0]], lens, all[1..], end)
  }

  /** A written symbol stream decodes to itself exactly when every code it uses fits. */
  lemma {:induction false} WordsDecode(d: seq<Bit>, q: nat, lens: seq<Byte>, all: seq<nat>)
    requires forall i :: 0 <= i < |all| ==> all[i] < |lens|
    requires At(d, q, SymBits(all, lens))
    ensures Decodes(d, q, lens, all, q + |SymBits(all, lens)|) <==> UsedCodesFit(all, lens)
    decreases |all|
  {
    hide DecodeSym, CodeWord, Code, Pow2, At;
    if all != [] {
      var s, tail := all[0], all[1..];
      var rest := SymBits(tail, lens);
      AtSplit(d, q, CodeWord(lens, s), rest);
      WordDecodes(d, q, lens, s);
      WordsDecode(d, q + lens[s], lens, tail);
      DecodesUnfold(d, q, lens, all, q + lens[s] + |rest|);
    }
  }

  lemma {:induction false} DecodesUnfold(d: seq<Bit>, q: nat, lens: seq<Byte>, all: seq<nat>, end: nat)
    requires all != [] && all[0] < |lens|
    ensures Decodes(d, q, lens, all, end) <==>
      && DecodeSym(d, q, lens) == Some((all[0], q + lens[all[0]]))
      && Decodes(d, q + lens[all[0]], lens, all[1..], end)
  {
  }

  lemma {:induction false} DecodedAreRead(d: seq<Bit>, q: nat, lens: seq<Byte>, nSel: nat, all: seq<nat>, k: nat,
      end: nat)
    requires lens != [] && Closed(all, |lens| - 1) && k + |all| <= 50 * nSel
    requires Decodes(d, q, lens, all, end)
    ensures ReadPlain(d, q, lens, nSel, k) == Some(Got(all[..|all| - 1], end))
    decreases |all|
  {
    var q1 := q + lens[all[0]];
    if |all| == 1 {
      assert all[..0] == [];
      PlainEnd(d, q, lens, nSel, k, q1);
    } else {
      ClosedTail(all, |lens| - 1);
      DecodedAreRead(d, q1, lens, nSel, all[1..], k + 1, end);
      PlainStep(d, q, lens, nSel, k, all[0], q1, all[1..][..|all| - 2], end);
    }
  }

  /** The coded symbols, closed by the end-of-block symbol, are read back when every code used fits. */
  lemma {:induction false} SymsReadBack(d: seq<Bit>, q: nat, lens: seq<Byte>, nSel: nat, all: seq<nat>)
    requires lens != [] && Closed(all, |lens| - 1) && UsedCodesFit(all, lens)
    requires |all| <= 50 * nSel
    requires At(d, q, SymBits(all, lens))
    ensures ReadPlain(d, q, lens, nSel, 0) == Some(Got(all[..|all| - 1], q + |SymBits(all, lens)|))
  {
    WordsDecode(d, q, lens, all);
    DecodedAreRead(d, q, lens, nSel, all, 0, q + |SymBits(all, lens)|);
  }

  /** The bits the symbols' codes are long. */
  function CodeLength(all: seq<nat>, lens: seq<Byte>): nat
    requires forall i :: 0 <= i < |all| ==> all[i] < |lens|
  {
    if all == [] then 0 else
      var l: int := lens[all[0]];
      l + CodeLength(all[1..], lens)
  }

  lemma {:induction false} SymBitsLength(all: seq<nat>, lens: seq<Byte>)
    requires forall i :: 0 <= i < |all| ==> all[i] < |lens|
    ensures |SymBits(all, lens)| == CodeLength(all, lens)
    decreases |all|
  {
    hide CodeWord;
    if all != [] { SymBitsLength(all[1..], lens); }
  }

  /** Reading that ends in the symbols `all` has used at least their lengths, and if it has used
      no more, each of them was decoded from just its own bits. */
  lemma {:induction false} ReadAreDecoded(d: seq<Bit>, q: nat, lens: seq<Byte>, nSel: nat, all: seq<nat>, k: nat,
      end: nat)
    requires lens != [] && Closed(all, |lens| - 1) && k + |all| <= 50 * nSel
    requires ReadPlain(d, q, lens, nSel, k) == Some(Got(all[..|all| - 1], end))
    ensures end >= q + CodeLength(all, lens)
    ensures end == q + CodeLength(all, lens) ==> Decodes(d, q, lens, all, end)
    decreases |all|
  {
    hide DecodeSym;
    assert [lens, lens][ZeroNats(nSel)[k / 50]] == lens;
    DecodeAtLeast(d, q, lens);
    var r := DecodeSym(d, q, lens);
    var q1 := r.value.1;
    if r.value.0 == |lens| - 1 {
      assert all[..|all| - 1] == [];
      assert all[1..] == [];
    } else {
      ClosedTail(all, |lens| - 1);
      var rest := ReadPlain(d, q1, lens, nSel, k + 1).value;
      assert [r.value.0] + rest.value == [all[0]] + all[1..][..|all| - 2];
      assert r.value.0 == ([r.value.0] + rest.value)[0] == all[0];
      assert rest.value == ([r.value.0] + rest.value)[1..] == all[1..][..|all| - 2];
      ReadAreDecoded(d, q1, lens, nSel, all[1..], k + 1, end);
    }
  }

  /** The coded symbols are read back, up to where they were written, if and only if every code
      used fits. */
  lemma {:induction false} SymsReadBackIff(d: seq<Bit>, q: nat, lens: seq<Byte>, nSel: nat, all: seq<nat>)
    requires lens != [] && Closed(all, |lens| - 1) && |all| <= 50 * nSel
    requires At(d, q, SymBits(all, lens))
    ensures ReadPlain(d, q, lens, nSel, 0) == Some(Got(all[..|all| - 1], q + |SymBits(all, lens)|)) <==>
        UsedCodesFit(all, lens)
  {
    hide ReadPlain, SymBits, UsedCodesFit, Decodes, At;
    WordsDecode(d, q, lens, all);
    SymBitsLength(all, lens);
    if UsedCodesFit(all, lens) { SymsReadBack(d, q, lens, nSel, all); }
    if ReadPlain(d, q, lens, nSel, 0) == Some(Got(all[..|all| - 1], q + |SymBits(all, lens)|)) {
      ReadAreDecoded(d, q, lens, nSel, all, 0, q + |SymBits(all, lens)|);
    }
  }
}
