/** The loops of `compress_block` and `compress`, against the bits the format asks for. */
module BzEncoder {
  import opened Bits
  import opened Seqs
  import opened BzBitIO
  import opened BzCrc
  import opened BzHuffman
  import opened BzFormat
  import opened BzLengths
  import opened BzBlock
  import opened Bzip2
  import BzRle1
  import BzBwt
  import BzMtf
  import BzMkLengths
  import BzTables

  // ---------------------------------------------------------------- before writing

  /** `used[]`. */
  method UsedMap(l: seq<Byte>) returns (flags: seq<bool>)
    ensures flags == FlagsOf(l)
  {
    flags := seq(256, _ => false);
    var i := 0;
    while i < |l|
      invariant 0 <= i <= |l| && |flags| == 256
      invariant forall b :: 0 <= b < 256 ==> flags[b] == (b in l[..i])
    {
      SnocSlice(l, i);
      flags := flags[l[i] := true];
      i := i + 1;
    }
    assert l[..i] == l;
  }

  /** `seq[]`: the bytes in use, ascending. */
  method ListUsed(flags: seq<bool>) returns (list: seq<Byte>)
    requires |flags| == 256
    ensures list == SymbolList(flags)
  {
    list := [];
    var b := 0;
    while b < 256
      invariant 0 <= b <= 256 && list == SymbolList(flags[..b])
    {
      assert flags[..b + 1][..b] == flags[..b];
      if flags[b] { list := list + [b]; }
      b := b + 1;
    }
    assert flags[..b] == flags;
  }

  lemma {:induction false} ListAscends(flags: seq<bool>)
    requires |flags| <= 256
    ensures forall i, j :: 0 <= i < j < |SymbolList(flags)| ==> SymbolList(flags)[i] < SymbolList(flags)[j]
  {
    if flags != [] {
      var n := |flags| - 1;
      ListAscends(flags[..n]);
      var rest := SymbolList(flags[..n]);
      forall i | 0 <= i < |rest| ensures rest[i] < n { assert rest[i] in rest; }
    }
  }

  /** `unseq[L[i]]` for the whole column. */
  method ColumnIndices(l: seq<Byte>, list: seq<Byte>) returns (vs: seq<nat>)
    requires list == SymbolList(FlagsOf(l))
    ensures forall i :: 0 <= i < |l| ==> l[i] in list
    ensures vs == Indices(l, list)
  {
    ColumnListed(l);
    ListAscends(FlagsOf(l));
    var unseq: seq<nat> := seq(256, _ => 0);
    var k := 0;
    while k < |list|
      invariant 0 <= k <= |list| && |unseq| == 256
      invariant forall j :: 0 <= j < k ==> unseq[list[j]] == j
    {
      unseq := unseq[list[k] := k];
      k := k + 1;
    }
    vs := [];
    var i := 0;
    while i < |l|
      invariant 0 <= i <= |l| && |vs| == i
      invariant forall j :: 0 <= j < i ==> vs[j] == BzMtf.Find(list, l[j])
    {
      var at := BzMtf.Find(list, l[i]);
      assert unseq[list[at]] == at;
      vs := vs + [unseq[l[i]]];
      i := i + 1;
    }
  }

  lemma {:induction false} CountSymStep(syms: seq<nat>, i: nat, s: nat)
    requires i < |syms|
    ensures CountSym(syms[..i + 1], s) == CountSym(syms[..i], s) + if syms[i] == s then 1 else 0
  {
    assert syms[..i + 1][..i] == syms[..i];
  }

  /** `freq[sym[i]]++`. */
  method CountFrequencies(syms: seq<nat>, alpha: nat) returns (freq: seq<nat>)
    requires forall i :: 0 <= i < |syms| ==> syms[i] < alpha
    ensures freq == Frequencies(syms, alpha)
  {
    freq := seq(alpha, _ => 0);
    var i := 0;
    while i < |syms|
      invariant 0 <= i <= |syms| && |freq| == alpha
      invariant forall s :: 0 <= s < alpha ==> freq[s] == CountSym(syms[..i], s)
    {
      forall s | 0 <= s < alpha
        ensures CountSym(syms[..i + 1], s) == CountSym(syms[..i], s) + if syms[i] == s then 1 else 0
      {
        CountSymStep(syms, i, s);
      }
      freq := freq[syms[i] := freq[syms[i]] + 1];
      i := i + 1;
    }
    assert syms[..i] == syms;
  }

  /** Everything up to the code lengths. */
  method MakePlan(raw: seq<Byte>) returns (plan: Plan)
    requires 0 < |raw| <= MAX_RAW
    ensures plan == PlanOf(raw)
  {
    hide BzRle1.Encode, BzBwt.Bwt, BzBwt.OrigPtr, BzMtf.Encode, Lengths, SymbolList, FlagsOf, Frequencies, Indices;
    var r1 := BzRle1.Rle1(raw);
    BzRle1.EncodeLength(raw, -1, 0);
    var l, origPtr := BzBwt.Transform(r1);
    var flags := UsedMap(l);
    var list := ListUsed(flags);
    var vs := ColumnIndices(l, list);
    var sym := BzMtf.EncodeColumn(vs, |list|);
    var syms := sym + [|list| + 1];
    assert syms == SymbolsOf(l);
    SymbolsClosed(l);
    var freq := CountFrequencies(syms, |list| + 2);
    assert |list| <= 256;
    var len := BzMkLengths.MkLengths(freq, MAX_LENGTH);
    plan := Plan(l, origPtr, flags, syms, freq, len);
  }

  // ------------------------------------------------------------------------ writing

  lemma {:induction false} AnyInList(flags: seq<bool>, g: nat)
    requires |flags| == 256 && g < 16
    ensures Any(flags, g) <==> exists b :: b in SymbolList(flags) && b / 16 == g
  {
    if Any(flags, g) {
      var j :| 0 <= j < 16 && Group(flags, g)[j];
      assert flags[16 * g + j];
      var b := 16 * g + j;
      assert b in SymbolList(flags) && b / 16 == g;
    }
    if exists b :: b in SymbolList(flags) && b / 16 == g {
      var b :| b in SymbolList(flags) && b / 16 == g;
      assert Group(flags, g)[b - 16 * g] == flags[b];
    }
  }

  /** `in16`, its sixteen bits most significant first: `0x8000 >> k` is bit `k`. */
  method GroupMask(flags: seq<bool>, list: seq<Byte>) returns (in16: seq<Bit>)
    requires |flags| == 256 && list == SymbolList(flags)
    ensures in16 == GroupBits(flags)
  {
    in16 := Zeros(16);
    var i := 0;
    while i < |list|
      invariant 0 <= i <= |list| && |in16| == 16
      invariant forall g :: 0 <= g < 16 ==> (in16[g] == 1 <==> exists k :: 0 <= k < i && list[k] / 16 == g)
    {
      in16 := in16[list[i] / 16 := 1];
      i := i + 1;
    }
    forall g | 0 <= g < 16 ensures in16[g] == GroupBits(flags)[g] {
      AnyInList(flags, g);
      if Any(flags, g) {
        var b :| b in list && b / 16 == g;
        var k :| 0 <= k < |list| && list[k] == b;
        assert list[k] / 16 == g;
      }
      if in16[g] == 1 {
        var k :| 0 <= k < i && list[k] / 16 == g;
        assert list[k] in list;
      }
    }
  }

  /** A 16-bit mask of one group. */
  method OneMask(flags: seq<bool>, i: nat) returns (bits: seq<Bit>)
    requires |flags| == 256 && i < 16
    ensures bits == BoolBits(Group(flags, i))
  {
    bits := Zeros(16);
    var b := 0;
    while b < 16
      invariant 0 <= b <= 16 && |bits| == 16
      invariant forall j :: 0 <= j < b ==> bits[j] == if flags[16 * i + j] then 1 else 0
      invariant forall j :: b <= j < 16 ==> bits[j] == 0
    {
      if flags[i * 16 + b] { bits := bits[b := 1]; }
      b := b + 1;
    }
  }

  /** Writing a bit pattern as the number it denotes. */
  method PutPattern(w: BitWriter, bits: seq<Bit>)
    requires w.Valid()
    modifies w
    ensures w.Valid() && w.Written() == old(w.Written()) + bits
  {
    ToFromBits(bits);
    w.Put(FromBits(bits), |bits|);
  }

  lemma {:induction false} MasksUnfold(flags: seq<bool>, i: nat)
    requires |flags| == 256 && i <= 16
    ensures MasksFrom(flags, i) == if i == 16 then [] else
      (if Any(flags, i) then BoolBits(Group(flags, i)) else []) + MasksFrom(flags, i + 1)
  {
  }

  /** The symbol map. */
  method WriteMap(w: BitWriter, flags: seq<bool>, list: seq<Byte>)
    requires w.Valid() && |flags| == 256 && list == SymbolList(flags)
    modifies w
    ensures w.Valid() && w.Written() == old(w.Written()) + MapBits(flags)
  {
    hide BitWriter.Written, ToBits, SymbolList, Group, BoolBits, GroupBits, Any, FromBits, MasksFrom;
    ghost var before := w.Written();
    var in16 := GroupMask(flags, list);
    PutPattern(w, in16);
    ghost var want := before + in16 + MasksFrom(flags, 0);
    var i := 0;
    while i < 16
      invariant 0 <= i <= 16 && w.Valid()
      invariant w.Written() + MasksFrom(flags, i) == want
    {
      MasksUnfold(flags, i);
      if in16[i] == 1 {
        var bits := OneMask(flags, i);
        Assoc(w.Written(), bits, MasksFrom(flags, i + 1));
        PutPattern(w, bits);
      }
      i := i + 1;
    }
    MasksUnfold(flags, 16);
    Assoc(before, in16, MasksFrom(flags, 0));
  }

  /** Group count, selector count, and one zero bit per selector. */
  method WriteSelectors(w: BitWriter, ns: nat)
    requires w.Valid()
    modifies w
    ensures w.Valid() && w.Written() == old(w.Written()) + SelectorBits(ns)
  {
    hide BitWriter.Written, ToBits;
    ghost var before := w.Written();
    var nSel := (ns + 49) / 50;
    w.Put(2, 3);
    w.Put(nSel, 15);
    ghost var start := before + ToBits(2, 3) + ToBits(nSel, 15);
    var i := 0;
    while i < nSel
      invariant 0 <= i <= nSel && w.Valid()
      invariant w.Written() == start + Zeros(i)
    {
      w.PutBit(0);
      assert Zeros(i + 1) == Zeros(i) + [0];
      Assoc(start, Zeros(i), [0]);
      i := i + 1;
    }
    Assoc(before + ToBits(2, 3), ToBits(nSel, 15), Zeros(nSel));
    Assoc(before, ToBits(2, 3), ToBits(nSel, 15) + Zeros(nSel));
  }

  /** The two inner loops that move `c` to `t`, and the stop bit. */
  method WriteDelta(w: BitWriter, c0: int, t: int)
    requires w.Valid()
    modifies w
    ensures w.Valid() && w.Written() == old(w.Written()) + DeltaBits(c0, t)
  {
    hide BitWriter.Written;
    ghost var want := w.Written() + DeltaBits(c0, t);
    TwoBits();
    var c := c0;
    while c < t
      invariant w.Valid() && w.Written() + DeltaBits(c, t) == want && (c0 <= t ==> c <= t) && (c0 > t ==> c == c0)
    {
      Assoc(w.Written(), [1, 0], DeltaBits(c + 1, t));
      w.Put(2, 2);
      c := c + 1;
    }
    while c > t
      invariant w.Valid() && w.Written() + DeltaBits(c, t) == want && c >= t
    {
      Assoc(w.Written(), [1, 1], DeltaBits(c - 1, t));
      w.Put(3, 2);
      c := c - 1;
    }
    w.PutBit(0);
  }

  lemma {:induction false} TwoBits()
    ensures ToBits(2, 2) == [1, 0] && ToBits(3, 2) == [1, 1]
  {
  }

  /** One table of lengths. */
  method WriteTable(w: BitWriter, len: seq<Byte>)
    requires w.Valid() && len != []
    modifies w
    ensures w.Valid() && w.Written() == old(w.Written()) + TableBits(len)
  {
    hide BitWriter.Written, DeltaBits, ToBits;
    ghost var before := w.Written();
    var c: int := len[0];
    w.Put(len[0], 5);
    ghost var start := before + ToBits(len[0], 5);
    var s := 0;
    assert len[0..] == len;
    while s < |len|
      invariant 0 <= s <= |len| && w.Valid()
      invariant w.Written() + LengthBits(len[s..], c) == start + LengthBits(len, len[0])
    {
      ConsSlice(len, s);
      Assoc(w.Written(), DeltaBits(c, len[s]), LengthBits(len[s + 1..], len[s]));
      WriteDelta(w, c, len[s]);
      c := len[s];
      s := s + 1;
    }
    Assoc(before, ToBits(len[0], 5), LengthBits(len, len[0]));
  }

  /** The code words of the symbols. */
  method WriteSymbols(w: BitWriter, syms: seq<nat>, len: seq<Byte>, code: seq<nat>)
    requires w.Valid() && forall i :: 0 <= i < |syms| ==> syms[i] < |len|
    requires |code| == |len| && forall s :: 0 <= s < |len| ==> code[s] == Code(len, s)
    modifies w
    ensures w.Valid() && w.Written() == old(w.Written()) + SymBits(syms, len)
  {
    hide BitWriter.Written, Code, ToBits;
    ghost var want := w.Written() + SymBits(syms, len);
    var i := 0;
    assert syms[0..] == syms;
    while i < |syms|
      invariant 0 <= i <= |syms| && w.Valid()
      invariant w.Written() + SymBits(syms[i..], len) == want
    {
      ConsSlice(syms, i);
      Assoc(w.Written(), CodeWord(len, syms[i]), SymBits(syms[i + 1..], len));
      w.Put(code[syms[i]], len[syms[i]]);
      i := i + 1;
    }
  }

  /** Both tables and the symbols. */
  method WritePayload(w: BitWriter, syms: seq<nat>, len: seq<Byte>, code: seq<nat>)
    requires w.Valid() && len != [] && Closed(syms, |len| - 1)
    requires |code| == |len| && forall s :: 0 <= s < |len| ==> code[s] == Code(len, s)
    modifies w
    ensures w.Valid() && w.Written() == old(w.Written()) + PayloadBits(syms, len)
  {
    hide BitWriter.Written, Code, TableBits, SymBits;
    ghost var before := w.Written();
    ghost var t := TableBits(len);
    WriteTable(w, len);
    WriteTable(w, len);
    Assoc(before, t, t);
    WriteSymbols(w, syms, len, code);
    Assoc(before, t + t, SymBits(syms, len));
  }

  /** The block without its magic. */
  method WriteBody(w: BitWriter, bcrc: Word, plan: Plan)
    requires w.Valid() && Writable(plan)
    modifies w
    ensures w.Valid() && w.Written() == old(w.Written()) + BodyBits(bcrc, plan)
  {
    hide BitWriter.Written, Code, ToBits, MapBits, SelectorBits, PayloadBits, SymbolList, FromBits, Pow2;
    ghost var before := w.Written();
    var list := ListUsed(plan.flags);
    var code := BzTables.GenCodes(plan.lens);
    PutPattern(w, bcrc);
    w.PutBit(0);
    w.Put(plan.origPtr, 24);
    WriteMap(w, plan.flags, list);
    WriteSelectors(w, |plan.symbols|);
    WritePayload(w, plan.symbols, plan.lens, code);
    Regroup(before, bcrc, [0], ToBits(plan.origPtr, 24), MapBits(plan.flags),
            SelectorBits(|plan.symbols|), PayloadBits(plan.symbols, plan.lens));
  }

  lemma {:induction false} Regroup(x: seq<Bit>, a: seq<Bit>, b: seq<Bit>, c: seq<Bit>, e: seq<Bit>, f: seq<Bit>,
      g: seq<Bit>)
    ensures x + a + b + c + e + f + g == x + (a + (b + (c + (e + (f + g)))))
  {
  }

  /** `compress_block`: the block's bits are appended and the stream checksum absorbs its checksum. */
  method CompressBlock(w: BitWriter, tab: array<Word>, raw: seq<Byte>, combined: Word) returns (combined': Word)
    requires w.Valid() && IsTable(tab) && |raw| <= MAX_RAW
    modifies w
    ensures w.Valid() && combined' == Combine(combined, BlockCrc(raw))
    ensures w.Written() == old(w.Written()) + if raw == [] then [] else BlockBits(raw)
  {
    hide BitWriter.Written, ToBits, PlanOf, Writable, BodyBits;
    var crc := CrcUpdate(tab, ONES, raw);
    var bcrc := Xor(crc, ONES);
    combined' := Combine(combined, bcrc);
    if raw == [] { return; }
    ghost var before := w.Written();
    var plan := MakePlan(raw);
    PlanIsWritable(raw);
    w.Put(BLOCK_HI, 24);
    w.Put(BLOCK_LO, 24);
    Assoc(before, ToBits(BLOCK_HI, 24), ToBits(BLOCK_LO, 24));
    WriteBody(w, bcrc, plan);
    Assoc(before, BlockMagic(), BodyBits(bcrc, plan));
  }

  lemma {:induction false} NextChunk(input: seq<Byte>, off: nat, bs: nat, combined: Word)
    requires off < |input| && 0 < bs <= MAX_RAW
    ensures var chunk := if |input| - off < bs then |input| - off else bs;
      var raw := input[off..off + chunk];
      && StreamBits(input[off..], bs, combined)
         == BlockBits(raw) + StreamBits(input[off + chunk..], bs, Combine(combined, BlockCrc(raw)))
  {
    hide BlockBits, BlockCrc, Combine, EndMagic;
    var chunk := if |input| - off < bs then |input| - off else bs;
    assert input[off..off + chunk] == Chunk(input[off..], bs);
    assert input[off..][chunk..] == input[off + chunk..];
  }

  /** `compress`: the whole file. */
  method Compress(input: seq<Byte>, level: nat) returns (out: seq<Byte>)
    requires 1 <= level <= 9
    ensures out == Compressed(input, level)
  {
    hide BitWriter.Written, ToBits, BlockBits, BlockCrc, Combine, StreamBits, BytesToBits, Pack;
    var tab := CrcInit();
    var w := new BitWriter(Header(level));
    var bs := level * 100000;
    var combined: Word := Zeros(32);
    ghost var bits := StreamBits(input, bs, combined);
    ghost var want := w.Written() + bits;
    var off := 0;
    assert input[0..] == input;
    while off < |input|
      invariant 0 <= off <= |input| && w.Valid() && IsTable(tab)
      invariant w.Written() + StreamBits(input[off..], bs, combined) == want
    {
      NextChunk(input, off, bs, combined);
      var chunk := if |input| - off < bs then |input| - off else bs;
      var raw := input[off..off + chunk];
      Assoc(w.Written(), BlockBits(raw), StreamBits(input[off + chunk..], bs, Combine(combined, BlockCrc(raw))));
      combined := CompressBlock(w, tab, raw, combined);
      off := off + chunk;
    }
    assert input[off..] == [];
    StreamEnd(bs, combined);
    FinishStream(w, combined, Header(level), bits);
    out := w.out;
  }

  lemma {:induction false} StreamEnd(bs: nat, combined: Word)
    requires 0 < bs <= MAX_RAW
    ensures StreamBits([], bs, combined) == EndMagic() + combined
  {
  }

  /** The end mark, the combined checksum and the final flush. */
  method FinishStream(w: BitWriter, combined: Word, ghost head: seq<Byte>, ghost bits: seq<Bit>)
    requires w.Valid() && w.Written() + (EndMagic() + combined) == BytesToBits(head) + bits
    modifies w
    ensures w.out == head + Pack(bits)
  {
    hide ToBits, BytesToBits, Pack;
    ghost var before := w.Written();
    w.Put(END_HI, 24);
    w.Put(END_LO, 24);
    PutPattern(w, combined);
    ghost var full := BytesToBits(head) + bits;
    assert w.Written() == full by {
      Assoc(before, ToBits(END_HI, 24), ToBits(END_LO, 24));
      Assoc(before, EndMagic(), combined);
    }
    w.Flush();
    ghost var pad :| 0 <= pad < 8 && w.Written() == full + Zeros(pad);
    HeadAndPack(w.out, head, bits, pad);
  }

  lemma {:induction false} HeadAndPack(out: seq<Byte>, head: seq<Byte>, bits: seq<Bit>, pad: nat)
    requires pad < 8 && BytesToBits(out) == (BytesToBits(head) + bits) + Zeros(pad)
    ensures out == head + Pack(bits)
  {
    PackBits(bits);
    BytesToBitsAppend(head, Pack(bits));
    Assoc(BytesToBits(head), bits, Zeros(pad));
    assert |out| == |head| + |Pack(bits)|;
    assert 8 * |Pack(bits)| - |bits| == pad;
    BytesToBitsInjective(out, head + Pack(bits));
  }
}
