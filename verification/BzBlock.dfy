/** One bzip2 block: what `compress_block` writes after the block magic, what `decode_block` makes of
    arbitrary bits, and that the second undoes the first. */
module BzBlock {
  import opened Options
  import opened Bits
  import opened Seqs
  import opened BzBitIO
  import opened BzCrc
  import opened BzHuffman
  import opened BzFormat
  import opened BzLengths
  import BzTree
  import BzRle1
  import BzBwt
  import BzUnBwt
  import BzMtf

  // ------------------------------------------------------------------- compressing

  /** Which bytes occur in the column. */
  function FlagsOf(l: seq<Byte>): (flags: seq<bool>)
    ensures |flags| == 256 && forall b :: 0 <= b < 256 ==> flags[b] == (b in l)
  {
    seq(256, b requires 0 <= b < 256 => b in l)
  }

  lemma {:induction false} ListHas(l: seq<Byte>, b: Byte)
    requires b in l
    ensures b in SymbolList(FlagsOf(l))
  {
  }

  /** The column as indices into the list of bytes in use. */
  function Indices(l: seq<Byte>, list: seq<Byte>): (vs: seq<nat>)
    requires forall i :: 0 <= i < |l| ==> l[i] in list
    ensures |vs| == |l|
    ensures forall i :: 0 <= i < |l| ==> vs[i] < |list| && list[vs[i]] == l[i]
  {
    seq(|l|, i requires 0 <= i < |l| => BzMtf.Find(list, l[i]))
  }

  function CountSym(syms: seq<nat>, s: nat): nat
  {
    if syms == [] then 0 else CountSym(syms[..|syms| - 1], s) + if syms[|syms| - 1] == s then 1 else 0
  }

  function Frequencies(syms: seq<nat>, alpha: nat): (freq: seq<nat>)
    ensures |freq| == alpha && forall s :: 0 <= s < alpha ==> freq[s] == CountSym(syms, s)
  {
    seq(alpha, s requires 0 <= s => CountSym(syms, s))
  }

  /** Everything `compress_block` settles before it writes. */
  datatype Plan = Plan(column: seq<Byte>, origPtr: nat, flags: seq<bool>, symbols: seq<nat>, freq: seq<nat>,
    lens: seq<Byte>)

  /** The symbol stream of a column, end-of-block symbol included. */
  function SymbolsOf(l: seq<Byte>): (syms: seq<nat>)
  {
    var list := SymbolList(FlagsOf(l));
    ColumnListed(l);
    var vs := Indices(l, list);
    BzMtf.IdentityHas(|list|, vs);
    BzMtf.Encode(vs, BzMtf.Identity(|list|), 0) + [|list| + 1]
  }

  lemma {:induction false} ColumnListed(l: seq<Byte>)
    ensures forall i :: 0 <= i < |l| ==> l[i] in SymbolList(FlagsOf(l))
  {
    forall i | 0 <= i < |l| ensures l[i] in SymbolList(FlagsOf(l)) { ListHas(l, l[i]); }
  }

  function PlanOf(raw: seq<Byte>): (plan: Plan)
    requires raw != []
  {
    var r1 := BzRle1.Encode(raw, -1, 0);
    BzRle1.EncodeLength(raw, -1, 0);
    var l := BzBwt.Bwt(r1);
    var syms := SymbolsOf(l);
    var freq := Frequencies(syms, |SymbolList(FlagsOf(l))| + 2);
    Plan(l, BzBwt.OrigPtr(r1), FlagsOf(l), syms, freq, Lengths(freq, MAX_LENGTH))
  }

  function NumSelectors(ns: nat): nat
  {
    (ns + 49) / 50
  }

  /** What a plan must satisfy for its fields to be written without loss. */
  ghost predicate Writable(plan: Plan)
  {
    && plan.origPtr < |plan.column| < Pow2(24)
    && |plan.flags| == 256 && |plan.lens| == |SymbolList(plan.flags)| + 2
    && (forall s :: 0 <= s < |plan.lens| ==> 1 <= plan.lens[s] <= MAX_LENGTH)
    && Closed(plan.symbols, |plan.lens| - 1)
    && NumSelectors(|plan.symbols|) < Pow2(15)
  }

  function SelectorBits(ns: nat): seq<Bit>
  {
    ToBits(2, 3) + (ToBits(NumSelectors(ns), 15) + Zeros(NumSelectors(ns)))
  }

  /** The part of a block from the tables on. */
  function PayloadBits(syms: seq<nat>, lens: seq<Byte>): seq<Bit>
    requires lens != [] && Closed(syms, |lens| - 1)
  {
    (TableBits(lens) + TableBits(lens)) + SymBits(syms, lens)
  }

  /** A whole block without its magic. */
  function BodyBits(crc: Word, plan: Plan): seq<Bit>
    requires Writable(plan)
  {
    crc + ([0] + (ToBits(plan.origPtr, 24) + (MapBits(plan.flags)
      + (SelectorBits(|plan.symbols|) + PayloadBits(plan.symbols, plan.lens)))))
  }

  // ----------------------------------------------------------------- decompressing

  /** `Ok`, the code's own refusal `Err` (it returns -1), or `Undefined`: the C code leaves one of its
      arrays or reads an entry it never set, and nothing can be said of what follows. */
  datatype Outcome<+T> = Ok(value: T) | Err | Undefined

  /** The fields before the tables. */
  datatype Head = Head(origPtr: nat, flags: seq<bool>, groups: nat, sel: seq<nat>)

  function ReadHead(d: seq<Bit>, p: nat): (r: Outcome<Got<Head>>)
    ensures r.Ok? ==> r.value.pos >= p
    ensures r.Ok? ==> var h := r.value.value;
      |h.flags| == 256 && h.groups <= 6 && forall i :: 0 <= i < |h.sel| ==> h.sel[i] < h.groups
  {
    if BitAt(d, p) == 1 then Err
    else
      var flags := ReadFlags(d, p + 25);
      var groups := ReadBits(d, flags.pos, 3);
      var nSel := ReadBits(d, flags.pos + 3, 15);
      var sel := ReadSelectors(d, flags.pos + 18, nSel);
      if groups > 6 then Undefined
      else
        match UnMtf(sel.value, BzMtf.Identity(groups))
        case None => Undefined
        case Some(s) =>
          UnMtfBelow(sel.value, BzMtf.Identity(groups), groups);
          Ok(Got(Head(ReadBits(d, p + 1, 24), flags.value, groups, s), sel.pos))
  }

  lemma {:induction false} UnMtfBelow(sel: seq<nat>, pos: seq<nat>, n: nat)
    requires forall i :: 0 <= i < |pos| ==> pos[i] < n
    ensures UnMtf(sel, pos).Some? ==> forall i :: 0 <= i < |sel| ==> UnMtf(sel, pos).value[i] < n
    decreases |sel|
  {
    if sel != [] && sel[0] < |pos| {
      UnMtfBelow(sel[1..], BzMtf.MoveToFront(pos, sel[0]), n);
    }
  }

  predicate LengthsUsable(tables: seq<seq<Byte>>)
  {
    forall g :: 0 <= g < |tables| ==> forall s :: 0 <= s < |tables[g]| ==> tables[g][s] <= 22
  }

  /** The tables and the symbols. */
  function ReadPayload(d: seq<Bit>, q: nat, groups: nat, sel: seq<nat>, alpha: nat): (r: Outcome<Got<seq<nat>>>)
    requires alpha >= 2 && forall i :: 0 <= i < |sel| ==> sel[i] < groups
    ensures r.Ok? ==> r.value.pos >= q
    ensures r.Ok? ==> forall i :: 0 <= i < |r.value.value| ==> r.value.value[i] <= alpha - 2
  {
    var tables := ReadTables(d, q, groups, alpha);
    if !LengthsUsable(tables.value) then Undefined
    else
      match ReadSyms(d, tables.pos, tables.value, sel, 0, alpha - 1)
      case None => Undefined
      case Some(syms) => Ok(syms)
  }

  /** Symbols to bytes: move-to-front and runs, inverse Burrows-Wheeler, run lengths. */
  function Expand(syms: seq<nat>, list: seq<Byte>, origPtr: nat): Outcome<seq<Byte>>
    requires forall i :: 0 <= i < |syms| ==> syms[i] <= |list|
  {
    if list == [] then Undefined
    else
      var vs := BzMtf.Decode(syms, BzMtf.Identity(|list|), 0, 0);
      DecodeBelow(syms, BzMtf.Identity(|list|), 0, 0, |list|);
      if |vs| > BzUnBwt.TT_SIZE || origPtr >= |vs| then Undefined
      else
        var l := seq(|vs|, i requires 0 <= i < |vs| => list[vs[i]]);
        Ok(BzRle1.Decode(BzUnBwt.UnBwt(l, origPtr), -1, 0))
  }

  lemma {:induction false} DecodeBelow(syms: seq<nat>, m: seq<nat>, run: nat, bit: nat, n: nat)
    requires m != [] && BzMtf.InRange(syms, |m|) && forall i :: 0 <= i < |m| ==> m[i] < n
    ensures forall i :: 0 <= i < |BzMtf.Decode(syms, m, run, bit)| ==> BzMtf.Decode(syms, m, run, bit)[i] < n
    decreases |syms|
  {
    if syms != [] {
      if syms[0] < 2 {
        DecodeBelow(syms[1..], m, run + (syms[0] + 1) * Pow2(bit), bit + 1, n);
      } else {
        DecodeBelow(syms[1..], BzMtf.MoveToFront(m, syms[0] - 1), 0, 0, n);
      }
    }
  }

  /** `decode_block` on an arbitrary bit stream: the block's bytes and the position after it. */
  function DecodeBlock(d: seq<Bit>, p: nat): (r: Outcome<Got<seq<Byte>>>)
    ensures r.Ok? ==> r.value.pos > p
  {
    match ReadHead(d, p + 32)
    case Err => Err
    case Undefined => Undefined
    case Ok(head) =>
      var list := SymbolList(head.value.flags);
      match ReadPayload(d, head.pos, head.value.groups, head.value.sel, |list| + 2)
      case Err => Undefined
      case Undefined => Undefined
      case Ok(syms) =>
        match Expand(syms.value, list, head.value.origPtr)
        case Err => Undefined
        case Undefined => Undefined
        case Ok(blk) =>
          if ReadBits(d, p, 32) != FromBits(BlockCrc(blk)) then Err
          else Ok(Got(blk, syms.pos))
  }

  // ------------------------------------------------------------------- round trip

  lemma {:induction false} SymbolsClosed(l: seq<Byte>)
    requires l != []
    ensures SymbolList(FlagsOf(l)) != []
    ensures Closed(SymbolsOf(l), |SymbolList(FlagsOf(l))| + 1)
    ensures |SymbolsOf(l)| <= |l| + 1
  {
    var list := SymbolList(FlagsOf(l));
    ColumnListed(l);
    assert l[0] in list;
    var vs := Indices(l, list);
    BzMtf.IdentityHas(|list|, vs);
    BzMtf.EncodeInRange(vs, BzMtf.Identity(|list|), 0);
  }

  /** Pow2 at the widths of the format's fields. */
  lemma {:induction false} FieldWidths()
    ensures Pow2(15) == 32768 && Pow2(24) == 16777216
  {
    assert Pow2(5) == 32;
    Pow2Add(5, 5);
    Pow2Add(10, 5);
    Pow2Add(10, 10);
    assert Pow2(4) == 16;
    Pow2Add(20, 4);
  }

  /** The largest block `compress` cuts: level 9. */
  const MAX_RAW: nat := 900000

  /** Every chunk of the input fits the format. */
  lemma {:induction false} PlanIsWritable(raw: seq<Byte>)
    requires 0 < |raw| <= MAX_RAW
    ensures Writable(PlanOf(raw))
    ensures |PlanOf(raw).column| <= 1125000
  {
    hide BzRle1.Encode, BzBwt.Bwt, SymbolsOf, FlagsOf, BzBwt.OrigPtr, Frequencies, Lengths, Pow2;
    var r1 := BzRle1.Encode(raw, -1, 0);
    BzRle1.EncodeLength(raw, -1, 0);
    FieldWidths();
    SymbolsClosed(BzBwt.Bwt(r1));
  }

  lemma {:induction false} SelectorsRead(d: seq<Bit>, q: nat, ns: nat)
    requires NumSelectors(ns) < Pow2(15) && At(d, q, SelectorBits(ns))
    ensures ReadBits(d, q, 3) == 2 && ReadBits(d, q + 3, 15) == NumSelectors(ns)
    ensures ReadSelectors(d, q + 18, NumSelectors(ns)) == Got(ZeroNats(NumSelectors(ns)), q + |SelectorBits(ns)|)
  {
    var n := NumSelectors(ns);
    AtSplit(d, q, ToBits(2, 3), ToBits(n, 15) + Zeros(n));
    AtSplit(d, q + 3, ToBits(n, 15), Zeros(n));
    assert Pow2(3) == 8;
    ReadBack(d, q, 2, 3);
    ReadBack(d, q + 3, n, 15);
    SelectorsReadBack(d, q + 18, n);
  }

  lemma {:induction false} HeadFromFields(d: seq<Bit>, p: nat, origPtr: nat, flags: seq<bool>, n: nat, q1: nat, q2: nat)
    requires BitAt(d, p) == 0 && ReadBits(d, p + 1, 24) == origPtr
    requires |flags| == 256 && ReadFlags(d, p + 25) == Got(flags, q1)
    requires ReadBits(d, q1, 3) == 2 && ReadBits(d, q1 + 3, 15) == n
    requires ReadSelectors(d, q1 + 18, n) == Got(ZeroNats(n), q2)
    ensures ReadHead(d, p) == Ok(Got(Head(origPtr, flags, 2, ZeroNats(n)), q2))
  {
    hide ReadFlags, ReadSelectors, ReadBits, BitAt;
    UnMtfZeros(n, BzMtf.Identity(2));
  }

  lemma {:induction false} HeadReadBack(d: seq<Bit>, p: nat, origPtr: nat, flags: seq<bool>, ns: nat)
    requires origPtr < Pow2(24) && |flags| == 256 && NumSelectors(ns) < Pow2(15)
    requires At(d, p, [0]) && At(d, p + 1, ToBits(origPtr, 24)) && At(d, p + 25, MapBits(flags))
    requires At(d, p + 25 + |MapBits(flags)|, SelectorBits(ns))
    ensures ReadHead(d, p) == Ok(Got(Head(origPtr, flags, 2, ZeroNats(NumSelectors(ns))),
                                     p + 25 + |MapBits(flags)| + |SelectorBits(ns)|))
  {
    hide *;
    var q1 := p + 25 + |MapBits(flags)|;
    AtIndex(d, p, [0], 0);
    ReadBack(d, p + 1, origPtr, 24);
    FlagsReadBack(d, p + 25, flags);
    SelectorsRead(d, q1, ns);
    HeadFromFields(d, p, origPtr, flags, NumSelectors(ns), q1, q1 + |SelectorBits(ns)|);
  }

  lemma {:induction false} PayloadReadBack(d: seq<Bit>, q: nat, syms: seq<nat>, lens: seq<Byte>)
    requires |lens| >= 2 && Closed(syms, |lens| - 1) && UsedCodesFit(syms, lens)
    requires forall s :: 0 <= s < |lens| ==> lens[s] <= MAX_LENGTH
    requires At(d, q, PayloadBits(syms, lens))
    ensures ReadPayload(d, q, 2, ZeroNats(NumSelectors(|syms|)), |lens|)
         == Ok(Got(syms[..|syms| - 1], q + |PayloadBits(syms, lens)|))
  {
    hide ReadPayload, ReadTables, ReadPlain, SymBits, TableBits, UsedCodesFit;
    var two := TableBits(lens) + TableBits(lens);
    AtSplit(d, q, two, SymBits(syms, lens));
    TwoTablesReadBack(d, q, lens);
    SymsReadBack(d, q + |two|, lens, NumSelectors(|syms|), syms);
    PayloadFromFields(d, q, lens, NumSelectors(|syms|), q + |two|, syms[..|syms| - 1], q + |PayloadBits(syms, lens)|);
  }

  lemma {:induction false} PayloadFromFields(d: seq<Bit>, q: nat, lens: seq<Byte>, n: nat, q1: nat, syms: seq<nat>,
      q2: nat)
    requires |lens| >= 2 && forall s :: 0 <= s < |lens| ==> lens[s] <= MAX_LENGTH
    requires ReadTables(d, q, 2, |lens|) == Got([lens, lens], q1)
    requires ReadPlain(d, q1, lens, n, 0) == Some(Got(syms, q2))
    ensures ReadPayload(d, q, 2, ZeroNats(n), |lens|) == Ok(Got(syms, q2))
  {
    assert LengthsUsable([lens, lens]);
  }

  lemma {:induction false} PayloadIs(d: seq<Bit>, q: nat, lens: seq<Byte>, n: nat, q1: nat)
    requires |lens| >= 2 && forall s :: 0 <= s < |lens| ==> lens[s] <= MAX_LENGTH
    requires ReadTables(d, q, 2, |lens|) == Got([lens, lens], q1)
    ensures ReadPayload(d, q, 2, ZeroNats(n), |lens|) == match ReadPlain(d, q1, lens, n, 0) case None => Undefined
        case Some(x) => Ok(x)
  {
    assert LengthsUsable([lens, lens]);
  }

  /** What is read of a written block is its symbols, up to where they were written. */
  ghost predicate SymbolsBack(d: seq<Bit>, p: nat, crc: Word, plan: Plan)
    requires Writable(plan)
  {
    var r := ReadPayload(d, PayloadStart(p, plan), 2, ZeroNats(NumSelectors(|plan.symbols|)), |plan.lens|);
    r == Ok(Got(plan.symbols[..|plan.symbols| - 1], p + |BodyBits(crc, plan)|))
  }

  /** The symbols of a written block are read, up to where they were written, if and only if every
      code the block uses fits its length. */
  lemma {:induction false} BlockSymbolsIff(d: seq<Bit>, p: nat, crc: Word, plan: Plan)
    requires Writable(plan) && At(d, p, BodyBits(crc, plan))
    ensures ReadHead(d, p + 32)
         == Ok(Got(Head(plan.origPtr, plan.flags, 2, ZeroNats(NumSelectors(|plan.symbols|))), PayloadStart(p, plan)))
    ensures SymbolsBack(d, p, crc, plan) <==> UsedCodesFit(plan.symbols, plan.lens)
  {
    hide ReadHead, ReadPayload, SymbolList, MapBits, SelectorBits, ToBits, UsedCodesFit, At, ReadBits,
      FromBits, NumSelectors, ZeroNats, TableBits, SymBits, ReadTables, ReadPlain, Pow2;
    var ns, m := |plan.symbols|, MapBits(plan.flags);
    var orig, sels, payload := ToBits(plan.origPtr, 24), SelectorBits(ns), PayloadBits(plan.symbols, plan.lens);
    AtSplit4(d, p, crc, [0], orig, m + (sels + payload));
    AtSplit(d, p + 57, m, sels + payload);
    AtSplit(d, p + 57 + |m|, sels, payload);
    HeadReadBack(d, p + 32, plan.origPtr, plan.flags, ns);
    var q := p + 57 + |m| + |sels|;
    var two := TableBits(plan.lens) + TableBits(plan.lens);
    AtSplit(d, q, two, SymBits(plan.symbols, plan.lens));
    TwoTablesReadBack(d, q, plan.lens);
    PayloadIs(d, q, plan.lens, NumSelectors(ns), q + |two|);
    EnoughSelectors(ns);
    SymsReadBackIff(d, q + |two|, plan.lens, NumSelectors(ns), plan.symbols);
  }

  /** Where the tables of a block begin. */
  function PayloadStart(p: nat, plan: Plan): nat
    requires |plan.flags| == 256
  {
    p + 57 + |MapBits(plan.flags)| + |SelectorBits(|plan.symbols|)|
  }

  lemma {:induction false} EnoughSelectors(ns: nat)
    ensures ns <= 50 * NumSelectors(ns)
  {
  }

  /** Expanding the symbols of a column gives the column's source. */
  lemma {:induction false} ExpandSymbols(r1: seq<Byte>)
    requires 0 < |r1| <= BzUnBwt.TT_SIZE
    ensures var l := BzBwt.Bwt(r1);
      var syms := SymbolsOf(l);
      var list := SymbolList(FlagsOf(l));
      && |syms| > 0
      && (forall i :: 0 <= i < |syms| - 1 ==> syms[i] <= |list|)
      && Expand(syms[..|syms| - 1], list, BzBwt.OrigPtr(r1)) == Ok(BzRle1.Decode(r1, -1, 0))
  {
    var l := BzBwt.Bwt(r1);
    var list := SymbolList(FlagsOf(l));
    SymbolsClosed(l);
    ColumnListed(l);
    var vs := Indices(l, list);
    var m := BzMtf.Identity(|list|);
    BzMtf.IdentityHas(|list|, vs);
    var syms := SymbolsOf(l);
    assert syms[..|syms| - 1] == BzMtf.Encode(vs, m, 0);
    BzMtf.DecodeEncode(vs, m, 0);
    assert Repeat(m[0], 0) + vs == vs;
    assert seq(|vs|, i requires 0 <= i < |vs| => list[vs[i]]) == l;
    BzUnBwt.UnBwtBwt(r1);
  }

  lemma {:induction false} BlockFromStages(d: seq<Bit>, p: nat, head: Head, q1: nat, syms: seq<nat>, q2: nat,
      raw: seq<Byte>)
    requires ReadHead(d, p + 32) == Ok(Got(head, q1))
    requires ReadPayload(d, q1, head.groups, head.sel, |SymbolList(head.flags)| + 2) == Ok(Got(syms, q2))
    requires Expand(syms, SymbolList(head.flags), head.origPtr) == Ok(raw)
    requires ReadBits(d, p, 32) == FromBits(BlockCrc(raw))
    ensures DecodeBlock(d, p) == Ok(Got(raw, q2))
  {
  }

  /** Any writable plan whose symbols expand to `raw` is read back as `raw`. */
  lemma {:induction false} PlanReadBack(d: seq<Bit>, p: nat, plan: Plan, raw: seq<Byte>)
    requires Writable(plan) && UsedCodesFit(plan.symbols, plan.lens)
    requires At(d, p, BodyBits(BlockCrc(raw), plan))
    requires Expand(plan.symbols[..|plan.symbols| - 1], SymbolList(plan.flags), plan.origPtr) == Ok(raw)
    ensures DecodeBlock(d, p) == Ok(Got(raw, p + |BodyBits(BlockCrc(raw), plan)|))
  {
    hide DecodeBlock, ReadHead, ReadPayload, Expand, SymbolList, BlockCrc, MapBits, SelectorBits, PayloadBits,
      ToBits, UsedCodesFit, At, ReadBits, FromBits, NumSelectors, ZeroNats, TableBits, SymBits, ReadTables, Pow2;
    var crc, ns, m := BlockCrc(raw), |plan.symbols|, MapBits(plan.flags);
    var orig, sels, payload := ToBits(plan.origPtr, 24), SelectorBits(ns), PayloadBits(plan.symbols, plan.lens);
    AtSplit4(d, p, crc, [0], orig, m + (sels + payload));
    AtSplit(d, p + 57, m, sels + payload);
    AtSplit(d, p + 57 + |m|, sels, payload);
    ReadBitsIsFromBits(d, p, crc);
    HeadReadBack(d, p + 32, plan.origPtr, plan.flags, ns);
    var q1 := p + 57 + |m| + |sels|;
    PayloadReadBack(d, q1, plan.symbols, plan.lens);
    BlockFromStages(d, p, Head(plan.origPtr, plan.flags, 2, ZeroNats(NumSelectors(ns))), q1,
                    plan.symbols[..ns - 1], q1 + |payload|, raw);
  }

  /** A block comes back, checksum check included, when every code it uses fits its length. */
  lemma {:induction false} BlockRoundTrip(d: seq<Bit>, p: nat, raw: seq<Byte>)
    requires 0 < |raw| <= MAX_RAW && Writable(PlanOf(raw))
    requires UsedCodesFit(PlanOf(raw).symbols, PlanOf(raw).lens)
    requires At(d, p, BodyBits(BlockCrc(raw), PlanOf(raw)))
    ensures DecodeBlock(d, p) == Ok(Got(raw, p + |BodyBits(BlockCrc(raw), PlanOf(raw))|))
  {
    hide DecodeBlock, Expand, SymbolList, BlockCrc, BodyBits, UsedCodesFit, At, BzRle1.Encode, BzRle1.Decode,
      BzBwt.Bwt, SymbolsOf, BzBwt.OrigPtr, FlagsOf, Lengths, Writable;
    BzRle1.EncodeLength(raw, -1, 0);
    ExpandSymbols(BzRle1.Encode(raw, -1, 0));
    BzRle1.DecodeEncode(raw, -1, 0);
    PlanReadBack(d, p, PlanOf(raw), raw);
  }

  // ------------------------------------------------------- exactly when it comes back

  lemma {:induction false} CountBelow(syms: seq<nat>, s: nat)
    requires forall i :: 0 <= i < |syms| ==> syms[i] < s
    ensures CountSym(syms, s) == 0
  {
    if syms != [] { CountBelow(syms[..|syms| - 1], s); }
  }

  /** The codes a block uses fit exactly when no depth was clamped: the end-of-block symbol is used,
      and its code is the one that would not fit. */
  lemma {:induction false} UsedFitIff(raw: seq<Byte>)
    requires 0 < |raw| <= MAX_RAW
    ensures UsedCodesFit(PlanOf(raw).symbols, PlanOf(raw).lens) <==> Unclamped(PlanOf(raw).freq, MAX_LENGTH)
  {
    hide CodesFit, UsedCodesFit, Unclamped, Lengths, SymbolsOf, SymbolList, FlagsOf, BzRle1.Encode, BzBwt.Bwt,
      BzBwt.OrigPtr, Pow2, Code;
    PlanIsWritable(raw);
    var syms, freq, lens := PlanOf(raw).symbols, PlanOf(raw).freq, PlanOf(raw).lens;
    FitIffUnclamped(freq, MAX_LENGTH);
    if Unclamped(freq, MAX_LENGTH) {
      AllFitUsedFit(syms, lens);
    } else {
      var e := |freq| - 1;
      CountBelow(syms[..|syms| - 1], e);
      assert freq[e] == CountSym(syms, e) == 1;
      LastCodeFails(freq, MAX_LENGTH);
      if UsedCodesFit(syms, lens) { UsedFits(syms, lens, |syms| - 1); }
    }
  }

  /** The symbols of a compressed block are read, up to where they were written, if and only if no
      depth of its code tree was clamped. */
  lemma {:induction false} SymbolsBackIff(d: seq<Bit>, p: nat, crc: Word, raw: seq<Byte>)
    requires 0 < |raw| <= MAX_RAW && Writable(PlanOf(raw)) && At(d, p, BodyBits(crc, PlanOf(raw)))
    ensures SymbolsBack(d, p, crc, PlanOf(raw)) <==> Unclamped(PlanOf(raw).freq, MAX_LENGTH)
  {
    hide SymbolsBack, PlanOf, BodyBits, UsedCodesFit, Unclamped, Writable;
    BlockSymbolsIff(d, p, crc, PlanOf(raw));
    UsedFitIff(raw);
  }
}
