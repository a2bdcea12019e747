/** The bzip2 container: header, blocks in one continuous bit stream, end mark. Its theorem: what
    `compress` writes, `decompress` reads back. */
module Bzip2 {
  import opened Bits
  import opened Seqs
  import opened BzBitIO
  import opened BzCrc
  import opened BzHuffman
  import opened BzFormat
  import opened BzLengths
  import opened BzBlock
  import BzTree
  import BzRle1
  import BzBwt

  const BLOCK_HI: nat := 0x314159
  const BLOCK_LO: nat := 0x265359
  const END_HI: nat := 0x177245
  const END_LO: nat := 0x385090

  // ------------------------------------------------------------------- compressing

  function BlockMagic(): (bs: seq<Bit>)
    ensures |bs| == 48
  {
    ToBits(BLOCK_HI, 24) + ToBits(BLOCK_LO, 24)
  }

  function EndMagic(): (bs: seq<Bit>)
    ensures |bs| == 48
  {
    ToBits(END_HI, 24) + ToBits(END_LO, 24)
  }

  /** The next chunk of the input: at most `bs` bytes. */
  function Chunk(input: seq<Byte>, bs: nat): (raw: seq<Byte>)
    requires bs > 0
    ensures |raw| <= |input| && |raw| <= bs
    ensures input != [] ==> raw != []
  {
    if |input| < bs then input else input[..bs]
  }

  /** Magic and body of one block. */
  function BlockBits(raw: seq<Byte>): (bits: seq<Bit>)
    requires 0 < |raw| <= MAX_RAW
  {
    PlanIsWritable(raw);
    BlockMagic() + BodyBits(BlockCrc(raw), PlanOf(raw))
  }

  /** All blocks of the input, then the end mark with the combined checksum. */
  function StreamBits(input: seq<Byte>, bs: nat, combined: Word): seq<Bit>
    requires 0 < bs <= MAX_RAW
    decreases |input|
  {
    if input == [] then EndMagic() + combined
    else
      var raw := Chunk(input, bs);
      BlockBits(raw) + StreamBits(input[|raw|..], bs, Combine(combined, BlockCrc(raw)))
  }

  /** "BZh" and the level digit. */
  function Header(level: nat): (h: seq<Byte>)
    requires 1 <= level <= 9
    ensures |h| == 4
  {
    [0x42, 0x5a, 0x68, 0x30 + level]
  }

  function BlockSize(level: nat): (bs: nat)
    requires 1 <= level <= 9
    ensures 0 < bs <= MAX_RAW
  {
    level * 100000
  }

  /** The output of `compress`. */
  function Compressed(input: seq<Byte>, level: nat): seq<Byte>
    requires 1 <= level <= 9
  {
    Header(level) + Pack(StreamBits(input, BlockSize(level), Zeros(32)))
  }

  // ----------------------------------------------------------------- decompressing

  /** The block loop of `decompress` from position `p` on. */
  function DecodeStream(d: seq<Bit>, p: nat): (r: Outcome<seq<Byte>>)
    decreases |d| - p
  {
    var hi, lo := ReadBits(d, p, 24), ReadBits(d, p + 24, 24);
    if hi == BLOCK_HI && lo == BLOCK_LO then
      NonZeroIsInside(d, p, 24);
      match DecodeBlock(d, p + 48)
      case Err => Err
      case Undefined => Undefined
      case Ok(blk) =>
        match DecodeStream(d, blk.pos)
        case Err => Err
        case Undefined => Undefined
        case Ok(rest) => Ok(blk.value + rest)
    else if hi == END_HI && lo == END_LO then Ok([])
    else Err
  }

  lemma {:induction false} NonZeroIsInside(d: seq<Bit>, p: nat, k: nat)
    requires ReadBits(d, p, k) != 0
    ensures p < |d|
  {
    if p >= |d| { ZerosBeyond(d, p, k); }
  }

  lemma {:induction false} ZerosBeyond(d: seq<Bit>, p: nat, k: nat)
    requires p >= |d|
    ensures ReadBits(d, p, k) == 0
  {
    if k > 0 { ZerosBeyond(d, p, k - 1); }
  }

  /** `decompress`. */
  function Decompressed(data: seq<Byte>): Outcome<seq<Byte>>
  {
    if |data| < 4 || data[0] != 0x42 || data[1] != 0x5a || data[2] != 0x68 then Err
    else DecodeStream(BytesToBits(data), 32)
  }

  // ------------------------------------------------------------------- round trip

  /** No Huffman depth is clamped in any block. */
  ghost predicate NeverClamped(input: seq<Byte>, bs: nat)
    requires 0 < bs <= MAX_RAW
    decreases |input|
  {
    input == [] ||
    var raw := Chunk(input, bs);
    Unclamped(PlanOf(raw).freq, MAX_LENGTH) && NeverClamped(input[|raw|..], bs)
  }

  lemma {:induction false} MagicsDiffer()
    ensures BLOCK_HI < Pow2(24) && BLOCK_LO < Pow2(24) && END_HI < Pow2(24) && END_LO < Pow2(24)
  {
    FieldWidths();
  }

  lemma {:induction false} MagicReadBack(d: seq<Bit>, p: nat, hi: nat, lo: nat)
    requires hi < Pow2(24) && lo < Pow2(24) && At(d, p, ToBits(hi, 24) + ToBits(lo, 24))
    ensures ReadBits(d, p, 24) == hi && ReadBits(d, p + 24, 24) == lo
  {
    AtSplit(d, p, ToBits(hi, 24), ToBits(lo, 24));
    ReadBack(d, p, hi, 24);
    ReadBack(d, p + 24, lo, 24);
  }

  lemma {:induction false} StreamStep(d: seq<Bit>, p: nat, raw: seq<Byte>, q: nat, rest: seq<Byte>)
    requires ReadBits(d, p, 24) == BLOCK_HI && ReadBits(d, p + 24, 24) == BLOCK_LO
    requires DecodeBlock(d, p + 48) == Ok(Got(raw, q)) && DecodeStream(d, q) == Ok(rest)
    ensures DecodeStream(d, p) == Ok(raw + rest)
  {
    hide DecodeBlock, ReadBits;
  }

  /** One written block is decoded and leaves the stream at its end. */
  lemma {:induction false} BlockReadBack(d: seq<Bit>, p: nat, raw: seq<Byte>)
    requires 0 < |raw| <= MAX_RAW && At(d, p, BlockBits(raw))
    requires Unclamped(PlanOf(raw).freq, MAX_LENGTH)
    ensures ReadBits(d, p, 24) == BLOCK_HI && ReadBits(d, p + 24, 24) == BLOCK_LO
    ensures DecodeBlock(d, p + 48) == Ok(Got(raw, p + |BlockBits(raw)|))
  {
    hide DecodeBlock, ReadBits, PlanOf, BodyBits, UsedCodesFit, Unclamped, At, ToBits, BlockCrc, Writable;
    PlanIsWritable(raw);
    UsedFitIff(raw);
    AtSplit(d, p, BlockMagic(), BodyBits(BlockCrc(raw), PlanOf(raw)));
    MagicsDiffer();
    MagicReadBack(d, p, BLOCK_HI, BLOCK_LO);
    BlockRoundTrip(d, p + 48, raw);
  }

  lemma {:induction false} StreamReadBack(d: seq<Bit>, p: nat, input: seq<Byte>, bs: nat, combined: Word)
    requires 0 < bs <= MAX_RAW && NeverClamped(input, bs)
    requires At(d, p, StreamBits(input, bs, combined))
    ensures DecodeStream(d, p) == Ok(input)
    decreases |input|
  {
    hide DecodeBlock, ReadBits, PlanOf, Unclamped, At, ToBits, BlockCrc, BlockBits, Combine, Pow2;
    MagicsDiffer();
    if input == [] {
      AtSplit(d, p, EndMagic(), combined);
      MagicReadBack(d, p, END_HI, END_LO);
    } else {
      var raw := Chunk(input, bs);
      var rest := input[|raw|..];
      var tail := StreamBits(rest, bs, Combine(combined, BlockCrc(raw)));
      AtSplit(d, p, BlockBits(raw), tail);
      BlockReadBack(d, p, raw);
      StreamReadBack(d, p + |BlockBits(raw)|, rest, bs, Combine(combined, BlockCrc(raw)));
      StreamStep(d, p, raw, p + |BlockBits(raw)|, rest);
      assert raw + rest == input;
    }
  }

  lemma {:induction false} PackedAt(h: seq<Byte>, bs: seq<Bit>)
    ensures At(BytesToBits(h + Pack(bs)), 8 * |h|, bs)
  {
    BytesToBitsAppend(h, Pack(bs));
    PackBits(bs);
    var all := BytesToBits(h + Pack(bs));
    assert all[8 * |h|..8 * |h| + |bs|] == bs;
  }

  /** The bzip2 round trip: every input at every level comes back, as long as no depth beyond 17 had to
      be clamped in any block. */
  lemma {:induction false} RoundTrip(input: seq<Byte>, level: nat)
    requires 1 <= level <= 9 && NeverClamped(input, BlockSize(level))
    ensures Decompressed(Compressed(input, level)) == Ok(input)
  {
    hide StreamBits, DecodeStream, At, NeverClamped, Pack, BytesToBits;
    var bits := StreamBits(input, BlockSize(level), Zeros(32));
    PackedAt(Header(level), bits);
    StreamReadBack(BytesToBits(Compressed(input, level)), 32, input, BlockSize(level), Zeros(32));
  }

  // --------------------------------------------------------------- small inputs

  function CountBelow(syms: seq<nat>, n: nat): (c: nat)
    ensures c <= |syms|
  {
    if syms == [] then 0 else CountBelow(syms[..|syms| - 1], n) + if syms[|syms| - 1] < n then 1 else 0
  }

  lemma {:induction false} CountBelowZero(syms: seq<nat>)
    ensures CountBelow(syms, 0) == 0
  {
    if syms != [] { CountBelowZero(syms[..|syms| - 1]); }
  }

  lemma {:induction false} CountBelowNext(syms: seq<nat>, n: nat)
    ensures CountBelow(syms, n + 1) == CountBelow(syms, n) + CountSym(syms, n)
  {
    if syms != [] { CountBelowNext(syms[..|syms| - 1], n); }
  }

  /** The frequencies of a stream add up to at most its length. */
  lemma {:induction false} FrequencySum(syms: seq<nat>, n: nat)
    ensures BzTree.Sum(Frequencies(syms, n)) == CountBelow(syms, n)
  {
    if n == 0 {
      CountBelowZero(syms);
    } else {
      FrequencySum(syms, n - 1);
      CountBelowNext(syms, n - 1);
      assert Frequencies(syms, n)[..n - 1] == Frequencies(syms, n - 1);
    }
  }

  lemma {:induction false} WeightSum(freq: seq<nat>)
    ensures BzTree.Sum(Weights(freq)) <= BzTree.Sum(freq) + |freq|
  {
    if freq != [] {
      var n := |freq| - 1;
      WeightSum(freq[..n]);
      assert Weights(freq)[..n] == Weights(freq[..n]);
    }
  }

  lemma {:induction false} SmallBlockUnclamped(raw: seq<Byte>)
    requires 0 < |raw| <= 5204
    ensures Unclamped(PlanOf(raw).freq, MAX_LENGTH)
  {
    var r1 := BzRle1.Encode(raw, -1, 0);
    BzRle1.EncodeLength(raw, -1, 0);
    var l := BzBwt.Bwt(r1);
    SymbolsClosed(l);
    var syms, n := SymbolsOf(l), |SymbolList(FlagsOf(l))| + 2;
    var freq := Frequencies(syms, n);
    assert PlanOf(raw).freq == freq;
    FrequencySum(syms, n);
    WeightSum(freq);
    LightIsUnclamped(freq);
  }

  /** Inputs of at most 5204 bytes come back unconditionally: their trees are too light to be deep. */
  lemma {:induction false} SmallRoundTrip(input: seq<Byte>, level: nat)
    requires 1 <= level <= 9 && |input| <= 5204
    ensures Decompressed(Compressed(input, level)) == Ok(input)
  {
    if input == [] {
    } else {
      assert Chunk(input, BlockSize(level)) == input;
      SmallBlockUnclamped(input);
      assert input[|input|..] == [];
    }
    RoundTrip(input, level);
  }
}
