/** The CRC-32 of gzip (section 8 of RFC 1952): the table form of vgzip against the bit by bit
    division it stands for. A register is its 32 bits, least significant first; seen that way
    the division is the one bzip2's checksum does on bits most significant first. */
module GzCrc {
  import opened Bits
  import opened Seqs
  import opened GzBits
  import opened BzCrc

  /** A byte brought in at the bottom of the register. */
  function Low(b: nat): Word
  {
    LeBits(b, 8) + Zeros(24)
  }

  /** Reference: bring in each byte and divide bit by bit. */
  function LsbCrc(crc: Word, s: seq<Byte>): Word
    decreases |s|
  {
    if s == [] then crc else Shifts(Xor(LsbCrc(crc, s[..|s| - 1]), Low(s[|s| - 1])), 8)
  }

  /** `crc32(0, p, n)`, with the inversions at both ends. */
  function Crc(s: seq<Byte>): Word
  {
    Xor(LsbCrc(ONES, s), ONES)
  }

  /** Bits read as a number and written again. */
  lemma {:induction false} LeRound(d: seq<Bit>, p: nat, k: nat)
    requires p + k <= |d|
    ensures LeBits(ReadLe(d, p, k), k) == d[p..p + k]
    decreases k
  {
    if k > 0 {
      var v := ReadLe(d, p, k);
      LeRound(d, p + 1, k - 1);
      assert v % 2 == d[p] && v / 2 == ReadLe(d, p + 1, k - 1);
      assert d[p..p + k] == [d[p]] + d[p + 1..p + 1 + (k - 1)];
    }
  }

  /** The number eight bits stand for. */
  function ByteOf(bs: seq<Bit>): (b: Byte)
    requires |bs| == 8
    ensures LeBits(b, 8) == bs
  {
    Pow2Eight();
    LeRound(bs, 0, 8);
    ReadLe(bs, 0, 8)
  }

  /** The table entry for `i`. */
  function Entry(i: nat): Word
  {
    Shifts(Low(i), 8)
  }

  /** The table step of `crc32` is eight steps of the division. */
  lemma {:induction false} TableStepIs(crc: Word, b: Byte)
    ensures Xor(crc[8..] + Zeros(8), Entry(ByteOf(Xor(crc[..8], LeBits(b, 8))))) == Shifts(Xor(crc, Low(b)), 8)
  {
    hide Shifts, LeBits;
    var byte := LeBits(b, 8);
    var bottom := Xor(crc[..8], byte);
    var hi: Word := Zeros(8) + crc[8..];
    var lo: Word := bottom + Zeros(24);
    assert Xor(crc, byte + Zeros(24)) == Xor(hi, lo);
    ShiftsLinear(hi, lo, 8);
    ShiftOutZeros(crc[8..], 8);
  }

  ghost predicate IsCrcTable(tab: seq<Word>)
  {
    |tab| == 256 && forall i :: 0 <= i < 256 ==> tab[i] == Entry(i)
  }

  /** `crc_init` */
  method CrcInit() returns (tab: seq<Word>)
    ensures IsCrcTable(tab)
  {
    hide Shift1, LeBits;
    tab := [];
    for i := 0 to 256
      invariant |tab| == i && forall j :: 0 <= j < i ==> tab[j] == Entry(j)
    {
      var c := Low(i);
      for k := 0 to 8
        invariant Shifts(c, 8 - k) == Entry(i)
      {
        c := Shift1(c);
      }
      tab := tab + [c];
    }
  }

  /** `crc32` over a buffer: the table-driven loop computes the reference. */
  method Crc32(tab: seq<Word>, s: seq<Byte>) returns (crc: Word)
    requires IsCrcTable(tab)
    ensures crc == Crc(s)
  {
    hide Shifts, LeBits;
    crc := ONES;
    for i := 0 to |s|
      invariant crc == LsbCrc(ONES, s[..i])
    {
      TableStepIs(crc, s[i]);
      assert s[..i + 1][..i] == s[..i];
      crc := Xor(crc[8..] + Zeros(8), tab[ByteOf(Xor(crc[..8], LeBits(s[i], 8)))]);
    }
    assert s[..|s|] == s;
    crc := Xor(crc, ONES);
  }

  /** A register as four bytes, low byte first. */
  function WordBytes(w: Word): (r: seq<Byte>)
    ensures |r| == 4 && Stream(r) == w
  {
    var r := [ByteOf(w[0..8]), ByteOf(w[8..16]), ByteOf(w[16..24]), ByteOf(w[24..32])];
    FourBytes(r, w);
    r
  }

  lemma {:induction false} FourBytes(r: seq<Byte>, w: Word)
    requires |r| == 4 && forall k :: 0 <= k < 4 ==> LeBits(r[k], 8) == w[8 * k..8 * k + 8]
    ensures Stream(r) == w
  {
    hide LeBits;
    assert r[..1] == [] + [r[0]] && r[..2] == r[..1] + [r[1]] && r[..3] == r[..2] + [r[2]] && r == r[..3] + [r[3]];
    StreamSnoc([], r[0]);
    StreamSnoc(r[..1], r[1]);
    StreamSnoc(r[..2], r[2]);
    StreamSnoc(r[..3], r[3]);
    assert Stream(r) == ((w[0..8] + w[8..16]) + w[16..24]) + w[24..32];
  }
}
