/** The MSB-first CRC-32 that guards every bzip2 block: the byte-at-a-time table form
    of vbzip2 against the bit-at-a-time polynomial division it stands for. An `unsigned`
    register is modelled by its 32 bits, most significant first. */
module BzCrc {
  import opened Bits
  import opened BzBitIO

  type Word = w: seq<Bit> | |w| == 32 witness
    [0, 0, 0, 0, 0, 0, 0, 0, 0, 0, 0, 0, 0, 0, 0, 0, 0, 0, 0, 0, 0, 0, 0, 0, 0, 0, 0, 0, 0, 0, 0, 0]

  /** 0x04c11db7. */
  const POLYNOMIAL: Word :=
    [0, 0, 0, 0, 0, 1, 0, 0, 1, 1, 0, 0, 0, 0, 0, 1, 0, 0, 0, 1, 1, 1, 0, 1, 1, 0, 1, 1, 0, 1, 1, 1]

  /** 0xffffffff. */
  const ONES: Word :=
    [1, 1, 1, 1, 1, 1, 1, 1, 1, 1, 1, 1, 1, 1, 1, 1, 1, 1, 1, 1, 1, 1, 1, 1, 1, 1, 1, 1, 1, 1, 1, 1]

  function XorBit(a: Bit, b: Bit): Bit
  {
    if a == b then 0 else 1
  }

  function Xor(a: seq<Bit>, b: seq<Bit>): (c: seq<Bit>)
    requires |a| == |b|
    ensures |c| == |a|
    ensures forall i :: 0 <= i < |a| ==> c[i] == XorBit(a[i], b[i])
  {
    seq(|a|, i requires 0 <= i < |a| => XorBit(a[i], b[i]))
  }

  /** One bit of polynomial division. */
  function Shift1(c: Word): Word
  {
    if c[0] == 1 then Xor(c[1..] + [0], POLYNOMIAL) else c[1..] + [0]
  }

  function Shifts(c: Word, k: nat): Word
    decreases k
  {
    if k == 0 then c else Shifts(Shift1(c), k - 1)
  }

  /** Reference: bring the next byte in at the top and divide bit by bit. */
  function CrcBitwise(crc: Word, s: seq<Byte>): Word
    decreases |s|
  {
    if s == [] then crc
    else Shifts(Xor(CrcBitwise(crc, s[..|s| - 1]), ToBits(s[|s| - 1], 8) + Zeros(24)), 8)
  }

  /** The checksum of a block, with the inversions at both ends. */
  function BlockCrc(s: seq<Byte>): Word
  {
    Xor(CrcBitwise(ONES, s), ONES)
  }

  lemma {:induction false} Shift1Linear(a: Word, b: Word)
    ensures Shift1(Xor(a, b)) == Xor(Shift1(a), Shift1(b))
  {
    var l, r := Shift1(Xor(a, b)), Xor(Shift1(a), Shift1(b));
    var xa, xb := a[1..] + [0], b[1..] + [0];
    assert Xor(a, b)[1..] + [0] == Xor(xa, xb);
    forall i | 0 <= i < 32 ensures l[i] == r[i] {
      var p := POLYNOMIAL[i];
      assert r[i] == XorBit(Shift1(a)[i], Shift1(b)[i]);
    }
  }

  lemma {:induction false} ShiftsLinear(a: Word, b: Word, k: nat)
    ensures Shifts(Xor(a, b), k) == Xor(Shifts(a, k), Shifts(b, k))
    decreases k
  {
    hide Shift1, Xor;
    if k > 0 {
      Shift1Linear(a, b);
      ShiftsLinear(Shift1(a), Shift1(b), k - 1);
    }
  }

  /** While only zeros leave at the top, dividing is shifting. */
  lemma {:induction false} ShiftOutZeros(x: seq<Bit>, k: nat)
    requires |x| + k == 32
    ensures Shifts(Zeros(k) + x, k) == x + Zeros(k)
    decreases k
  {
    if k == 0 {
      assert Zeros(0) + x == x + Zeros(0);
    } else {
      var c: Word := Zeros(k) + x;
      assert Shift1(c) == Zeros(k - 1) + (x + [0]) by {
        assert c[1..] == Zeros(k - 1) + x;
      }
      ShiftOutZeros(x + [0], k - 1);
      assert (x + [0]) + Zeros(k - 1) == x + Zeros(k);
    }
  }

  /** The table entry for index `i`: eight steps on a register holding `i` at the top. */
  function TableEntry(i: nat): Word
  {
    Shifts(ToBits(i, 8) + Zeros(24), 8)
  }

  /** The register after `crc = (crc << 8) ^ crctab[((crc >> 24) ^ b) & 0xff]`. */
  function TableStep(crc: Word, b: Byte): Word
  {
    Xor(crc[8..] + Zeros(8), TableEntry(FromBits(Xor(crc[..8], ToBits(b, 8)))))
  }

  /** The table step of `crc_upd` is eight steps of the division. */
  lemma {:induction false} TableStepIsEightShifts(crc: Word, b: Byte)
    ensures TableStep(crc, b) == Shifts(Xor(crc, ToBits(b, 8) + Zeros(24)), 8)
  {
    var byte := ToBits(b, 8);
    var top := Xor(crc[..8], byte);
    var lo: Word := Zeros(8) + crc[8..];
    var hi: Word := top + Zeros(24);
    assert Xor(crc, byte + Zeros(24)) == Xor(lo, hi);
    ShiftsLinear(lo, hi, 8);
    ShiftOutZeros(crc[8..], 8);
    ToFromBits(top);
  }

  ghost predicate IsTable(tab: array<Word>)
    reads tab
  {
    tab.Length == 256 && forall i :: 0 <= i < 256 ==> tab[i] == TableEntry(i)
  }

  /** `crc_init`. */
  method CrcInit() returns (tab: array<Word>)
    ensures fresh(tab) && IsTable(tab)
  {
    tab := new Word[256](_ => Zeros(32));
    var i := 0;
    while i < 256
      invariant 0 <= i <= 256
      invariant forall j :: 0 <= j < i ==> tab[j] == TableEntry(j)
    {
      ghost var c0: Word := ToBits(i, 8) + Zeros(24);
      var c: Word := ToBits(i, 8) + Zeros(24);
      var k := 0;
      while k < 8
        invariant 0 <= k <= 8
        invariant Shifts(c, 8 - k) == Shifts(c0, 8)
      {
        c := if c[0] == 1 then Xor(c[1..] + [0], POLYNOMIAL) else c[1..] + [0];
        k := k + 1;
      }
      tab[i] := c;
      i := i + 1;
    }
  }

  /** `crc_upd`: the table-driven loop computes the bitwise reference. */
  method CrcUpdate(tab: array<Word>, crc0: Word, s: seq<Byte>) returns (crc: Word)
    requires IsTable(tab)
    ensures crc == CrcBitwise(crc0, s)
  {
    crc := crc0;
    var i := 0;
    while i < |s|
      invariant 0 <= i <= |s|
      invariant crc == CrcBitwise(crc0, s[..i])
    {
      TableStepIsEightShifts(crc, s[i]);
      var at := Xor(crc[..8], ToBits(s[i], 8));
      PackedByte(at);
      crc := Xor(crc[8..] + Zeros(8), tab[FromBits(at)]);
      assert s[..i + 1][..i] == s[..i];
      i := i + 1;
    }
    assert s[..|s|] == s;
  }

  /** `(*combined << 1 | *combined >> 31) ^ blockcrc`: how the stream checksum absorbs a block. */
  function Combine(combined: Word, block: Word): Word
  {
    Xor(combined[1..] + combined[..1], block)
  }
}
