/** FAT entries in the bytes of a sector: `rd32`, `wr32` and the 28 bits that count. */
module FatWords {
  import opened Bits

  const SECTOR: nat := 512
  const LOW: nat := 0x1000_0000
  const WORD: nat := 0x1_0000_0000

  /** Values from here on end a chain. */
  const EOC: nat := 0x0fff_fff8

  function Four(a: int, b: int, c: int, d: int): int
  {
    a + 256 * b + 65536 * c + 16777216 * d
  }

  function Rd32(s: seq<Byte>, o: nat): (v: nat)
    requires o + 4 <= |s|
    ensures v < WORD
  {
    Four(s[o], s[o + 1], s[o + 2], s[o + 3])
  }

  function Wr32(s: seq<Byte>, o: nat, v: nat): (r: seq<Byte>)
    requires o + 4 <= |s|
    ensures |r| == |s| && forall i :: 0 <= i < |s| && !(o <= i < o + 4) ==> r[i] == s[i]
  {
    s[o := v % 256][o + 1 := v / 256 % 256][o + 2 := v / 65536 % 256][o + 3 := v / 16777216 % 256]
  }

  lemma {:induction false} FourBack(v: nat)
    requires v < WORD
    ensures Four(v % 256, v / 256 % 256, v / 65536 % 256, v / 16777216 % 256) == v
  {
    var a, b, c := v / 256, v / 65536, v / 16777216;
    assert v == 256 * a + v % 256;
    assert a == 256 * (a / 256) + a % 256 && a / 256 == b;
    assert b == 256 * (b / 256) + b % 256 && b / 256 == c;
    assert c < 256 && c % 256 == c;
  }

  /** What is written is read; entries elsewhere are as they were. */
  lemma {:induction false} RdWr(s: seq<Byte>, o: nat, v: nat, p: nat)
    requires o + 4 <= |s| && p + 4 <= |s| && v < WORD
    ensures Rd32(Wr32(s, o, v), o) == v
    ensures p + 4 <= o || o + 4 <= p ==> Rd32(Wr32(s, o, v), p) == Rd32(s, p)
  {
    hide Four;
    FourBack(v);
    var r := Wr32(s, o, v);
    assert r[o] == v % 256 && r[o + 1] == v / 256 % 256 && r[o + 2] == v / 65536 % 256
        && r[o + 3] == v / 16777216 % 256;
  }

  function Rd16(s: seq<Byte>, o: nat): (v: nat)
    requires o + 2 <= |s|
    ensures v < 65536
  {
    Four(s[o], s[o + 1], 0, 0)
  }

  function Wr16(s: seq<Byte>, o: nat, v: nat): (r: seq<Byte>)
    requires o + 2 <= |s|
    ensures |r| == |s| && forall i :: 0 <= i < |s| && !(o <= i < o + 2) ==> r[i] == s[i]
  {
    s[o := v % 256][o + 1 := v / 256 % 256]
  }

  lemma {:induction false} Rd16Wr16(s: seq<Byte>, o: nat, v: nat)
    requires o + 2 <= |s| && v < 65536
    ensures Rd16(Wr16(s, o, v), o) == v
  {
    assert v == 256 * (v / 256) + v % 256 && v / 256 % 256 == v / 256;
  }

  /** `w & 0x0fffffff` */
  function Low(w: nat): (v: nat)
    ensures v < LOW
  {
    w % LOW
  }

  /** `(w & 0xf0000000) | (v & 0x0fffffff)` */
  function SetLow(w: nat, v: nat): (r: nat)
  {
    w / LOW * LOW + v % LOW
  }

  lemma {:induction false} SetLowIs(w: nat, v: nat)
    requires w < WORD
    ensures SetLow(w, v) < WORD && Low(SetLow(w, v)) == v % LOW && SetLow(w, v) / LOW == w / LOW
  {
    DivUnique(SetLow(w, v), LOW, w / LOW, v % LOW);
  }

  // ---- one copy of the table ----

  /** A copy holds entries for clusters below `total`. */
  ghost predicate CopyOk(fat: seq<seq<Byte>>, total: nat)
  {
    total <= 128 * |fat| && forall i :: 0 <= i < |fat| ==> |fat[i]| == SECTOR
  }

  function Entry(fat: seq<seq<Byte>>, c: nat): (v: nat)
    requires c / 128 < |fat| && |fat[c / 128]| == SECTOR
    ensures v < WORD
  {
    Rd32(fat[c / 128], c % 128 * 4)
  }

  /** One entry rewritten in its sector, the reserved bits kept. */
  function PutEntry(fat: seq<seq<Byte>>, c: nat, v: nat): (r: seq<seq<Byte>>)
    requires c / 128 < |fat| && |fat[c / 128]| == SECTOR
    ensures |r| == |fat|
  {
    var sec: seq<Byte> := Wr32(fat[c / 128], c % 128 * 4, SetLow(Entry(fat, c), v));
    fat[c / 128 := sec]
  }

  lemma {:induction false} PutEntryIs(fat: seq<seq<Byte>>, total: nat, c: nat, v: nat)
    requires CopyOk(fat, total) && c < total
    ensures CopyOk(PutEntry(fat, c, v), total)
    ensures Low(Entry(PutEntry(fat, c, v), c)) == v % LOW && Entry(PutEntry(fat, c, v), c) / LOW == Entry(fat, c) / LOW
    ensures forall e :: 0 <= e < total && e != c ==> Entry(PutEntry(fat, c, v), e) == Entry(fat, e)
  {
    hide Rd32, Wr32, SetLow, Low;
    var s, o := fat[c / 128], c % 128 * 4;
    SetLowIs(Entry(fat, c), v);
    var w := SetLow(Entry(fat, c), v);
    RdWr(s, o, w, o);
    var r := PutEntry(fat, c, v);
    forall e | 0 <= e < total && e != c ensures Entry(r, e) == Entry(fat, e) {
      if e / 128 == c / 128 {
        assert e % 128 != c % 128;
        RdWr(s, o, w, e % 128 * 4);
      }
    }
  }

  // ---- products ----

  lemma {:induction false} NextBase(k: nat, spc: nat)
    ensures (k + 1) * spc == k * spc + spc
  {
  }

  lemma {:induction false} BaseMono(a: nat, b: nat, spc: nat)
    requires a <= b
    ensures a * spc <= b * spc
  {
  }
}
