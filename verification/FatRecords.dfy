/** Directory records: 32 bytes each, one after another in the bytes of a directory's chain. */
module FatRecords {
  import opened Bits
  import opened FatWords
  import opened FatFiles

  /** A directory entry's first cluster, length and kind. */
  datatype Dirent = Dirent(cluster: nat, size: nat, isDir: bool)

  const DELETED: Byte := 0xe5
  const DOT: Byte := 0x2e
  const SPACE: Byte := 0x20

  /** The `j`-th record; past the end, one that ends the directory. */
  function Record(raw: seq<Byte>, j: nat): (e: seq<Byte>)
    ensures |e| == 32
  {
    if 32 * j + 32 <= |raw| then raw[32 * j..32 * j + 32] else seq(32, i => 0)
  }

  /** What `fat_create` may write over. */
  predicate Free(e: seq<Byte>)
    requires |e| == 32
  {
    e[0] == 0 || e[0] == DELETED
  }

  /** What a lookup sees: neither free, nor part of a long name, nor the volume label. */
  predicate Live(e: seq<Byte>)
    requires |e| == 32
  {
    !Free(e) && e[11] / 8 % 2 == 0
  }

  /** What `dir_find` makes of a record. */
  function Decoded(e: seq<Byte>): Dirent
    requires |e| == 32
  {
    var c := Rd16(e, 20) * 65536 + Rd16(e, 26);
    Dirent(if c < 2 then 0 else c, Rd32(e, 28), e[11] / 16 % 2 == 1)
  }

  /** First cluster and length put into a record, as `dir_writeback` does. */
  function Updated(e: seq<Byte>, cluster: nat, size: nat): (r: seq<Byte>)
    requires |e| == 32
    ensures |r| == 32
  {
    Wr16(Wr16(Wr32(e, 28, size), 20, cluster / 65536 % 65536), 26, cluster % 65536)
  }

  /** The other bytes of the record stay, and what was put in is what a lookup finds. */
  lemma {:induction false} UpdatedIs(e: seq<Byte>, cluster: nat, size: nat)
    requires |e| == 32 && cluster < WORD && cluster != 1 && size < WORD
    ensures Decoded(Updated(e, cluster, size)) == Dirent(cluster, size, Decoded(e).isDir)
    ensures forall i :: 0 <= i < 32 && !(20 <= i < 22) && !(26 <= i < 32) ==> Updated(e, cluster, size)[i] == e[i]
  {
    hide Rd32, Wr32, Rd16, Wr16;
    var hi, lo := cluster / 65536 % 65536, cluster % 65536;
    var a := Wr32(e, 28, size);
    var b := Wr16(a, 20, hi);
    var c := Wr16(b, 26, lo);
    RdWr(e, 28, size, 28);
    Rd16Wr16(a, 20, hi);
    Rd16Wr16(b, 26, lo);
    SameRead(a, b, 28);
    SameRead(b, c, 28);
    SamePair(b, c, 20);
    assert cluster == 65536 * hi + lo;
  }

  lemma {:induction false} SameRead(s: seq<Byte>, r: seq<Byte>, o: nat)
    requires |r| == |s| && o + 4 <= |s| && forall i :: o <= i < o + 4 ==> r[i] == s[i]
    ensures Rd32(r, o) == Rd32(s, o)
  {
  }

  lemma {:induction false} SamePair(s: seq<Byte>, r: seq<Byte>, o: nat)
    requires |r| == |s| && o + 2 <= |s| && forall i :: o <= i < o + 2 ==> r[i] == s[i]
    ensures Rd16(r, o) == Rd16(s, o)
  {
  }

  /** The record of a new file. */
  function NewFile(name: seq<Byte>): (e: seq<Byte>)
    requires |name| == 11
    ensures |e| == 32 && forall i :: 0 <= i < 32 ==> e[i] == if i < 11 then name[i] else if i == 11 then 0x20 else 0
  {
    seq(32, i requires 0 <= i < 32 => if i < 11 then name[i] else if i == 11 then 0x20 else 0)
  }

  lemma {:induction false} NewFileIs(name: seq<Byte>)
    requires |name| == 11 && name[0] != 0
    ensures Decoded(NewFile(name)) == Dirent(0, 0, false) && NewFile(name)[0] == name[0]
    ensures Live(NewFile(name)) <==> name[0] != DELETED
  {
    hide Rd32, Rd16, NewFile;
    var e := NewFile(name);
    assert e[0] == name[0] && e[11] == 0x20;
    ZeroWord(e, 28);
    ZeroPair(e, 20);
    ZeroPair(e, 26);
  }

  lemma {:induction false} ZeroWord(s: seq<Byte>, o: nat)
    requires o + 4 <= |s| && forall i :: o <= i < o + 4 ==> s[i] == 0
    ensures Rd32(s, o) == 0
  {
  }

  lemma {:induction false} ZeroPair(s: seq<Byte>, o: nat)
    requires o + 2 <= |s| && forall i :: o <= i < o + 2 ==> s[i] == 0
    ensures Rd16(s, o) == 0
  {
  }

  // ---- names ----

  /** `short_name`: the bytes before the first space, and the extension behind a dot. */
  function ShortName(e: seq<Byte>): seq<Byte>
    requires |e| == 32
  {
    Before(e[..8], SPACE) + if e[8] == SPACE then [] else [DOT] + Before(e[8..11], SPACE)
  }

  function Before(s: seq<Byte>, b: Byte): (r: seq<Byte>)
    ensures |r| <= |s|
  {
    if s == [] || s[0] == b then [] else [s[0]] + Before(s[1..], b)
  }

  /** The names that `fat_unlink` passes over: "." and "..". A string ends at its first zero. */
  predicate Dots(e: seq<Byte>)
    requires |e| == 32
  {
    var name := Before(ShortName(e), 0);
    name == [DOT] || name == [DOT, DOT]
  }

  /** The two records every directory but the root begins with. */
  function DotRecord(two: bool, cluster: nat): (e: seq<Byte>)
    ensures |e| == 32
  {
    var name: seq<Byte> := [DOT, if two then DOT else SPACE] + seq(9, i => SPACE);
    Wr16(Wr16(name + [0x10] + seq(20, i => 0), 20, cluster / 65536 % 65536), 26, cluster % 65536)
  }

  lemma {:induction false} DotRecordIs(two: bool, cluster: nat)
    ensures Live(DotRecord(two, cluster)) && Dots(DotRecord(two, cluster))
  {
    var e := DotRecord(two, cluster);
    assert e[0] == DOT && e[8] == SPACE && e[11] == 0x10 && e[2] == SPACE;
    BeforeUnfold(e[..8], SPACE);
    BeforeUnfold(e[1..8], SPACE);
    BeforeUnfold(e[2..8], SPACE);
    assert e[..8][1..] == e[1..8] && e[1..8][1..] == e[2..8];
    var n := if two then [DOT, DOT] else [DOT];
    assert ShortName(e) == n;
    BeforeUnfold(n, 0);
    BeforeUnfold(n[1..], 0);
    if two { BeforeUnfold(n[1..][1..], 0); assert n[1..] == [DOT]; }
  }

  /** The first sector of a new directory. */
  function DotSector(own: nat, parent: nat): (x: seq<Byte>)
    ensures |x| == SECTOR
  {
    DotRecord(false, own) + DotRecord(true, parent) + seq(448, i => 0)
  }

  /** A file's record turned into a directory's. */
  function MadeDir(e: seq<Byte>, cluster: nat): (r: seq<Byte>)
    requires |e| == 32
    ensures |r| == 32
  {
    Updated(e[11 := 0x10], cluster, 0)
  }

  lemma {:induction false} MadeDirIs(e: seq<Byte>, cluster: nat)
    requires |e| == 32 && 2 <= cluster < WORD
    ensures Decoded(MadeDir(e, cluster)) == Dirent(cluster, 0, true)
  {
    hide Updated, Rd32, Rd16;
    UpdatedIs(e[11 := 0x10], cluster, 0);
  }

  lemma {:induction false} MadeDirLive(e: seq<Byte>, cluster: nat)
    requires |e| == 32 && !Free(e)
    ensures Live(MadeDir(e, cluster)) && MadeDir(e, cluster)[0] == e[0]
  {
  }

  lemma {:induction false} BeforeUnfold(s: seq<Byte>, b: Byte)
    ensures Before(s, b) == if s == [] || s[0] == b then [] else [s[0]] + Before(s[1..], b)
  {
  }

  // ---- changing one record ----

  /** Bytes written inside one record change that record and no other. */
  lemma {:induction false} RecordOver(raw: seq<Byte>, j: nat, b: nat, x: seq<Byte>, i: nat)
    requires 32 * j + 32 <= |raw| && b + |x| <= 32
    ensures Record(Over(raw, 32 * j + b, x), j) == Over(Record(raw, j), b, x)
    ensures i != j ==> Record(Over(raw, 32 * j + b, x), i) == Record(raw, i)
  {
  }

  /** Nothing follows a record that ends the directory. */
  ghost predicate Packed(raw: seq<Byte>, n: nat)
  {
    forall i, j :: 0 <= i < j < n && Record(raw, i)[0] == 0 ==> Record(raw, j)[0] == 0
  }

  /** The records that `fat_dirent` counts, from the `j`-th on. */
  function Listed(raw: seq<Byte>, j: nat, n: nat): (l: seq<nat>)
    decreases n - j
  {
    if j >= n || Record(raw, j)[0] == 0 then []
    else (if Live(Record(raw, j)) then [j] else []) + Listed(raw, j + 1, n)
  }

  /** They are the live ones. */
  lemma {:induction false} ListedIff(raw: seq<Byte>, j: nat, n: nat, i: nat)
    requires Packed(raw, n) && i < n
    ensures i in Listed(raw, j, n) <==> j <= i && Live(Record(raw, i))
    decreases n - j
  {
    hide Record, Packed;
    if j < n {
      if Record(raw, j)[0] == 0 {
        EndsThere(raw, j, n, i);
      } else {
        ListedIff(raw, j + 1, n, i);
      }
    }
  }

  lemma {:induction false} EndsThere(raw: seq<Byte>, j: nat, n: nat, i: nat)
    requires Packed(raw, n) && i < n && Record(raw, j)[0] == 0
    ensures j <= i ==> !Live(Record(raw, i))
  {
    hide Record;
  }

  lemma {:induction false} ListedInside(raw: seq<Byte>, j: nat, n: nat, i: nat)
    requires i in Listed(raw, j, n)
    ensures j <= i < n
    decreases n - j
  {
    if i in Listed(raw, j + 1, n) { ListedInside(raw, j + 1, n, i); }
  }

  /** No record a program would call an entry. */
  predicate Bare(raw: seq<Byte>, n: nat)
  {
    forall i :: i in Listed(raw, 0, n) ==> Dots(Record(raw, i))
  }

  /** None of the first `n` records may be written over. */
  ghost predicate NoneFree(raw: seq<Byte>, n: nat)
  {
    forall j :: 0 <= j < n ==> !Free(Record(raw, j))
  }

  // ---- counting the records ----

  /** The records up to the `j`-th have been passed, and `seen` of them listed. */
  ghost predicate Passed(raw: seq<Byte>, j: nat, n: nat, seen: nat)
  {
    seen <= |Listed(raw, 0, n)| && Listed(raw, 0, n)[seen..] == Listed(raw, j, n)
  }

  lemma {:induction false} PassNone(raw: seq<Byte>, n: nat)
    ensures Passed(raw, 0, n, 0)
  {
  }

  lemma {:induction false} PassOne(raw: seq<Byte>, j: nat, n: nat, seen: nat)
    requires Passed(raw, j, n, seen) && j < n
    ensures Record(raw, j)[0] == 0 ==> |Listed(raw, 0, n)| == seen
    ensures Record(raw, j)[0] != 0 && !Live(Record(raw, j)) ==> Passed(raw, j + 1, n, seen)
    ensures Live(Record(raw, j)) ==>
        seen < |Listed(raw, 0, n)| && Listed(raw, 0, n)[seen] == j && Passed(raw, j + 1, n, seen + 1)
  {
    hide Record;
    var l := Listed(raw, 0, n);
    if Live(Record(raw, j)) {
      assert l[seen..] == [j] + Listed(raw, j + 1, n);
      assert l[seen] == l[seen..][0];
      assert l[seen + 1..] == l[seen..][1..];
    }
  }

  lemma {:induction false} PassAll(raw: seq<Byte>, n: nat, seen: nat)
    requires Passed(raw, n, n, seen)
    ensures |Listed(raw, 0, n)| == seen
  {
  }
}
