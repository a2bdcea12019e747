/** Directories of a volume: what the records in their bytes say is what the volume's entries are. */
module FatDirs {
  import opened Bits
  import opened FatWords
  import opened FatChains
  import opened FatFiles
  import opened FatRecords
  import opened FatState
  import opened FatDisk

  // ---- places of records ----

  /** Where the `j`-th record of a chain is on the device, counted in records. */
  function KeyAt(g: Layout, ch: seq<nat>, j: nat): nat
  {
    if g.spc > 0 && j / 16 / g.spc < |ch| && ch[j / 16 / g.spc] >= 2
    then DataSector(g, ch[j / 16 / g.spc], j / 16 % g.spc) * 16 + j % 16
    else 0
  }

  /** How many records a chain has room for. */
  function Slots(g: Layout, ch: seq<nat>): nat
  {
    16 * (|ch| * g.spc)
  }

  lemma {:induction false} Parts(g: Layout, n: nat, j: nat)
    requires j < 16 * (n * g.spc)
    ensures g.spc > 0 && j / 16 / g.spc < n && j / 16 % g.spc < g.spc
    ensures j == 16 * (j / 16 / g.spc * g.spc + j / 16 % g.spc) + j % 16
  {
    var q := j / 16;
    if g.spc > 0 {
      assert q == q / g.spc * g.spc + q % g.spc;
      if q / g.spc >= n { BaseMono(n, q / g.spc, g.spc); }
    }
  }

  lemma {:induction false} Whole(g: Layout, n: nat, k: nat, s: nat, i: nat)
    requires k < n && s < g.spc && i < 16
    ensures var j := 16 * (k * g.spc + s) + i;
            j < 16 * (n * g.spc) && j / 16 / g.spc == k && j / 16 % g.spc == s && j % 16 == i
  {
    var j := 16 * (k * g.spc + s) + i;
    NextBase(k, g.spc);
    BaseMono(k + 1, n, g.spc);
    assert j / 16 == k * g.spc + s;
    DivUnique(j / 16, g.spc, k, s);
  }

  /** The place of a record in cluster, sector and number. */
  lemma {:induction false} KeyIs(g: Layout, ch: seq<nat>, j: nat) returns (k: nat, s: nat, i: nat)
    requires j < Slots(g, ch) && forall k :: 0 <= k < |ch| ==> ch[k] >= 2
    ensures k < |ch| && s < g.spc && i < 16 && j == 16 * (k * g.spc + s) + i
    ensures KeyAt(g, ch, j) == DataSector(g, ch[k], s) * 16 + i
  {
    Parts(g, |ch|, j);
    k, s, i := j / 16 / g.spc, j / 16 % g.spc, j % 16;
  }

  lemma {:induction false} KeySplit(a: nat, i: nat, b: nat, j: nat)
    requires i < 16 && j < 16 && a * 16 + i == b * 16 + j
    ensures a == b && i == j
  {
  }

  /** Chains that share no cluster share no record. */
  lemma {:induction false} KeysApart(v: V, g: Layout, d: nat, j: nat, e: nat, l: nat)
    requires Sound(v, g.spc) && d in v.chains && e in v.chains && j < Slots(g, v.chains[d]) && l < Slots(g, v.chains[e])
    requires KeyAt(g, v.chains[d], j) == KeyAt(g, v.chains[e], l)
    ensures d == e && j == l
  {
    hide KeyAt, DataSector, Sound, Slots;
    var a, b := v.chains[d], v.chains[e];
    Linked2(v, g, d);
    Linked2(v, g, e);
    var k, s, i := KeyIs(g, a, j);
    var m, r, h := KeyIs(g, b, l);
    KeySplit(DataSector(g, a[k], s), i, DataSector(g, b[m], r), h);
    SectorsApart(g, a[k], s, b[m], r);
    SameCluster(v, g, d, k, e, m);
  }

  lemma {:induction false} SameCluster(v: V, g: Layout, d: nat, k: nat, e: nat, m: nat)
    requires Sound(v, g.spc) && d in v.chains && e in v.chains && k < |v.chains[d]| && m < |v.chains[e]|
    requires v.chains[d][k] == v.chains[e][m]
    ensures d == e && k == m
  {
    if d != e { OneOwner(v, g.spc, d, k, e); assert false; }
    ChainDistinct(v, g.spc, d);
  }

  lemma {:induction false} Linked2(v: V, g: Layout, d: nat)
    requires Sound(v, g.spc) && d in v.chains
    ensures forall k :: 0 <= k < |v.chains[d]| ==> 2 <= v.chains[d][k] < |v.t|
  {
    ChainDistinct(v, g.spc, d);
    forall k | 0 <= k < |v.chains[d]| ensures 2 <= v.chains[d][k] < |v.t| { assert LinkOk(v.t, v.chains[d], k); }
  }

  lemma {:induction false} KeyPositive(g: Layout, ch: seq<nat>, j: nat)
    requires j < Slots(g, ch) && FirstData(g) > 0 && forall k :: 0 <= k < |ch| ==> ch[k] >= 2
    ensures KeyAt(g, ch, j) != ROOT
  {
    hide KeyAt, Slots, DataSector;
    var k, s, i := KeyIs(g, ch, j);
    AfterTable(g, ch[k], s);
  }

  lemma {:induction false} AfterTable(g: Layout, c: nat, s: nat)
    requires c >= 2
    ensures DataSector(g, c, s) >= FirstData(g)
  {
  }

  // ---- directories in order ----

  ghost predicate IsDir(v: V, d: nat)
  {
    d in v.chains && (d == ROOT || (d in v.dir && v.dir[d].isDir))
  }

  ghost function DirBytes(v: V, d: nat): seq<Byte>
  {
    if d in v.chains && Inside(v.chains[d], |v.data|) then RawOf(v, d) else []
  }

  /** A record and what the volume says about its place. A directory's own two records, `own`,
      are no entries. */
  ghost predicate RecordOk(dir: map<nat, Dirent>, key: nat, e: seq<Byte>, own: bool)
    requires |e| == 32
  {
    if own then Live(e) && Dots(e) && key !in dir
    else (key in dir <==> Live(e)) && (key in dir ==> dir[key] == Decoded(e))
  }

  /** The records of one directory. */
  ghost predicate DirOk(dir: map<nat, Dirent>, raw: seq<Byte>, ch: seq<nat>, root: bool, g: Layout)
  {
    Packed(raw, Slots(g, ch))
    && forall j :: 0 <= j < Slots(g, ch) ==> RecordOk(dir, KeyAt(g, ch, j), Record(raw, j), !root && j < 2)
  }

  /** Entry `key` is the `j`-th record of directory `d`. */
  ghost predicate Lies(v: V, g: Layout, d: nat, j: nat, key: nat)
  {
    IsDir(v, d) && j < Slots(g, v.chains[d]) && KeyAt(g, v.chains[d], j) == key
  }

  ghost predicate Homed(v: V, g: Layout, key: nat)
  {
    exists d, j :: Lies(v, g, d, j, key)
  }

  /** Every directory's records are the entries, and every entry is a record of some directory. */
  ghost predicate Dirs(v: V, g: Layout)
  {
    FirstData(g) > 0 && ROOT in v.chains && v.chains[ROOT] != [] && v.chains[ROOT][0] == g.root
    && (forall d {:trigger IsDir(v, d)} :: IsDir(v, d) ==> DirOk(v.dir, DirBytes(v, d), v.chains[d], d == ROOT, g))
    && forall key {:trigger Homed(v, g, key)} :: key in v.dir ==> Homed(v, g, key)
  }

  // ---- what does not touch a directory ----

  /** The directories of `v` are where they were, with the bytes they had. */
  ghost predicate DirsSame(v: V, w: V)
  {
    forall d :: IsDir(v, d) ==> d in w.chains && w.chains[d] == v.chains[d] && DirBytes(w, d) == DirBytes(v, d)
  }

  lemma {:induction false} DirsKept(v: V, w: V, g: Layout)
    requires Dirs(v, g) && w.dir == v.dir && DirsSame(v, w) && forall d :: IsDir(w, d) ==> IsDir(v, d)
    ensures Dirs(w, g)
  {
    hide DirOk, KeyAt, Slots, DirBytes;
    forall key | key in w.dir ensures Homed(w, g, key) {
      var d, j := HomeOf(v, g, key);
      assert Lies(w, g, d, j, key);
    }
  }

  lemma {:induction false} OthersSame(v: V, w: V, o: nat, spc: nat)
    requires Sound(v, spc) && Sound(w, spc) && Others(v, w, o) && !IsDir(v, o)
    ensures DirsSame(v, w)
  {
    hide RawOf, Well;
  }

  // ---- one record changes ----

  /** Every record but one is as it was. */
  ghost predicate OneRecord(v: V, w: V, g: Layout, key: nat)
  {
    forall d, j :: IsDir(v, d) && d in w.chains && 0 <= j < Slots(g, v.chains[d]) && KeyAt(g, v.chains[d], j) != key ==>
      Record(DirBytes(w, d), j) == Record(DirBytes(v, d), j)
  }

  /** The entries after record `key` has become `e`. */
  ghost function Entered(dir: map<nat, Dirent>, key: nat, e: seq<Byte>): map<nat, Dirent>
    requires |e| == 32
  {
    if Live(e) then dir[key := Decoded(e)] else dir - {key}
  }

  /** The records of the directory that was written to. */
  lemma {:induction false} ThisDir(dir: map<nat, Dirent>, raw: seq<Byte>, ch: seq<nat>, root: bool, g: Layout, j: nat,
      b: nat, x: seq<Byte>)
    requires DirOk(dir, raw, ch, root, g) && j < Slots(g, ch) && (root || j >= 2) && b + |x| <= 32
    requires 32 * j + 32 <= |raw|
    requires forall l :: 0 <= l < Slots(g, ch) && l != j ==> KeyAt(g, ch, l) != KeyAt(g, ch, j)
    requires Over(Record(raw, j), b, x)[0] != 0 && forall i :: 0 <= i < j ==> Record(raw, i)[0] != 0
    ensures DirOk(Entered(dir, KeyAt(g, ch, j), Over(Record(raw, j), b, x)), Over(raw, 32 * j + b, x), ch, root, g)
  {
    hide KeyAt, Slots, Live, Decoded, Dots, Record;
    var e := Over(Record(raw, j), b, x);
    var after, dir' := Over(raw, 32 * j + b, x), Entered(dir, KeyAt(g, ch, j), e);
    forall l | 0 <= l < Slots(g, ch)
      ensures RecordOk(dir', KeyAt(g, ch, l), Record(after, l), !root && l < 2)
      ensures Record(after, l) == if l == j then e else Record(raw, l)
    {
      RecordOver(raw, j, b, x, l);
      assert RecordOk(dir, KeyAt(g, ch, l), Record(raw, l), !root && l < 2);
    }
  }

  /** The records of another. */
  lemma {:induction false} OtherDir(dir: map<nat, Dirent>, raw: seq<Byte>, ch: seq<nat>, root: bool, g: Layout,
      key: nat, e: seq<Byte>)
    requires DirOk(dir, raw, ch, root, g) && |e| == 32
    requires forall l :: 0 <= l < Slots(g, ch) ==> KeyAt(g, ch, l) != key
    ensures DirOk(Entered(dir, key, e), raw, ch, root, g)
  {
    hide KeyAt, Slots, Live, Decoded, Dots, Packed;
    var dir' := Entered(dir, key, e);
    forall l | 0 <= l < Slots(g, ch) ensures RecordOk(dir', KeyAt(g, ch, l), Record(raw, l), !root && l < 2) {
      assert RecordOk(dir, KeyAt(g, ch, l), Record(raw, l), !root && l < 2);
    }
  }

  /** One record of directory `d` has been rewritten, with no end of the directory before it; the
      directories, but for the one whose entry it may be, are where they were. */
  ghost predicate Rewrites(v: V, w: V, g: Layout, d: nat, j: nat, b: nat, x: seq<Byte>)
  {
    Sound(v, g.spc) && IsDir(v, d) && j < Slots(g, v.chains[d]) && (d == ROOT || j >= 2) && b + |x| <= 32
    && d != KeyAt(g, v.chains[d], j)
    && 32 * j + 32 <= |DirBytes(v, d)| && DirBytes(w, d) == Over(DirBytes(v, d), 32 * j + b, x)
    && Over(Record(DirBytes(v, d), j), b, x)[0] != 0
    && (forall i :: 0 <= i < j ==> Record(DirBytes(v, d), i)[0] != 0)
    && (IsDir(v, KeyAt(g, v.chains[d], j)) ==> KeyAt(g, v.chains[d], j) !in w.chains)
    && (forall p :: IsDir(v, p) && p != KeyAt(g, v.chains[d], j) ==> p in w.chains && w.chains[p] == v.chains[p])
    && (forall p :: IsDir(v, p) && p != KeyAt(g, v.chains[d], j) && p != d ==> DirBytes(w, p) == DirBytes(v, p))
  }

  lemma {:induction false} Rewritten(v: V, w: V, g: Layout, d: nat, j: nat, b: nat, x: seq<Byte>)
    requires Dirs(v, g) && Rewrites(v, w, g, d, j, b, x)
    requires w.dir == Entered(v.dir, KeyAt(g, v.chains[d], j), Over(Record(DirBytes(v, d), j), b, x))
    ensures forall p :: IsDir(v, p) && p != KeyAt(g, v.chains[d], j) ==>
        DirOk(w.dir, DirBytes(w, p), w.chains[p], p == ROOT, g)
    ensures OneRecord(v, w, g, KeyAt(g, v.chains[d], j))
  {
    hide KeyAt, Slots, Live, Decoded, DirBytes, DirOk, Record, Sound;
    var key, e := KeyAt(g, v.chains[d], j), Over(Record(DirBytes(v, d), j), b, x);
    forall p | IsDir(v, p) && p != key ensures DirOk(w.dir, DirBytes(w, p), w.chains[p], p == ROOT, g) {
      forall l | 0 <= l < Slots(g, v.chains[p]) && (p != d || l != j) ensures KeyAt(g, v.chains[p], l) != key {
        if KeyAt(g, v.chains[p], l) == key { KeysApart(v, g, p, l, d, j); }
      }
      if p == d { ThisDir(v.dir, DirBytes(v, d), v.chains[d], d == ROOT, g, j, b, x); }
      else { OtherDir(v.dir, DirBytes(v, p), v.chains[p], p == ROOT, g, key, e); }
    }
    forall p, l | IsDir(v, p) && p in w.chains && 0 <= l < Slots(g, v.chains[p]) && KeyAt(g, v.chains[p], l) != key
      ensures Record(DirBytes(w, p), l) == Record(DirBytes(v, p), l)
    {
      if p == d { RecordOver(DirBytes(v, d), j, b, x, l); }
    }
  }

  /** A record is rewritten, and the directories are the ones they were. */
  lemma {:induction false} DirsRewritten(v: V, w: V, g: Layout, d: nat, j: nat, b: nat, x: seq<Byte>)
    requires Dirs(v, g) && Rewrites(v, w, g, d, j, b, x)
    requires w.dir == Entered(v.dir, KeyAt(g, v.chains[d], j), Over(Record(DirBytes(v, d), j), b, x))
    requires !IsDir(v, KeyAt(g, v.chains[d], j)) && KeyAt(g, v.chains[d], j) != ROOT
    requires forall p :: IsDir(w, p) <==> IsDir(v, p)
    ensures Dirs(w, g) && OneRecord(v, w, g, KeyAt(g, v.chains[d], j))
  {
    hide KeyAt, Slots, Live, Decoded, DirBytes, DirOk, Record, Sound;
    Rewritten(v, w, g, d, j, b, x);
    forall key | key in w.dir ensures Homed(w, g, key) {
      if key == KeyAt(g, v.chains[d], j) {
        assert Lies(w, g, d, j, key);
      } else {
        var p, l := HomeOf(v, g, key);
        assert Lies(w, g, p, l, key);
      }
    }
  }

  // ---- a directory comes ----

  /** The bytes of a directory of one cluster that holds its own two records. */
  ghost predicate Fresh2(raw: seq<Byte>, n: nat)
  {
    n >= 2 && Live(Record(raw, 0)) && Dots(Record(raw, 0)) && Live(Record(raw, 1)) && Dots(Record(raw, 1))
    && forall j :: 2 <= j < n ==> Record(raw, j)[0] == 0
  }

  lemma {:induction false} FreshOk(dir: map<nat, Dirent>, raw: seq<Byte>, ch: seq<nat>, g: Layout)
    requires Fresh2(raw, Slots(g, ch)) && forall j :: 0 <= j < Slots(g, ch) ==> KeyAt(g, ch, j) !in dir
    ensures DirOk(dir, raw, ch, false, g)
  {
    hide KeyAt, Slots, Decoded, Dots, Record;
  }

  /** An entry's record becomes a directory's. */
  lemma {:induction false} DirsMade(v: V, w: V, g: Layout, d: nat, j: nat, b: nat, x: seq<Byte>, o: nat)
    requires Dirs(v, g) && Rewrites(v, w, g, d, j, b, x) && o == KeyAt(g, v.chains[d], j)
    requires w.dir == Entered(v.dir, o, Over(Record(DirBytes(v, d), j), b, x))
    requires o in w.chains && !IsDir(v, o) && o != ROOT && forall p :: IsDir(w, p) <==> IsDir(v, p) || p == o
    requires DirOk(w.dir, DirBytes(w, o), w.chains[o], o == ROOT, g)
    ensures Dirs(w, g) && OneRecord(v, w, g, o)
  {
    hide KeyAt, Slots, Live, Decoded, DirBytes, DirOk, Record, Sound;
    Rewritten(v, w, g, d, j, b, x);
    StillHomed(v, w, g, d, j, o);
  }

  lemma {:induction false} StillHomed(v: V, w: V, g: Layout, d: nat, j: nat, o: nat)
    requires Lies(v, g, d, j, o)
    requires forall p :: IsDir(v, p) ==> IsDir(w, p) && p in w.chains && w.chains[p] == v.chains[p]
    requires forall key {:trigger Homed(v, g, key)} :: key in v.dir ==> Homed(v, g, key)
    ensures forall key :: key in v.dir || key == o ==> Homed(w, g, key)
  {
    hide KeyAt, Slots;
    forall key | key in v.dir || key == o ensures Homed(w, g, key) {
      if key == o {
        assert Lies(w, g, d, j, key);
      } else {
        assert Homed(v, g, key);
        var p, l :| Lies(v, g, p, l, key);
        assert Lies(w, g, p, l, key);
      }
    }
  }

  // ---- a directory goes ----

  /** No other entry is a record of directory `o`. */
  ghost predicate NoneElse(v: V, g: Layout, o: nat)
  {
    forall j, key :: key in v.dir && key != o ==> !Lies(v, g, o, j, key)
  }

  lemma {:induction false} DirsGone(v: V, w: V, g: Layout, d: nat, j: nat, b: nat, x: seq<Byte>, o: nat)
    requires Dirs(v, g) && Rewrites(v, w, g, d, j, b, x) && o == KeyAt(g, v.chains[d], j) && o != ROOT
    requires w.dir == Entered(v.dir, o, Over(Record(DirBytes(v, d), j), b, x)) && o !in w.dir
    requires LeftDirs(v, w, o) && (IsDir(v, o) ==> NoneElse(v, g, o))
    ensures Dirs(w, g) && OneRecord(v, w, g, o)
  {
    hide KeyAt, Slots, Live, Decoded, DirBytes, DirOk, Record, Sound;
    Rewritten(v, w, g, d, j, b, x);
    GoneHomed(v, w, g, o);
    assert IsDir(w, ROOT);
  }

  /** The directories but `o` are left, with the clusters they had. */
  ghost predicate LeftDirs(v: V, w: V, o: nat)
  {
    (forall p :: IsDir(w, p) <==> IsDir(v, p) && p != o)
    && forall p :: IsDir(v, p) && p != o ==> p in w.chains && w.chains[p] == v.chains[p]
  }

  lemma {:induction false} GoneHomed(v: V, w: V, g: Layout, o: nat)
    requires (forall key {:trigger Homed(v, g, key)} :: key in v.dir ==> Homed(v, g, key)) && LeftDirs(v, w, o)
    requires (forall key :: key in w.dir ==> key in v.dir && key != o) && (IsDir(v, o) ==> NoneElse(v, g, o))
    ensures forall key :: key in w.dir ==> Homed(w, g, key)
  {
    hide KeyAt, Slots;
    forall key | key in w.dir ensures Homed(w, g, key) {
      assert Homed(v, g, key);
      var p, l :| Lies(v, g, p, l, key);
      assert p != o;
      assert Lies(w, g, p, l, key);
    }
  }

  /** A directory whose entry was one of its own records goes with it. */
  lemma {:induction false} DirsGoneSelf(v: V, w: V, g: Layout, j: nat, o: nat)
    requires Dirs(v, g) && Sound(v, g.spc) && Lies(v, g, o, j, o) && o != ROOT && NoneElse(v, g, o)
    requires w.dir == v.dir - {o} && o !in w.chains
    requires LeftDirs(v, w, o) && forall p :: IsDir(v, p) && p != o ==> DirBytes(w, p) == DirBytes(v, p)
    ensures Dirs(w, g) && OneRecord(v, w, g, o)
  {
    hide KeyAt, Slots, DirBytes, DirOk, Record, Sound, NoneElse, Homed;
    var e := seq(32, i => 0);
    forall p | IsDir(w, p) ensures DirOk(w.dir, DirBytes(w, p), w.chains[p], p == ROOT, g) {
      forall l | 0 <= l < Slots(g, v.chains[p]) ensures KeyAt(g, v.chains[p], l) != o {
        if KeyAt(g, v.chains[p], l) == o { KeysApart(v, g, p, l, o, j); }
      }
      OtherDir(v.dir, DirBytes(v, p), v.chains[p], p == ROOT, g, o, e);
    }
    GoneHomed(v, w, g, o);
    assert IsDir(w, ROOT);
  }

  /** An entry whose directory is gone is nowhere. */
  lemma {:induction false} NotHomed(v: V, w: V, g: Layout, o: nat)
    requires Sound(v, g.spc) && IsDir(v, o) && !NoneElse(v, g, o) && w.dir == v.dir - {o} && LeftDirs(v, w, o)
    ensures !Dirs(w, g)
  {
    hide KeyAt, Slots, DirBytes, DirOk, Sound;
    var j, key :| key in v.dir && key != o && Lies(v, g, o, j, key);
    if Homed(w, g, key) {
      var p, l :| Lies(w, g, p, l, key);
      KeysApart(v, g, p, l, o, j);
    }
  }

  // ---- a directory grows ----

  /** New clusters have no entries. */
  lemma {:induction false} NoEntryYet(v: V, w: V, g: Layout, o: nat, j: nat)
    requires Dirs(v, g) && Sound(w, g.spc) && w.dir == v.dir && o in w.chains && j < Slots(g, w.chains[o])
    requires forall p :: IsDir(v, p) ==>
        p in w.chains
        && (if p == o then v.chains[p] <= w.chains[p] && Slots(g, v.chains[o]) <= j else w.chains[p] == v.chains[p])
    ensures KeyAt(g, w.chains[o], j) !in w.dir
  {
    hide KeyAt, DirBytes, DirOk, Record, Sound;
    var key := KeyAt(g, w.chains[o], j);
    if key in v.dir {
      var p, l := HomeOf(v, g, key);
      if p == o { KeyPrefix(g, v.chains[o], w.chains[o], l); }
      KeysApart(w, g, p, l, o, j);
    }
  }

  lemma {:induction false} KeyPrefix(g: Layout, a: seq<nat>, b: seq<nat>, l: nat)
    requires a <= b && l < Slots(g, a)
    ensures l < Slots(g, b) && KeyAt(g, a, l) == KeyAt(g, b, l)
  {
    hide DataSector, Slots;
    PrefixSlots(g, a, b);
    SlotsAre(g, a);
    Parts(g, |a|, l);
    assert a[l / 16 / g.spc] == b[l / 16 / g.spc];
  }

  lemma {:induction false} SlotsAre(g: Layout, a: seq<nat>)
    ensures Slots(g, a) == 16 * (|a| * g.spc)
  {
  }

  /** Directory `d` has the bytes it had and `more` behind; the others are as they were. */
  ghost predicate Grows(v: V, w: V, d: nat, more: seq<Byte>)
  {
    w.dir == v.dir && d in v.chains && d in w.chains && v.chains[d] <= w.chains[d]
    && DirBytes(w, d) == DirBytes(v, d) + more
    && (forall p :: IsDir(w, p) <==> IsDir(v, p))
    && forall p :: IsDir(v, p) && p != d ==> w.chains[p] == v.chains[p] && DirBytes(w, p) == DirBytes(v, p)
  }

  /** A directory without a free record gets a cluster of empty ones. */
  lemma {:induction false} DirsGrown(v: V, w: V, g: Layout, d: nat, more: seq<Byte>)
    requires Dirs(v, g) && Sound(v, g.spc) && Sound(w, g.spc) && IsDir(v, d) && v.chains[d] != []
    requires Grows(v, w, d, more)
    requires forall i :: 0 <= i < |more| ==> more[i] == 0
    requires forall j :: 0 <= j < Slots(g, v.chains[d]) ==> Record(DirBytes(v, d), j)[0] != 0
    ensures Dirs(w, g) && forall key :: OneRecord(v, w, g, key)
  {
    hide KeyAt, Slots, DirOk, Record, Sound, DirBytes;
    GrownRecords(v, w, g, d, more);
    GrownHomed(v, w, g, d, more);
    GrownOne(v, w, g, d, more);
    assert IsDir(v, ROOT);
  }

  lemma {:induction false} GrownOne(v: V, w: V, g: Layout, d: nat, more: seq<Byte>)
    requires IsDir(v, d) && Grows(v, w, d, more)
    requires forall j :: 0 <= j < Slots(g, v.chains[d]) ==> Record(DirBytes(w, d), j) == Record(DirBytes(v, d), j)
    ensures forall key :: OneRecord(v, w, g, key)
  {
    hide KeyAt, Slots, Record, DirBytes;
  }

  lemma {:induction false} GrownHomed(v: V, w: V, g: Layout, d: nat, more: seq<Byte>)
    requires IsDir(v, d) && Grows(v, w, d, more)
    requires forall key {:trigger Homed(v, g, key)} :: key in v.dir ==> Homed(v, g, key)
    ensures forall key :: key in w.dir ==> Homed(w, g, key)
  {
    hide KeyAt, Slots, DirBytes;
    forall key | key in w.dir ensures Homed(w, g, key) {
      assert Homed(v, g, key);
      var p, l :| Lies(v, g, p, l, key);
      if p == d { KeyPrefix(g, v.chains[d], w.chains[d], l); }
      assert Lies(w, g, p, l, key);
    }
  }

  lemma {:induction false} OthersDirs(v: V, w: V, d: nat, spc: nat)
    requires Sound(v, spc) && Sound(w, spc) && Others(v, w, d) && IsDir(v, d)
    requires w.dir == v.dir
    ensures forall p :: IsDir(w, p) <==> IsDir(v, p)
    ensures forall p :: IsDir(v, p) && p != d ==> w.chains[p] == v.chains[p] && DirBytes(w, p) == DirBytes(v, p)
  {
    hide RawOf, Well;
  }

  lemma {:induction false} InsideOf(v: V, p: nat, spc: nat)
    requires Sound(v, spc) && p in v.chains
    ensures Inside(v.chains[p], |v.data|) && DirBytes(v, p) == RawOf(v, p)
    ensures |DirBytes(v, p)| == 512 * (|v.chains[p]| * spc)
  {
    hide Well, Raw;
    RawSize(v.data, v.chains[p], |v.t|, spc);
  }

  lemma {:induction false} GrownRecords(v: V, w: V, g: Layout, d: nat, more: seq<Byte>)
    requires Dirs(v, g) && Sound(v, g.spc) && Sound(w, g.spc) && IsDir(v, d) && v.chains[d] != []
    requires Grows(v, w, d, more)
    requires forall i :: 0 <= i < |more| ==> more[i] == 0
    requires forall j :: 0 <= j < Slots(g, v.chains[d]) ==> Record(DirBytes(v, d), j)[0] != 0
    ensures DirOk(w.dir, DirBytes(w, d), w.chains[d], d == ROOT, g)
    ensures forall j :: 0 <= j < Slots(g, v.chains[d]) ==> Record(DirBytes(w, d), j) == Record(DirBytes(v, d), j)
  {
    hide KeyAt, Sound, RawOf, DirBytes, Dots, Decoded, Record, Slots;
    var n := Slots(g, v.chains[d]);
    assert DirOk(v.dir, DirBytes(v, d), v.chains[d], d == ROOT, g);
    OwnSlots(v, g, d);
    var a, b := DirBytes(v, d), DirBytes(w, d);
    forall j | 0 <= j < Slots(g, w.chains[d])
      ensures RecordOk(w.dir, KeyAt(g, w.chains[d], j), Record(b, j), d != ROOT && j < 2)
      ensures if j < n then Record(b, j) == Record(a, j) else Record(b, j)[0] == 0
    {
      RecordMore(a, more, n, j);
      if j < n {
        KeyPrefix(g, v.chains[d], w.chains[d], j);
        assert RecordOk(v.dir, KeyAt(g, v.chains[d], j), Record(a, j), d != ROOT && j < 2);
      } else {
        NoEntryYet(v, w, g, d, j);
      }
    }
    PrefixSlots(g, v.chains[d], w.chains[d]);
  }

  lemma {:induction false} PrefixSlots(g: Layout, a: seq<nat>, b: seq<nat>)
    requires a <= b
    ensures Slots(g, a) <= Slots(g, b)
  {
    BaseMono(|a|, |b|, g.spc);
  }

  lemma {:induction false} OwnSlots(v: V, g: Layout, d: nat)
    requires Sound(v, g.spc) && d in v.chains && v.chains[d] != []
    ensures Slots(g, v.chains[d]) >= 16 && |DirBytes(v, d)| == 32 * Slots(g, v.chains[d])
  {
    InsideOf(v, d, g.spc);
    BaseMono(1, |v.chains[d]|, g.spc);
  }

  lemma {:induction false} RecordMore(raw: seq<Byte>, more: seq<Byte>, n: nat, j: nat)
    requires |raw| == 32 * n && forall i :: 0 <= i < |more| ==> more[i] == 0
    ensures if j < n then Record(raw + more, j) == Record(raw, j) else Record(raw + more, j)[0] == 0
  {
  }

  // ---- a record on the device ----

  /** The `j`-th record of directory `d` is at byte `off` of sector `sec`. */
  ghost predicate Spot(v: V, g: Layout, d: nat, j: nat, sec: nat, off: nat)
  {
    IsDir(v, d) && j < Slots(g, v.chains[d]) && off % 32 == 0 && off < SECTOR
    && KeyAt(g, v.chains[d], j) == sec * 16 + off / 32
  }

  lemma {:induction false} SpotIs(v: V, g: Layout, d: nat, j: nat, sec: nat, off: nat) returns (k: nat, s: nat)
    requires Sound(v, g.spc) && Spot(v, g, d, j, sec, off)
    ensures k < |v.chains[d]| && s < g.spc && 2 <= v.chains[d][k] < |v.t| && sec == DataSector(g, v.chains[d][k], s)
    ensures 32 * j == 512 * (k * g.spc + s) + off
  {
    hide KeyAt, Slots, DataSector, Sound;
    Linked2(v, g, d);
    var i;
    k, s, i := KeyIs(g, v.chains[d], j);
    KeySplit(DataSector(g, v.chains[d][k], s), i, sec, off / 32);
  }

  /** The bytes of a record are the bytes of its sector. */
  lemma {:induction false} SectorRecord(v: V, g: Layout, d: nat, j: nat, k: nat, s: nat, off: nat)
    requires Sound(v, g.spc) && d in v.chains && k < |v.chains[d]| && s < g.spc && off + 32 <= SECTOR
    requires 32 * j == 512 * (k * g.spc + s) + off
    ensures var c := v.chains[d][k];
            c < |v.data| && s < |v.data[c]| && |v.data[c][s]| == SECTOR && 32 * j + 32 <= |DirBytes(v, d)|
            && Record(DirBytes(v, d), j) == v.data[c][s][off..off + 32]
  {
    hide Raw, Well;
    RawRun(v.data, v.chains[d], k, s, off, 32, |v.t|, g.spc);
    InsideOf(v, d, g.spc);
  }

  /** An entry's record is live, no directory's own, and nothing before it ends the directory. */
  lemma {:induction false} EntryRecord(v: V, g: Layout, d: nat, j: nat, key: nat)
    requires Dirs(v, g) && Lies(v, g, d, j, key) && key in v.dir
    ensures Live(Record(DirBytes(v, d), j)) && v.dir[key] == Decoded(Record(DirBytes(v, d), j)) && (d == ROOT || j >= 2)
    ensures forall i :: 0 <= i < j ==> Record(DirBytes(v, d), i)[0] != 0
  {
    hide KeyAt, Slots, Record, DirBytes, Decoded;
    var raw := DirBytes(v, d);
    assert DirOk(v.dir, raw, v.chains[d], d == ROOT, g);
    assert RecordOk(v.dir, KeyAt(g, v.chains[d], j), Record(raw, j), d != ROOT && j < 2);
  }

  /** Rewriting one whole record of directory `d`. */
  lemma {:induction false} RewritesOne(v: V, w: V, g: Layout, d: nat, j: nat, e: seq<Byte>)
    requires Sound(v, g.spc) && Sound(w, g.spc) && Others(v, w, d) && IsDir(v, d) && w.chains == v.chains
    requires j < Slots(g, v.chains[d]) && (d == ROOT || j >= 2) && |e| == 32 && e[0] != 0
    requires 32 * j + 32 <= |DirBytes(v, d)| && DirBytes(w, d) == Over(DirBytes(v, d), 32 * j, e)
    requires (forall i :: 0 <= i < j ==> Record(DirBytes(v, d), i)[0] != 0) && !IsDir(v, KeyAt(g, v.chains[d], j))
    ensures Rewrites(v, w, g, d, j, 0, e) && Over(Record(DirBytes(v, d), j), 0, e) == e
  {
    hide Well, RawOf, Record, Slots;
    assert Over(Record(DirBytes(v, d), j), 0, e) == e;
  }

  /** The root directory has no record. */
  lemma {:induction false} RootNoEntry(v: V, g: Layout, d: nat, j: nat)
    requires Dirs(v, g) && Sound(v, g.spc) && IsDir(v, d) && j < Slots(g, v.chains[d])
    ensures KeyAt(g, v.chains[d], j) != ROOT && v.chains[d] != []
  {
    hide KeyAt, Sound, DirBytes, DirOk, Homed;
    Linked2(v, g, d);
    KeyPositive(g, v.chains[d], j);
  }

  // ---- an entry's record is updated ----

  /** A record in its sector, rewritten in place. */
  lemma {:induction false} SectorUpdated(sec: seq<Byte>, off: nat, cluster: nat, size: nat)
    requires |sec| == SECTOR && off + 32 <= SECTOR
    ensures Wr16(Wr16(Wr32(sec, off + 28, size), off + 20, cluster / 65536 % 65536), off + 26, cluster % 65536)
         == Over(sec, off, Updated(sec[off..off + 32], cluster, size))
  {
    var hi, lo := cluster / 65536 % 65536, cluster % 65536;
    var e := sec[off..off + 32];
    assert Wr32(sec, off + 28, size) == Over(sec, off, Wr32(e, 28, size));
    assert Wr16(Over(sec, off, Wr32(e, 28, size)), off + 20, hi) == Over(sec, off, Wr16(Wr32(e, 28, size), 20, hi));
  }

  lemma {:induction false} EntryUpdated(v: V, w: V, g: Layout, d: nat, j: nat, key: nat, cluster: nat, size: nat)
    requires Dirs(v, g) && Lies(v, g, d, j, key) && key in v.dir && !v.dir[key].isDir && cluster < WORD
    requires cluster != 1 && size < WORD
    requires Sound(v, g.spc) && Sound(w, g.spc) && Others(v, w, d) && w.chains == v.chains
    requires 32 * j + 32 <= |DirBytes(v, d)|
    requires DirBytes(w, d) == Over(DirBytes(v, d), 32 * j, Updated(Record(DirBytes(v, d), j), cluster, size))
    requires w.dir == v.dir[key := Dirent(cluster, size, v.dir[key].isDir)]
    ensures Dirs(w, g) && OneRecord(v, w, g, key)
  {
    hide KeyAt, Slots, Record, DirBytes, Decoded, Updated, Sound, Others, DirOk, OneRecord, Rewrites;
    var e := Record(DirBytes(v, d), j);
    EntryRecord(v, g, d, j, key);
    UpdatedIs(e, cluster, size);
    RootNoEntry(v, g, d, j);
    RewritesOne(v, w, g, d, j, Updated(e, cluster, size));
    DirsRewritten(v, w, g, d, j, 0, Updated(e, cluster, size));
  }

  lemma {:induction false} HomeOf(v: V, g: Layout, key: nat) returns (d: nat, j: nat)
    requires Dirs(v, g) && key in v.dir
    ensures Lies(v, g, d, j, key)
  {
    assert Homed(v, g, key);
    d, j :| Lies(v, g, d, j, key);
  }

  /** Entries are no part of what `Others` compares. */
  lemma {:induction false} OthersDir(v: V, w: V, dir: map<nat, Dirent>, d: nat)
    requires Others(v, w, d)
    ensures Others(v, w.(dir := dir), d) && Others(v.(dir := dir), w.(dir := dir), d)
  {
    hide Raw;
    assert forall p :: p in v.chains && Inside(v.chains[p], |v.data|) ==> RawOf(v.(dir := dir), p) == RawOf(v, p);
    assert forall p :: p in w.chains && Inside(w.chains[p], |w.data|) ==> RawOf(w.(dir := dir), p) == RawOf(w, p);
  }

  lemma {:induction false} SameBytes(w: V, dir: map<nat, Dirent>, d: nat)
    ensures DirBytes(w.(dir := dir), d) == DirBytes(w, d)
  {
  }

  /** Changing a file leaves the directories. */
  lemma {:induction false} FileFrame(v: V, y: V, g: Layout, o: nat)
    requires Sound(v, g.spc) && Sound(y, g.spc) && Others(v, y, o) && !IsDir(v, o) && y.dir == v.dir && Dirs(v, g)
    ensures Dirs(y, g) && forall key :: OneRecord(v, y, g, key)
  {
    hide Sound, DirBytes, Slots, KeyAt, Record, RawOf, Dirs;
    OthersSame(v, y, o, g.spc);
    DirsKept(v, y, g);
  }

  lemma {:induction false} RecordsThen(v: V, w: V, x: V, g: Layout, key: nat)
    requires OneRecord(v, w, g, key) && OneRecord(w, x, g, key)
    requires forall d :: IsDir(v, d) ==> IsDir(w, d) && v.chains[d] <= w.chains[d]
    ensures OneRecord(v, x, g, key)
  {
    hide DirBytes, Slots, KeyAt, Record;
    forall d, j | IsDir(v, d) && d in x.chains && 0 <= j < Slots(g, v.chains[d]) && KeyAt(g, v.chains[d], j) != key
      ensures Record(DirBytes(x, d), j) == Record(DirBytes(v, d), j)
    {
      KeyPrefix(g, v.chains[d], w.chains[d], j);
    }
  }

  /** An entry's record is behind the table, so its sector is not 0. */
  lemma {:induction false} RecordSector(v: V, g: Layout, sec: nat, off: nat)
    requires Dirs(v, g) && Sound(v, g.spc) && sec * 16 + off / 32 in v.dir && off < SECTOR
    ensures sec > 0
  {
    hide KeyAt, Slots, Sound, Homed, DirOk, DirBytes, FirstData;
    var d, j := HomeOf(v, g, sec * 16 + off / 32);
    PlaceSector(v, g, d, j, sec, off);
  }

  lemma {:induction false} PlaceSector(v: V, g: Layout, d: nat, j: nat, sec: nat, off: nat)
    requires Dirs(v, g) && Sound(v, g.spc) && Lies(v, g, d, j, sec * 16 + off / 32) && off < SECTOR
    ensures sec > 0
  {
    hide KeyAt, Slots, DataSector, Sound, Homed, DirOk, DirBytes, FirstData;
    Linked2(v, g, d);
    var k, s, i := KeyIs(g, v.chains[d], j);
    AfterTable(g, v.chains[d][k], s);
    KeySplit(DataSector(g, v.chains[d][k], s), i, sec, off / 32);
  }

  /** A record found by its cluster, sector and number. */
  lemma {:induction false} SpotAt(v: V, g: Layout, d: nat, k: nat, s: nat, i: nat)
    requires Sound(v, g.spc) && IsDir(v, d) && k < |v.chains[d]| && s < g.spc && i < 16
    ensures v.chains[d][k] >= 2 && Spot(v, g, d, 16 * (k * g.spc + s) + i, DataSector(g, v.chains[d][k], s), 32 * i)
  {
    Linked2(v, g, d);
    Whole(g, |v.chains[d]|, k, s, i);
  }

  /** One more sector without a free record. */
  lemma {:induction false} NoneFreeMore(raw: seq<Byte>, n: nat, i: nat)
    requires NoneFree(raw, n) && forall l :: n <= l < n + i ==> !Free(Record(raw, l))
    ensures NoneFree(raw, n + i)
  {
    hide Record;
  }

  /** What a scratch sector shows of the records. */
  lemma {:induction false} Scanned(v: V, g: Layout, d: nat, k: nat, s: nat, i: nat)
    requires Sound(v, g.spc) && d in v.chains && k < |v.chains[d]| && s < g.spc && i <= 16 && v.chains[d][k] < |v.data|
    requires s < |v.data[v.chains[d][k]]| && |v.data[v.chains[d][k]][s]| == SECTOR
    requires NoneFree(DirBytes(v, d), 16 * (k * g.spc + s))
    requires var x := v.data[v.chains[d][k]][s];
             (forall l :: 0 <= l < i ==> !Free(x[32 * l..32 * l + 32])) && (i < 16 ==> Free(x[32 * i..32 * i + 32]))
    ensures NoneFree(DirBytes(v, d), 16 * (k * g.spc + s) + i)
    ensures i < 16 ==> Free(Record(DirBytes(v, d), 16 * (k * g.spc + s) + i))
  {
    hide Sound, DirBytes, Record, Free, NoneFree;
    var raw, n := DirBytes(v, d), 16 * (k * g.spc + s);
    forall l | n <= l < n + i ensures !Free(Record(raw, l)) {
      var m := l - n;
      SectorRecord(v, g, d, l, k, s, 32 * m);
    }
    if i < 16 { SectorRecord(v, g, d, n + i, k, s, 32 * i); }
    NoneFreeMore(raw, n, i);
  }

  lemma {:induction false} NextSector(k: nat, s: nat, spc: nat)
    ensures 16 * (k * spc + s) + 16 == 16 * (k * spc + (s + 1)) && 16 * (k * spc + spc) == 16 * ((k + 1) * spc)
  {
    NextBase(k, spc);
  }

  // ---- a new record ----

  /** A free record is no entry's and no directory's own. */
  lemma {:induction false} FreeRecord(v: V, g: Layout, d: nat, j: nat)
    requires Dirs(v, g) && Sound(v, g.spc) && IsDir(v, d) && j < Slots(g, v.chains[d])
    requires Free(Record(DirBytes(v, d), j))
    ensures KeyAt(g, v.chains[d], j) !in v.dir && KeyAt(g, v.chains[d], j) != ROOT && (d == ROOT || j >= 2)
  {
    hide KeyAt, Slots, Record, DirBytes, Decoded, Sound, Packed;
    assert DirOk(v.dir, DirBytes(v, d), v.chains[d], d == ROOT, g);
    assert RecordOk(v.dir, KeyAt(g, v.chains[d], j), Record(DirBytes(v, d), j), d != ROOT && j < 2);
    Linked2(v, g, d);
    KeyPositive(g, v.chains[d], j);
  }

  lemma {:induction false} NoEnd(raw: seq<Byte>, n: nat)
    requires NoneFree(raw, n)
    ensures forall i :: 0 <= i < n ==> Record(raw, i)[0] != 0
  {
    hide Record;
  }

  /** A file's record over a free one, and the directories are in order again; a name that begins
      with the mark of a deleted record makes no entry. */
  lemma {:induction false} DirsNamed(v: V, x: V, w: V, g: Layout, d: nat, j: nat, e: seq<Byte>)
    requires Dirs(v, g) && Sound(v, g.spc) && IsDir(v, d) && j < Slots(g, v.chains[d])
    requires Free(Record(DirBytes(v, d), j)) && NoneFree(DirBytes(v, d), j)
    requires |e| == 32 && e[0] != 0 && Decoded(e) == Dirent(0, 0, false)
    requires x == if Live(e) then Added(v, KeyAt(g, v.chains[d], j)) else v
    requires Sound(x, g.spc) && Sound(w, g.spc) && Others(x, w, d) && w.chains == x.chains && w.dir == x.dir
    requires 32 * j + 32 <= |DirBytes(v, d)| && DirBytes(w, d) == Over(DirBytes(v, d), 32 * j, e)
    ensures Dirs(w, g) && OneRecord(v, w, g, KeyAt(g, v.chains[d], j))
  {
    hide KeyAt, Slots, Record, Decoded, Sound, Others, DirOk, OneRecord, Rewrites, DirBytes, Dirs, Free;
    var key := KeyAt(g, v.chains[d], j);
    FreeRecord(v, g, d, j);
    NoEnd(DirBytes(v, d), j);
    var y := x.(dir := v.dir);
    AddedFrame(v, y, g, key);
    SameBytes(x, v.dir, d);
    OthersDir(x, w, v.dir, d);
    BackDir(x, w, v.dir, d);
    SoundDir(x, v.dir, g.spc);
    RewritesOne(y, w, g, d, j, e);
    DirsRewritten(y, w, g, d, j, 0, e);
    RecordsThen(v, y, w, g, key);
  }

  lemma {:induction false} SoundDir(x: V, dir: map<nat, Dirent>, spc: nat)
    requires Sound(x, spc)
    ensures Sound(x.(dir := dir), spc)
  {
    hide Well, DataOk;
  }

  lemma {:induction false} BackDir(x: V, w: V, dir: map<nat, Dirent>, d: nat)
    requires Others(x, w, d)
    ensures Others(x.(dir := dir), w, d)
  {
    hide Raw;
  }

  /** An entry without clusters touches no directory. */
  lemma {:induction false} AddedFrame(v: V, y: V, g: Layout, key: nat)
    requires Dirs(v, g) && key !in v.dir && key != ROOT && (y == v || y == v.(chains := v.chains[key := []]))
    ensures Dirs(y, g) && OneRecord(v, y, g, key)
    ensures forall p :: IsDir(v, p) <==> IsDir(y, p)
    ensures forall p :: IsDir(v, p) ==> y.chains[p] == v.chains[p] && DirBytes(y, p) == DirBytes(v, p)
  {
    hide Raw, KeyAt, Slots, Record, Dirs;
    DirsKept(v, y, g);
  }
}
