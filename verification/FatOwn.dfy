/** The two records every directory but the root begins with: the first names the directory itself,
    the second the directory its entry lies in. */
module FatOwn {
  import opened Bits
  import opened FatWords
  import opened FatChains
  import opened FatFiles
  import opened FatRecords
  import opened FatNames
  import opened FatState
  import opened FatDisk
  import opened FatDirs
  import opened FatWriting
  import opened FatMaking

  /** A directory's record under the given name, which leads to the given cluster. */
  predicate LeadsTo(e: seq<Byte>, name: seq<Byte>, cluster: nat)
    requires |e| == 32
  {
    Before(ShortName(e), 0) == name && Decoded(e).cluster == cluster && Decoded(e).isDir
  }

  /** How ".." names a directory: the root by 0. */
  ghost function Up(v: V, d: nat): nat
  {
    if d == ROOT || d !in v.chains then 0 else Head(v.chains[d])
  }

  ghost predicate OwnsOne(v: V, g: Layout, x: nat)
  {
    IsDir(v, x) && x != ROOT ==>
      LeadsTo(Record(DirBytes(v, x), 0), [DOT], Head(v.chains[x]))
      && forall e, j :: Lies(v, g, e, j, x) ==> LeadsTo(Record(DirBytes(v, x), 1), [DOT, DOT], Up(v, e))
  }

  ghost predicate Owns(v: V, g: Layout)
  {
    forall x :: OwnsOne(v, g, x)
  }

  // ---- what keeps them ----

  /** The record at `key` is no directory's own. */
  ghost predicate NotOwn(v: V, g: Layout, key: nat)
  {
    forall x, i :: IsDir(v, x) && x != ROOT && 0 <= i < 2 ==> KeyAt(g, v.chains[x], i) != key
  }

  lemma {:induction false} DirChain(v: V, g: Layout, x: nat)
    requires Good(v, g.spc) && Dirs(v, g) && IsDir(v, x)
    ensures v.chains[x] != [] && Slots(g, v.chains[x]) >= 16
  {
    hide Sound, DirOk, DirBytes, Homed, Slots;
    if x != ROOT { assert EntryOk(v, x, g.spc); }
    OwnSlots(v, g, x);
  }

  lemma {:induction false} OtherNotOwn(v: V, g: Layout, d: nat, j: nat, key: nat)
    requires Good(v, g.spc) && Dirs(v, g) && Lies(v, g, d, j, key) && (d == ROOT || j >= 2)
    ensures NotOwn(v, g, key)
  {
    hide Good, Dirs, KeyAt, Slots;
    forall x, i | IsDir(v, x) && x != ROOT && 0 <= i < 2 ensures KeyAt(g, v.chains[x], i) != key {
      DirChain(v, g, x);
      GoodIs(v, g.spc);
      if KeyAt(g, v.chains[x], i) == key { KeysApart(v, g, x, i, d, j); }
    }
  }

  lemma {:induction false} EntryNotOwn(v: V, g: Layout, key: nat)
    requires Good(v, g.spc) && Dirs(v, g) && key in v.dir
    ensures NotOwn(v, g, key)
  {
    hide Good, Dirs, Lies, NotOwn, Record, DirBytes, Live, Decoded;
    var d, j := HomeOf(v, g, key);
    EntryRecord(v, g, d, j, key);
    OtherNotOwn(v, g, d, j, key);
  }

  /** One directory's own records are kept while another record changes, if its entry stays where
      it was. */
  lemma {:induction false} OwnKept(v: V, w: V, g: Layout, key: nat, x: nat)
    requires Good(v, g.spc) && Dirs(v, g) && OwnsOne(v, g, x) && NotOwn(v, g, key) && OneRecord(v, w, g, key)
    requires IsDir(v, x) && x in w.chains
    requires forall p :: IsDir(v, p) && p in w.chains ==> v.chains[p] <= w.chains[p]
    requires forall e, j :: Lies(w, g, e, j, x) ==> Lies(v, g, e, j, x)
    ensures OwnsOne(w, g, x)
  {
    hide Good, Dirs, KeyAt, Slots, Record, DirBytes, LeadsTo;
    if x != ROOT {
      DirChain(v, g, x);
      assert forall i :: 0 <= i < 2 ==> KeyAt(g, v.chains[x], i) != key;
      assert Record(DirBytes(w, x), 0) == Record(DirBytes(v, x), 0);
      assert Record(DirBytes(w, x), 1) == Record(DirBytes(v, x), 1);
      forall e, j | Lies(w, g, e, j, x) ensures LeadsTo(Record(DirBytes(w, x), 1), [DOT, DOT], Up(w, e)) {
        assert Lies(v, g, e, j, x);
        DirChain(v, g, e);
      }
    }
  }

  /** The directories that are left are where they were. */
  lemma {:induction false} OwnsKept(v: V, w: V, g: Layout, key: nat)
    requires Good(v, g.spc) && Dirs(v, g) && Owns(v, g) && NotOwn(v, g, key) && OneRecord(v, w, g, key)
    requires forall p :: IsDir(w, p) ==> IsDir(v, p) && w.chains[p] == v.chains[p]
    requires forall p :: IsDir(v, p) && p in w.chains ==> IsDir(w, p)
    ensures Owns(w, g)
  {
    hide Good, Dirs, KeyAt, Slots, OwnsOne, NotOwn, OneRecord;
    forall x ensures OwnsOne(w, g, x) {
      if IsDir(w, x) { OwnKept(v, w, g, key, x); } else { OwnsNothing(w, g, x); }
    }
  }

  lemma {:induction false} OwnsNothing(w: V, g: Layout, x: nat)
    requires !IsDir(w, x) || x == ROOT
    ensures OwnsOne(w, g, x)
  {
  }

  /** A file and its entry have changed. */
  lemma {:induction false} OwnsFile(v: V, y: V, w: V, g: Layout, o: nat)
    requires Good(v, g.spc) && Dirs(v, g) && Owns(v, g) && o in v.dir && !v.dir[o].isDir && OneRecord(v, w, g, o)
    requires Others(v, y, o) && w.chains == y.chains && o in w.dir && w.dir == v.dir[o := w.dir[o]]
    requires !w.dir[o].isDir
    ensures Owns(w, g)
  {
    hide Dirs, Owns, NotOwn, OneRecord, RawOf, Sound;
    assert EntryOk(v, o, g.spc);
    EntryNotOwn(v, g, o);
    OwnsKept(v, w, g, o);
  }

  /** An entry for an empty file has come, or none. */
  lemma {:induction false} OwnsAdded(v: V, w: V, g: Layout, d: nat, j: nat, key: nat)
    requires Good(v, g.spc) && Dirs(v, g) && Owns(v, g) && key !in v.dir && key != ROOT && OneRecord(v, w, g, key)
    requires Lies(v, g, d, j, key) && Free(Record(DirBytes(v, d), j))
    requires (w.dir == v.dir && w.chains == v.chains)
      || (w.dir == v.dir[key := Dirent(0, 0, false)] && w.chains == v.chains[key := []])
    ensures Owns(w, g)
  {
    hide Dirs, Owns, NotOwn, OneRecord, Sound, KeyAt, Slots, Free, Record, DirBytes, EntryOk;
    FreeRecord(v, g, d, j);
    OtherNotOwn(v, g, d, j, key);
    OwnsKept(v, w, g, key);
  }

  /** A directory has grown: what lies in its new cluster is no directory's entry. */
  lemma {:induction false} OwnsGrown(v: V, w: V, g: Layout, d: nat, c: nat)
    requires Good(v, g.spc) && Dirs(v, g) && Owns(v, g) && IsDir(v, d) && Sound(w, g.spc)
    requires forall key: nat :: OneRecord(v, w, g, key)
    requires w.dir == v.dir && w.chains == v.chains[d := v.chains[d] + [c]]
    ensures Owns(w, g)
  {
    hide Good, Dirs, Owns, OwnsOne, NotOwn, OneRecord, Sound, KeyAt, Slots;
    var key := ROOT;
    RootNotOwn(v, g);
    forall x ensures OwnsOne(w, g, x) {
      if IsDir(w, x) && x != ROOT {
        forall e, j | Lies(w, g, e, j, x) ensures Lies(v, g, e, j, x) { GrownLies(v, w, g, d, c, e, j, x); }
        OwnsIs(v, g, x);
        OwnKept(v, w, g, key, x);
      } else {
        OwnsNothing(w, g, x);
      }
    }
    OwnsAll(w, g);
  }

  lemma {:induction false} OwnsIs(v: V, g: Layout, x: nat)
    requires Owns(v, g)
    ensures OwnsOne(v, g, x)
  {
    hide OwnsOne;
  }

  lemma {:induction false} OwnsAll(w: V, g: Layout)
    requires forall x :: OwnsOne(w, g, x)
    ensures Owns(w, g)
  {
    hide OwnsOne;
  }

  lemma {:induction false} RootNotOwn(v: V, g: Layout)
    requires Good(v, g.spc) && Dirs(v, g)
    ensures NotOwn(v, g, ROOT)
  {
    hide Good, Dirs, KeyAt, Slots;
    forall x, i | IsDir(v, x) && x != ROOT && 0 <= i < 2 ensures KeyAt(g, v.chains[x], i) != ROOT {
      DirChain(v, g, x);
      GoodIs(v, g.spc);
      RootNoEntry(v, g, x, i);
    }
  }

  lemma {:induction false} GrownLies(v: V, w: V, g: Layout, d: nat, c: nat, e: nat, j: nat, x: nat)
    requires Dirs(v, g) && IsDir(v, d) && Sound(w, g.spc) && w.dir == v.dir
    requires w.chains == v.chains[d := v.chains[d] + [c]] && x in v.dir && Lies(w, g, e, j, x)
    ensures Lies(v, g, e, j, x)
  {
    hide Sound, KeyAt, Slots, DirOk, DirBytes;
    var p, l := HomeOf(v, g, x);
    if p == d { KeyPrefix(g, v.chains[d], w.chains[d], l); }
    KeysApart(w, g, e, j, p, l);
  }

  // ---- a directory comes ----

  lemma {:induction false} DotName(two: bool, cluster: nat)
    requires cluster < WORD && cluster != 1
    ensures LeadsTo(DotRecord(two, cluster), if two then [DOT, DOT] else [DOT], cluster)
  {
    hide Wr16, Rd16, Rd32, Before, ShortName;
    var name: seq<Byte> := [DOT, if two then DOT else SPACE] + seq(9, i => SPACE);
    var a := name + [0x10] + seq(20, i => 0);
    var hi, lo := cluster / 65536 % 65536, cluster % 65536;
    var b := Wr16(a, 20, hi);
    var e := DotRecord(two, cluster);
    Rd16Wr16(a, 20, hi);
    Rd16Wr16(b, 26, lo);
    SamePair(b, e, 20);
    assert cluster == 65536 * hi + lo;
    assert a[11] == 0x10 && e[11] == 0x10;
    DotShort(two, cluster);
  }

  lemma {:induction false} DotShort(two: bool, cluster: nat)
    ensures Before(ShortName(DotRecord(two, cluster)), 0) == if two then [DOT, DOT] else [DOT]
  {
    var e := DotRecord(two, cluster);
    assert e[0] == DOT && e[8] == SPACE && e[1] == (if two then DOT else SPACE) && e[2] == SPACE;
    BeforeUnfold(e[..8], SPACE);
    BeforeUnfold(e[1..8], SPACE);
    BeforeUnfold(e[2..8], SPACE);
    assert e[..8][1..] == e[1..8] && e[1..8][1..] == e[2..8];
    var n := if two then [DOT, DOT] else [DOT];
    assert ShortName(e) == n;
    BeforeUnfold(n, 0);
    BeforeUnfold(n[1..], 0);
    if two { BeforeUnfold(n[1..][1..], 0); assert n[1..] == [DOT]; }
  }

  /** After `fat_mkdir`, from the volume `v` with an empty file's entry. */
  lemma {:induction false} OwnsMade(v: V, u: V, w: V, g: Layout, d: nat, j: nat, o: nat, c: nat)
    requires Good(v, g.spc) && Dirs(v, g) && Owns(v, g) && Lies(v, g, d, j, o) && o in v.dir && !v.dir[o].isDir
    requires 2 <= c < EOC && Started(v, u, g, o, c, Up(v, d)) && w.chains == u.chains && Sound(w, g.spc)
    requires w.dir == v.dir[o := Dirent(c, 0, true)] && OneRecord(v, w, g, o) && NewDir(w, o, c, Up(v, d))
    ensures Owns(w, g)
  {
    hide Dirs, Owns, OwnsOne, NotOwn, OneRecord, Sound, KeyAt, Slots, RawOf, DirBytes, Record, Fresh2, DotRecord,
      LeadsTo;
    DotName(false, c);
    UpSmall(v, g, d);
    DotName(true, Up(v, d));
    assert EntryOk(v, o, g.spc);
    EntryNotOwn(v, g, o);
    forall x ensures OwnsOne(w, g, x) {
      if !IsDir(w, x) || x == ROOT {
        OwnsNothing(w, g, x);
      } else if x == o {
        MadeOwns(v, w, g, d, j, o, c);
      } else {
        OwnsIs(v, g, x);
        forall e, l | Lies(w, g, e, l, x) ensures Lies(v, g, e, l, x) { MadeLies(v, w, g, o, e, l, x); }
        OwnKept(v, w, g, o, x);
      }
    }
    OwnsAll(w, g);
  }

  /** What lies in a new directory is no entry. */
  lemma {:induction false} MadeLies(v: V, w: V, g: Layout, o: nat, e: nat, l: nat, x: nat)
    requires Dirs(v, g) && Sound(w, g.spc) && !IsDir(v, o) && o in w.chains && x in v.dir && Lies(w, g, e, l, x)
    requires forall p :: IsDir(v, p) ==> p in w.chains && w.chains[p] == v.chains[p]
    ensures Lies(v, g, e, l, x)
  {
    hide Sound, KeyAt, Slots, DirOk, DirBytes;
    var p, m := HomeOf(v, g, x);
    KeysApart(w, g, e, l, p, m);
  }

  lemma {:induction false} MadeOwns(v: V, w: V, g: Layout, d: nat, j: nat, o: nat, c: nat)
    requires Good(v, g.spc) && Dirs(v, g) && Lies(v, g, d, j, o) && o in v.dir && !IsDir(v, o)
    requires Sound(w, g.spc) && o in w.chains && w.chains[o] == [c]
    requires LeadsTo(Record(DirBytes(w, o), 0), [DOT], c) && LeadsTo(Record(DirBytes(w, o), 1), [DOT, DOT], Up(v, d))
    requires forall p :: IsDir(v, p) ==> p in w.chains && w.chains[p] == v.chains[p]
    ensures OwnsOne(w, g, o)
  {
    hide Good, Dirs, Sound, KeyAt, Slots, DirBytes, Record, LeadsTo;
    forall e, l | Lies(w, g, e, l, o) ensures Up(w, e) == Up(v, d) {
      MadeLies(v, w, g, o, e, l, o);
      GoodIs(v, g.spc);
      KeysApart(v, g, e, l, d, j);
    }
  }

  lemma {:induction false} UpSmall(v: V, g: Layout, d: nat)
    requires Good(v, g.spc)
    ensures Up(v, d) < EOC && Up(v, d) != 1
  {
    hide Sound, EntryOk;
    if d in v.chains { HeadSmall(v, d, g.spc); }
  }

  /** The root is told from the other directories by its first cluster. */
  lemma {:induction false} UpIs(v: V, g: Layout, d: nat)
    requires Good(v, g.spc) && Dirs(v, g) && IsDir(v, d)
    ensures v.chains[d] != [] && v.chains[d][0] >= 2
    ensures Up(v, d) == if v.chains[d][0] == g.root then 0 else v.chains[d][0]
  {
    hide Good, DirOk, DirBytes, Homed;
    DirChain(v, g, d);
    GoodIs(v, g.spc);
    ChainEnd(v, g.spc, d, 0);
    if d != ROOT && v.chains[d][0] == g.root { SameCluster(v, g, d, 0, ROOT, 0); }
  }

  lemma {:induction false} UpStays(v: V, w: V, g: Layout, d: nat)
    requires Good(v, g.spc) && Dirs(v, g) && IsDir(v, d) && d in w.chains && v.chains[d] <= w.chains[d]
    ensures Up(w, d) == Up(v, d)
  {
    hide Good, Dirs;
    DirChain(v, g, d);
  }

  // ---- a directory goes ----

  /** An entry has been removed. */
  lemma {:induction false} OwnsLeft(v: V, w: V, g: Layout, o: nat)
    requires Good(v, g.spc) && Dirs(v, g) && Owns(v, g) && o in v.dir && OneRecord(v, w, g, o)
    requires w.dir == v.dir - {o} && o !in w.chains && LeftDirs(v, w, o)
    ensures Owns(w, g)
  {
    hide Good, Dirs, Owns, NotOwn, OneRecord;
    EntryNotOwn(v, g, o);
    OwnsKept(v, w, g, o);
  }

  // ---- what a record leads to ----

  /** The directory the entry of `d` lies in. */
  ghost function ParentOf(v: V, g: Layout, d: nat): nat
  {
    if exists e: nat, j: nat :: Lies(v, g, e, j, d) then
      var e: nat, j: nat :| Lies(v, g, e, j, d);
      e
    else ROOT
  }

  /** The `j`-th record of directory `d` is an entry, and not one of the directory's own two. */
  ghost predicate IsEntry(d: nat, j: nat)
  {
    d == ROOT || j >= 2
  }

  /** Whose clusters the `j`-th record of directory `d` leads to: an entry's own, or for a
      directory's own two records the directory's or its parent's. */
  ghost function Target(v: V, g: Layout, d: nat, j: nat): nat
  {
    if IsEntry(d, j) && d in v.chains then KeyAt(g, v.chains[d], j) else if j == 0 then d else ParentOf(v, g, d)
  }

  /** Nothing but "." and ".." is listed in directory `o`. */
  ghost predicate BareDir(v: V, g: Layout, o: nat)
  {
    o in v.chains && Bare(DirBytes(v, o), Slots(g, v.chains[o]))
  }

  /** The clusters that go with a record that leads to those of `o`: ".." gives none of the root's
      back. */
  ghost function Freed(v: V, o: nat, cluster: nat): seq<nat>
  {
    if cluster == 0 || o !in v.chains then [] else v.chains[o]
  }

  lemma {:induction false} OwnLeads(v: V, g: Layout, d: nat, j: nat)
    requires Good(v, g.spc) && Dirs(v, g) && Owns(v, g) && IsDir(v, d) && !IsEntry(d, j)
    ensures var o, e := Target(v, g, d, j), Decoded(Record(DirBytes(v, d), j));
            IsDir(v, o) && v.chains[o] != [] && e.isDir && e.cluster == Up(v, o)
            && v.chains[o][0] == (if e.cluster == 0 then g.root else e.cluster) && (e.cluster == 0 ==> j == 1)
  {
    hide Good, KeyAt, Slots, DirBytes, Record, Decoded, DirOk;
    OwnsIs(v, g, d);
    var e, l := HomeOf(v, g, d);
    var o := Target(v, g, d, j);
    assert IsDir(v, o);
    UpIs(v, g, o);
    DirChain(v, g, o);
  }

  /** What a lookup's record leads to is a whole chain or, by 0, nothing. */
  lemma {:induction false} RecordLeads(v: V, g: Layout, d: nat, j: nat)
    requires Good(v, g.spc) && Dirs(v, g) && Owns(v, g) && IsDir(v, d) && j < Slots(g, v.chains[d])
    requires Live(Record(DirBytes(v, d), j))
    ensures var o, e := Target(v, g, d, j), Decoded(Record(DirBytes(v, d), j));
            o in v.chains && (e.cluster == 0 || (e.cluster == Head(v.chains[o]) && o in v.dir && o != ROOT))
            && (e.isDir ==> IsDir(v, o) && v.chains[o] != [])
            && (e.isDir ==> v.chains[o][0] == if e.cluster == 0 then g.root else e.cluster)
    ensures IsEntry(d, j) ==> var o := Target(v, g, d, j);
            o in v.dir && v.dir[o] == Decoded(Record(DirBytes(v, d), j)) && v.dir[o].cluster == Head(v.chains[o])
            && o != ROOT
    ensures var e := Decoded(Record(DirBytes(v, d), j));
            !IsEntry(d, j) ==> e.isDir && (e.cluster == 0 ==> j == 1)
  {
    hide Good, KeyAt, Slots, DirBytes, Record, Decoded, Dirs, Live, Owns, ParentOf;
    if IsEntry(d, j) {
      FoundEntry(v, g, d, j);
      EntryIs(v, g, Target(v, g, d, j));
      var o := Target(v, g, d, j);
      GoodIs(v, g.spc);
      if v.chains[o] != [] { ChainEnd(v, g.spc, o, 0); }
    } else {
      OwnLeads(v, g, d, j);
    }
  }

  // ---- after one of a directory's own records has been removed ----

  /** However clusters are assigned to owners, the volume is not in order. */
  ghost predicate Astray(w: V, spc: nat)
  {
    forall use, chains :: !Good(w.(use := use, chains := chains), spc)
  }

  lemma {:induction false} HeadTaken(v: V, o: nat, spc: nat)
    requires Sound(v, spc) && o in v.chains
    ensures v.chains[o] != [] ==> 2 <= v.chains[o][0] < |v.t| && v.t[v.chains[o][0]] != 0
  {
    if v.chains[o] != [] {
      ChainDistinct(v, spc, o);
      assert LinkOk(v.t, v.chains[o], 0);
      if |v.chains[o]| > 1 { assert LinkOk(v.t, v.chains[o], 1); }
    }
  }

  lemma {:induction false} NamesFree(w: V, o: nat, spc: nat)
    requires o in w.dir && 2 <= w.dir[o].cluster < |w.t| && w.t[w.dir[o].cluster] == 0
    ensures Astray(w, spc)
  {
    hide Sound;
    forall use, chains ensures !Good(w.(use := use, chains := chains), spc) {
      var x := w.(use := use, chains := chains);
      if Good(x, spc) {
        assert EntryOk(x, o, spc);
        HeadTaken(x, o, spc);
      }
    }
  }

  /** A directory's clusters are free and its entry still names them. */
  lemma {:induction false} OwnFreed(v: V, z: V, g: Layout, o: nat, cluster: nat)
    requires Good(v, g.spc) && o in v.dir && v.dir[o].isDir && cluster != 0 && z.dir == v.dir && |z.t| == |v.t|
    requires forall c :: 0 <= c < |v.t| ==> z.t[c] == if c in Freed(v, o, cluster) then 0 else v.t[c]
    ensures Astray(z, g.spc) && !Good(z, g.spc)
  {
    hide Sound;
    assert EntryOk(v, o, g.spc);
    ChainEnd(v, g.spc, o, 0);
    NamesFree(z, o, g.spc);
    assert z == z.(use := z.use, chains := z.chains);
  }

  /** The record that names the root as parent is gone. */
  lemma {:induction false} OwnGone(v: V, z: V, g: Layout, d: nat)
    requires Good(v, g.spc) && Dirs(v, g) && IsDir(v, d) && d != ROOT && Erased(v, v, z, g, d, 1)
    ensures !Live(Record(DirBytes(z, d), 1)) && !Dirs(z, g)
  {
    hide Good, Sound, KeyAt, Slots, DirBytes, Record, Decoded, Others, Homed;
    DirChain(v, g, d);
    RecordOver(DirBytes(v, d), 1, 0, [DELETED], 1);
    Marked(Record(DirBytes(v, d), 1));
    assert IsDir(z, d);
    assert !RecordOk(z.dir, KeyAt(g, z.chains[d], 1), Record(DirBytes(z, d), 1), d != ROOT && 1 < 2);
    assert !DirOk(z.dir, DirBytes(z, d), z.chains[d], d == ROOT, g);
  }

  lemma {:induction false} EmptiedNone(v: V, o: nat, spc: nat)
    requires Sound(v, spc) && o in v.chains && v.chains[o] == []
    ensures Emptied(v, o) == v
  {
    hide Well, DataOk;
    assert Spared(v.use, []) == v.use;
  }

  lemma {:induction false} NoClusters(v: V, o: nat, spc: nat)
    requires Good(v, spc) && o in v.dir && v.dir[o].cluster == 0
    ensures o in v.chains && Inside(v.chains[o], |v.use|) && Emptied(v, o) == v && Others(v, v, o)
  {
    hide Sound, Others;
    assert EntryOk(v, o, spc);
    HeadZero(v, o, spc);
    EmptiedNone(v, o, spc);
    OthersSelf(v, o);
  }

  lemma {:induction false} TargetIs(v: V, g: Layout, d: nat, j: nat)
    requires IsEntry(d, j) && d in v.chains
    ensures Target(v, g, d, j) == KeyAt(g, v.chains[d], j)
  {
  }

  /** A directory's clusters after those a record leads to have been given back. */
  lemma {:induction false} KeptOrSpare(v: V, y: V, d: nat, o: nat, cluster: nat)
    requires d in v.chains && o in v.chains && Inside(v.chains[o], |v.use|)
    requires y == if cluster == 0 then v else Emptied(v, o)
    ensures (d in y.chains && y.chains[d] == v.chains[d])
      || forall k :: 0 <= k < |v.chains[d]| ==> v.chains[d][k] < |y.use| && y.use[v.chains[d][k]] == Spare
  {
  }
}
