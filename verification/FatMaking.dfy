/** What `fat_mkdir` and `fat_unlink` keep: directories come with their own two records, and go when
    no entry is left in them. */
module FatMaking {
  import opened Bits
  import opened FatWords
  import opened FatChains
  import opened FatFiles
  import opened FatRecords
  import opened FatNames
  import opened FatState
  import opened FatDisk
  import opened FatDirs
  import opened FatWriting

  // ---- a directory is made ----

  /** The bytes of a new directory: two records, and zeroes. */
  lemma {:induction false} DotBytes(raw: seq<Byte>, own: nat, parent: nat, n: nat)
    requires |raw| == 32 * n && n >= 16
    requires forall i :: 0 <= i < |raw| ==> raw[i] == if i < 512 then DotSector(own, parent)[i] else 0
    ensures Fresh2(raw, n) && Record(raw, 0) == DotRecord(false, own) && Record(raw, 1) == DotRecord(true, parent)
  {
    hide DotRecord, Dots;
    assert Record(raw, 0) == DotRecord(false, own);
    assert Record(raw, 1) == DotRecord(true, parent);
    DotRecordIs(false, own);
    DotRecordIs(true, parent);
    forall j | 2 <= j < n ensures Record(raw, j)[0] == 0 {
      assert raw[32 * j] == 0;
    }
  }

  /** A cluster with that first sector. */
  lemma {:induction false} DotCluster(v: V, w: V, x: V, y: V, g: Layout, o: nat, c: nat, own: nat, parent: nat)
    requires Sound(v, g.spc) && o in v.chains && v.chains[o] == [] && 2 <= c < |v.t| && c < |v.data| && c < |v.use|
    requires v.t[c] == 0 && w == Taken(v, c, g.spc)
    requires Sound(w, g.spc) && w.use[c] == Loose && x == Joined(w, o, c) && Sound(x, g.spc)
    requires RawOf(x, o) == RawOf(w, o) + Bytes(w.data[c])
    requires Sound(y, g.spc) && y.chains == x.chains && RawOf(y, o) == Over(RawOf(x, o), 0, DotSector(own, parent))
    ensures Fresh2(DirBytes(y, o), Slots(g, y.chains[o]))
    ensures Record(DirBytes(y, o), 0) == DotRecord(false, own) && Record(DirBytes(y, o), 1) == DotRecord(true, parent)
  {
    hide Well, Raw, Bytes, DotSector, Record;
    InsideOf(y, o, g.spc);
    InsideOf(x, o, g.spc);
    InsideOf(w, o, g.spc);
    ZeroBytes(g.spc);
    Positive(v, g.spc);
    BaseMono(1, |y.chains[o]|, g.spc);
    assert RawOf(w, o) == [];
    DotBytes(DirBytes(y, o), own, parent, Slots(g, y.chains[o]));
  }

  /** The records of a new directory are no entries. */
  lemma {:induction false} NoEntryIn(v: V, z: V, g: Layout, d: nat, j: nat, o: nat, l: nat)
    requires Dirs(v, g) && Sound(z, g.spc) && o in z.chains && l < Slots(g, z.chains[o]) && Lies(v, g, d, j, o)
    requires d != o && !IsDir(v, o)
    requires (forall key :: key in z.dir ==> key in v.dir || key == o)
    requires forall p :: IsDir(v, p) ==> p in z.chains && z.chains[p] == v.chains[p]
    ensures KeyAt(g, z.chains[o], l) !in z.dir
  {
    hide KeyAt, Slots, Sound, DirOk, DirBytes;
    var key := KeyAt(g, z.chains[o], l);
    if key == o {
      KeysApart(z, g, o, l, d, j);
    } else if key in v.dir {
      var p, m := HomeOf(v, g, key);
      KeysApart(z, g, o, l, p, m);
    }
  }

  /** After `fat_mkdir`: an empty file's entry has become a directory's. */
  lemma {:induction false} Made(v: V, y: V, z: V, g: Layout, d: nat, j: nat, o: nat, c: nat)
    requires Good(v, g.spc) && Dirs(v, g) && Lies(v, g, d, j, o) && o in v.dir && v.dir[o] == Dirent(0, 0, false)
    requires 2 <= c < EOC
    requires Sound(y, g.spc) && NoLoose(y) && Others(v, y, o) && y.dir == v.dir[o := Dirent(c, 0, true)]
    requires o in y.chains && y.chains[o] == [c]
    requires Fresh2(DirBytes(y, o), Slots(g, y.chains[o]))
    requires Sound(z, g.spc) && Others(y, z, d) && z.dir == y.dir && z.use == y.use && z.chains == y.chains
    requires 32 * j + 32 <= |DirBytes(y, d)|
    requires DirBytes(z, d) == Over(DirBytes(y, d), 32 * j, MadeDir(Record(DirBytes(v, d), j), c))
    ensures Good(z, g.spc) && Dirs(z, g) && SameElse(v, z, o, g.spc) && OneRecord(v, z, g, o)
    ensures DirBytes(z, o) == DirBytes(y, o)
  {
    hide Sound, Dirs, Others, SameElse, OneRecord, FileOf, Slots, Record, KeyAt, Decoded, DirBytes, MadeDir,
      Fresh2, Live, Rewrites;
    DirGood(v, y, o, c, g.spc);
    assert EntryOk(v, o, g.spc);
    ElseMade(v, y, o, g.spc);
    var e := MadeDir(Record(DirBytes(v, d), j), c);
    MadeRewrites(v, y, z, g, d, j, o, e, c);
    forall l | 0 <= l < Slots(g, z.chains[o]) ensures KeyAt(g, z.chains[o], l) !in z.dir {
      NoEntryIn(v, z, g, d, j, o, l);
    }
    FreshOk(z.dir, DirBytes(z, o), z.chains[o], g);
    DirsMade(v, z, g, d, j, 0, e, o);
    Redirected(v, y, z, g, o, d);
  }

  lemma {:induction false} ElseMade(v: V, w: V, o: nat, spc: nat)
    requires Good(v, spc) && Good(w, spc)
    requires forall p :: p in v.dir && p != o && !v.dir[p].isDir ==>
        p in w.dir && w.dir[p] == v.dir[p] && FileOf(w, p, spc) == FileOf(v, p, spc)
    ensures SameElse(v, w, o, spc)
  {
    hide Sound, FileOf;
  }

  lemma {:induction false} MadeRewrites(v: V, y: V, z: V, g: Layout, d: nat, j: nat, o: nat, e: seq<Byte>, c: nat)
    requires Sound(v, g.spc) && Sound(y, g.spc) && Sound(z, g.spc) && Dirs(v, g) && Lies(v, g, d, j, o) && o in v.dir
    requires !v.dir[o].isDir && 2 <= c < EOC
    requires Others(v, y, o) && Others(y, z, d) && z.chains == y.chains && y.dir == v.dir[o := Dirent(c, 0, true)]
    requires z.dir == y.dir && o != ROOT && o in v.chains
    requires e == MadeDir(Record(DirBytes(v, d), j), c) && 32 * j + 32 <= |DirBytes(y, d)|
    requires DirBytes(z, d) == Over(DirBytes(y, d), 32 * j, e)
    ensures Rewrites(v, z, g, d, j, 0, e) && Over(Record(DirBytes(v, d), j), 0, e) == e
    ensures Live(e) && Decoded(e) == Dirent(c, 0, true) && DirBytes(z, o) == DirBytes(y, o) && d != o
    ensures forall p :: IsDir(z, p) <==> IsDir(v, p) || p == o
    ensures forall p :: IsDir(v, p) ==> z.chains[p] == v.chains[p]
  {
    hide Well, RawOf, Record, Slots, KeyAt, Decoded, MadeDir, Dirs, Live;
    EntryRecord(v, g, d, j, o);
    LiveIsNotFree(Record(DirBytes(v, d), j));
    MadeDirIs(Record(DirBytes(v, d), j), c);
    MadeDirLive(Record(DirBytes(v, d), j), c);
    assert Over(Record(DirBytes(v, d), j), 0, e) == e;
  }

  lemma {:induction false} LiveIsNotFree(e: seq<Byte>)
    requires |e| == 32 && Live(e)
    ensures !Free(e) && e[0] != 0
  {
  }

  /** A sector in which a file's record has been turned into a directory's. */
  lemma {:induction false} SectorMade(sec: seq<Byte>, off: nat, cluster: nat)
    requires |sec| == SECTOR && off + 32 <= SECTOR
    ensures var x := sec[off + 11 := 0x10];
            Wr16(Wr16(Wr32(x, off + 28, 0), off + 20, cluster / 65536 % 65536), off + 26, cluster % 65536)
            == Over(sec, off, MadeDir(sec[off..off + 32], cluster))
  {
    hide Wr16, Wr32, Updated;
    var x := sec[off + 11 := 0x10];
    SectorUpdated(x, off, cluster, 0);
    var e := sec[off..off + 32];
    assert x[off..off + 32] == e[11 := 0x10];
    var u := MadeDir(e, cluster);
    assert Over(x, off, u) == Over(sec, off, u);
  }

  /** Writing to a cluster that is on no chain. */
  lemma {:induction false} LooseSound(w: V, c: nat, x: seq<Byte>, spc: nat)
    requires Sound(w, spc) && c < |w.t| && |x| == SECTOR
    ensures c < |w.data| && 0 < |w.data[c]| && Sound(Stored(w, c, 0, x), spc)
  {
    hide Well;
  }

  /** A cluster with a directory's own records hangs from entry `o`, which is still a file's. */
  ghost predicate Started(v: V, y: V, g: Layout, o: nat, c: nat, parent: nat)
  {
    NoLoose(y) && Others(v, y, o) && y.dir == v.dir && o in y.chains && y.chains[o] == [c] && c < EOC
    && Fresh2(DirBytes(y, o), Slots(g, y.chains[o])) && OwnRecords(y, o, c, parent)
  }

  ghost predicate OwnRecords(y: V, o: nat, c: nat, parent: nat)
  {
    Record(DirBytes(y, o), 0) == DotRecord(false, c) && Record(DirBytes(y, o), 1) == DotRecord(true, parent)
  }

  /** A directory of one cluster that holds its own two records and no more. */
  ghost predicate NewDir(y: V, o: nat, c: nat, parent: nat)
  {
    IsDir(y, o) && y.chains[o] == [c] && OwnRecords(y, o, c, parent)
    && forall j :: j >= 2 ==> Record(DirBytes(y, o), j)[0] == 0
  }

  lemma {:induction false} EmptyBehind(y: V, g: Layout, o: nat)
    requires Sound(y, g.spc) && o in y.chains && y.chains[o] != [] && Fresh2(DirBytes(y, o), Slots(g, y.chains[o]))
    ensures forall j :: j >= 2 ==> Record(DirBytes(y, o), j)[0] == 0
  {
    hide Sound, DirBytes, Slots;
    OwnSlots(y, g, o);
  }

  lemma {:induction false} HasStarted(v: V, w: V, x: V, y: V, g: Layout, o: nat, c: nat, parent: nat)
    requires Sound(v, g.spc) && NoLoose(v) && o in v.chains && v.chains[o] == [] && 2 <= c < |v.t|
    requires |v.t| == |v.use| <= EOC && v.t[c] == 0
    requires c < |v.data| && w == Taken(v, c, g.spc) && Sound(w, g.spc) && w.use[c] == Loose && Others(v, w, o)
    requires x == Joined(w, o, c) && Sound(x, g.spc) && Others(w, x, o)
    requires RawOf(x, o) == RawOf(w, o) + Bytes(w.data[c]) && c < |x.data| && 0 < |x.data[c]|
    requires y == Stored(x, c, 0, DotSector(c, parent)) && Sound(y, g.spc)
    ensures Started(v, y, g, o, c, parent)
  {
    hide Sound, Others, RawOf, Raw, DotSector, Fresh2, Slots, DirBytes, Record, Bytes;
    Positive(x, g.spc);
    ClusterRow(x, c, g.spc);
    StoredOk(x, g.spc, o, 0, 0, 0, DotSector(c, parent));
    WholeSector(x.data[c][0], DotSector(c, parent));
    OthersThen(v, w, x, o);
    OthersThen(v, x, y, o);
    SettledAgain(v, w, x, o, c);
    DotCluster(v, w, x, y, g, o, c, c, parent);
  }

  lemma {:induction false} WholeSector(s: seq<Byte>, x: seq<Byte>)
    requires |s| == |x|
    ensures Over(s, 0, x) == x
  {
  }

  lemma {:induction false} EmptyChain(v: V, o: nat, spc: nat)
    requires Good(v, spc) && o in v.dir && v.dir[o] == Dirent(0, 0, false)
    ensures o in v.chains && v.chains[o] == [] && o != ROOT
  {
    hide Sound;
    assert EntryOk(v, o, spc);
    HeadZero(v, o, spc);
  }

  lemma {:induction false} StartedSpot(v: V, u: V, g: Layout, d: nat, j: nat, o: nat, c: nat, parent: nat, sec: nat,
      off: nat)
    requires Started(v, u, g, o, c, parent) && Spot(v, g, d, j, sec, off) && o in v.dir && !v.dir[o].isDir && o != ROOT
    ensures Spot(u, g, d, j, sec, off) && Spot(u.(dir := u.dir[o := Dirent(c, 0, true)]), g, d, j, sec, off)
  {
    hide KeyAt, Slots, Fresh2, DirBytes, Record;
  }

  lemma {:induction false} MadeFrom(v: V, u: V, y: V, z: V, g: Layout, d: nat, j: nat, o: nat, c: nat, parent: nat)
    requires Good(v, g.spc) && Dirs(v, g) && Lies(v, g, d, j, o) && o in v.dir && v.dir[o] == Dirent(0, 0, false)
    requires 2 <= c
    requires Sound(u, g.spc) && Started(v, u, g, o, c, parent) && y == u.(dir := u.dir[o := Dirent(c, 0, true)])
    requires Sound(z, g.spc) && Others(y, z, d) && z.dir == y.dir && z.use == y.use && z.chains == y.chains
    requires 32 * j + 32 <= |DirBytes(y, d)|
    requires DirBytes(z, d) == Over(DirBytes(y, d), 32 * j, MadeDir(Record(DirBytes(y, d), j), c))
    ensures Good(z, g.spc) && Dirs(z, g) && SameElse(v, z, o, g.spc) && OneRecord(v, z, g, o) && NewDir(z, o, c, parent)
  {
    hide Sound, Dirs, Others, SameElse, OneRecord, FileOf, Slots, Record, KeyAt, DirBytes, MadeDir, Fresh2;
    SameSound(u, y, g.spc);
    OthersDir(v, u, y.dir, o);
    SameBytes(u, y.dir, o);
    SameBytes(u, y.dir, d);
    KeptBytes(v, u, g, o, d);
    Made(v, y, z, g, d, j, o, c);
    EmptyBehind(y, g, o);
  }

  lemma {:induction false} KeptBytes(v: V, u: V, g: Layout, o: nat, d: nat)
    requires Sound(v, g.spc) && Sound(u, g.spc) && Others(v, u, o) && d in v.chains && d != o
    ensures DirBytes(u, d) == DirBytes(v, d)
  {
    hide Well, RawOf;
  }

  // ---- a directory is looked into ----

  /** The answer to the question for the record listed under `index`. */
  ghost predicate Answers(raw: seq<Byte>, n: nat, index: nat, found: bool, e: seq<Byte>)
  {
    (found <==> index < |Listed(raw, 0, n)|) && (found ==> |e| == 32 && e == Record(raw, Listed(raw, 0, n)[index]))
  }

  lemma {:induction false} SectorInside(g: Layout, n: nat, k: nat, s: nat)
    requires k < n && s < g.spc
    ensures 16 * (k * g.spc + s) + 16 <= 16 * (n * g.spc)
  {
    NextBase(k, g.spc);
    BaseMono(k + 1, n, g.spc);
  }

  /** The `m`-th record of directory `d` begins sector `x`. */
  ghost predicate SectorAt(v: V, g: Layout, d: nat, m: nat, x: seq<Byte>)
  {
    |x| == SECTOR && forall i {:trigger x[32 * i..32 * i + 32]} :: 0 <= i < 16 ==>
        x[32 * i..32 * i + 32] == Record(DirBytes(v, d), m + i)
  }

  lemma {:induction false} SectorIs(v: V, g: Layout, d: nat, k: nat, s: nat)
    requires Sound(v, g.spc) && d in v.chains && k < |v.chains[d]| && s < g.spc && v.chains[d][k] < |v.data|
    requires s < |v.data[v.chains[d][k]]|
    ensures SectorAt(v, g, d, 16 * (k * g.spc + s), v.data[v.chains[d][k]][s])
  {
    hide Sound, DirBytes, Record;
    var x, m := v.data[v.chains[d][k]][s], 16 * (k * g.spc + s);
    SectorRecord(v, g, d, m, k, s, 0);
    forall i {:trigger x[32 * i..32 * i + 32]} | 0 <= i < 16
      ensures x[32 * i..32 * i + 32] == Record(DirBytes(v, d), m + i) {
      SectorRecord(v, g, d, m + i, k, s, 32 * i);
    }
  }

  /** One record of a sector is passed. */
  lemma {:induction false} ListedAt(v: V, g: Layout, d: nat, m: nat, x: seq<Byte>, i: nat, n: nat, seen: nat)
    requires SectorAt(v, g, d, m, x) && i < 16 && m + 16 <= n && Passed(DirBytes(v, d), m + i, n, seen)
    ensures var raw, e, l := DirBytes(v, d), x[32 * i..32 * i + 32], Listed(DirBytes(v, d), 0, n);
            (e[0] == 0 ==> |l| == seen) && (e[0] != 0 && !Live(e) ==> Passed(raw, m + (i + 1), n, seen))
            && (Live(e) ==> seen < |l| && e == Record(raw, l[seen]) && Passed(raw, m + (i + 1), n, seen + 1))
  {
    hide DirBytes, Record, Passed, Listed, Live;
    PassOne(DirBytes(v, d), m + i, n, seen);
  }

  lemma {:induction false} NotListed(raw: seq<Byte>, n: nat, seen: nat, index: nat)
    requires Passed(raw, n, n, seen) && seen <= index
    ensures Answers(raw, n, index, false, [])
  {
    hide Record, Passed, Listed;
    PassAll(raw, n, seen);
  }

  // ---- an entry goes ----

  /** What is listed in a directory are the records of its entries, so nothing but "." and ".." is
      listed exactly when no entry in it has any other name. */
  lemma {:induction false} BareIff(v: V, g: Layout, o: nat)
    requires Dirs(v, g) && IsDir(v, o)
    ensures Bare(DirBytes(v, o), Slots(g, v.chains[o]))
       <==> forall j, key :: key in v.dir && Lies(v, g, o, j, key) ==> Dots(Record(DirBytes(v, o), j))
  {
    hide KeyAt, Slots, Record, DirBytes, Decoded, Live, Dots, Listed;
    var raw, n := DirBytes(v, o), Slots(g, v.chains[o]);
    assert DirOk(v.dir, raw, v.chains[o], o == ROOT, g);
    if Bare(raw, n) {
      forall j, key | key in v.dir && Lies(v, g, o, j, key) ensures Dots(Record(raw, j)) {
        EntryRecord(v, g, o, j, key);
        ListedIff(raw, 0, n, j);
      }
    }
    if forall j, key :: key in v.dir && Lies(v, g, o, j, key) ==> Dots(Record(raw, j)) {
      forall i | i in Listed(raw, 0, n) ensures Dots(Record(raw, i)) {
        ListedInside(raw, 0, n, i);
        ListedIff(raw, 0, n, i);
        var key := KeyAt(g, v.chains[o], i);
        assert RecordOk(v.dir, key, Record(raw, i), o != ROOT && i < 2);
        if !(o != ROOT && i < 2) { assert Lies(v, g, o, i, key); }
      }
    }
  }

  lemma {:induction false} EntryIs(v: V, g: Layout, o: nat)
    requires Good(v, g.spc) && Dirs(v, g) && o in v.dir
    ensures o in v.chains && o != ROOT && Sound(v, g.spc) && NoLoose(v) && v.dir[o].cluster == Head(v.chains[o])
    ensures v.dir[o].isDir ==> IsDir(v, o) && v.chains[o] != [] && v.dir[o].cluster == v.chains[o][0]
  {
    hide Sound, Dirs;
    assert EntryOk(v, o, g.spc);
  }

  /** The `j`-th record of directory `d`, as it was in `v`, is marked deleted in `y`, which makes
      `z`; if the directory's clusters are spare by then, no chain notices. */
  ghost predicate Erased(v: V, y: V, z: V, g: Layout, d: nat, j: nat)
  {
    Sound(z, g.spc) && z == y.(data := z.data) && d in v.chains
    && if d in y.chains && y.chains[d] == v.chains[d]
       then Others(y, z, d) && 32 * j + 32 <= |DirBytes(y, d)|
           && DirBytes(z, d) == Over(DirBytes(y, d), 32 * j, [DELETED])
       else forall p: nat :: Others(y, z, p)
  }

  lemma {:induction false} HasErased(v: V, y: V, z: V, g: Layout, d: nat, j: nat, k: nat, s: nat, off: nat)
    requires Sound(v, g.spc) && Sound(y, g.spc) && d in v.chains && k < |v.chains[d]| && s < g.spc
    requires off + 32 <= SECTOR && |y.t| == |v.t|
    requires v.chains[d][k] < |y.data| && s < |y.data[v.chains[d][k]]| && |y.data[v.chains[d][k]][s]| == SECTOR
    requires 32 * j == 512 * (k * g.spc + s) + off
    requires z == Stored(y, v.chains[d][k], s, y.data[v.chains[d][k]][s][off := DELETED])
    requires (d in y.chains && y.chains[d] == v.chains[d])
        || (v.chains[d][k] < |y.use| && y.use[v.chains[d][k]] == Spare)
    requires d in y.chains && y.chains[d] == v.chains[d] ==> j < Slots(g, v.chains[d])
    ensures Sound(z, g.spc) && Erased(v, y, z, g, d, j)
  {
    hide Sound, Others, RawOf, Slots, DirBytes;
    var c := v.chains[d][k];
    OneByte(y.data[c][s], off);
    if d in y.chains && y.chains[d] == v.chains[d] {
      StoredOk(y, g.spc, d, k, s, off, [DELETED]);
      InsideOf(y, d, g.spc);
      InsideOf(z, d, g.spc);
      SectorRecord(y, g, d, j, k, s, off);
    } else {
      SpareStored(y, c, s, y.data[c][s][off := DELETED], g.spc);
    }
  }

  lemma {:induction false} OneByte(s: seq<Byte>, off: nat)
    requires off < |s|
    ensures s[off := DELETED] == Over(s, off, [DELETED])
  {
  }

  lemma {:induction false} SpareStored(y: V, c: nat, s: nat, x: seq<Byte>, spc: nat)
    requires Sound(y, spc) && c < |y.data| && s < |y.data[c]| && |x| == SECTOR && c < |y.use| && y.use[c] == Spare
    ensures Sound(Stored(y, c, s, x), spc) && forall p: nat :: Others(y, Stored(y, c, s, x), p)
  {
    hide Well, Raw;
    var z := Stored(y, c, s, x);
    forall p | p in y.chains ensures RawOf(z, p) == RawOf(y, p) {
      NotOnChain(y, spc, c, p);
      RawOther(y.data, y.chains[p], c, z.data[c]);
    }
  }

  /** Removing an entry does not touch what the other chains hold. */
  lemma {:induction false} OthersRemoved(y: V, z: V, o: nat, d: nat)
    requires Others(y, z, d)
    ensures Others(Removed(y, o), Removed(z, o), d)
  {
    hide Raw;
  }

  lemma {:induction false} RemovedBytes(z: V, o: nat, p: nat)
    requires p != o
    ensures DirBytes(Removed(z, o), p) == DirBytes(z, p)
  {
  }

  /** After `fat_unlink`. */
  lemma {:induction false} Unlinked(v: V, y: V, z: V, g: Layout, o: nat, d: nat, j: nat)
    requires Good(v, g.spc) && Dirs(v, g) && o in v.dir && o in v.chains && o != ROOT && Lies(v, g, d, j, o)
    requires Sound(y, g.spc) && Inside(v.chains[o], |v.use|) && y == Emptied(v, o) && Others(v, y, o)
    requires Erased(v, y, z, g, d, j)
    ensures Sound(Removed(z, o), g.spc)
    ensures if v.dir[o].isDir && !NoneElse(v, g, o) then !Dirs(Removed(z, o), g)
            else Good(Removed(z, o), g.spc) && Dirs(Removed(z, o), g) && SameElse(v, Removed(z, o), o, g.spc)
                 && OneRecord(v, Removed(z, o), g, o)
  {
    hide Sound, Dirs, Others, RawOf, SameElse, OneRecord, FileOf, Slots, Record, KeyAt, DirBytes, NoneElse, LeftDirs;
    var x, w := Removed(y, o), Removed(z, o);
    StillNoLoose(v, y, o);
    RemovedGood(v, y, o, g.spc);
    RemovedSound(z, o, g.spc);
    RemovedDirs(v, y, z, o, d);
    if v.dir[o].isDir && !NoneElse(v, g, o) {
      NotHomed(v, w, g, o);
    } else {
      if d == o { GoneSelf(v, y, z, g, o, j); } else { GoneFrom(v, y, z, g, o, d, j); }
      ElseMade(v, x, o, g.spc);
      var e := if d == o then ROOT else d;
      RootNoEntry(v, g, d, j);
      OthersRemoved(y, z, o, e);
      RootThere(w, g);
      Redirected(v, x, w, g, o, e);
    }
  }

  lemma {:induction false} RootThere(w: V, g: Layout)
    requires Dirs(w, g)
    ensures IsDir(w, ROOT)
  {
  }

  /** The directories that are left. */
  lemma {:induction false} RemovedDirs(v: V, y: V, z: V, o: nat, d: nat)
    requires Others(v, y, o) && y.dir == v.dir && z == y.(data := z.data) && o in v.dir && o != ROOT
    ensures LeftDirs(v, Removed(z, o), o)
    ensures (forall p :: p in v.chains && p != o ==> p in y.chains && y.chains[p] == v.chains[p])
  {
    hide RawOf;
  }

  /** The bytes of a directory that was neither given back nor written to. */
  lemma {:induction false} LeftBytes(v: V, y: V, z: V, g: Layout, o: nat, d: nat, p: nat)
    requires Sound(v, g.spc) && Sound(y, g.spc) && Sound(z, g.spc) && Others(v, y, o) && Others(y, z, d)
    requires p in v.chains && p in y.chains && p != o && p != d
    ensures DirBytes(Removed(z, o), p) == DirBytes(v, p)
  {
    hide Sound, Others, DirBytes;
    KeptBytes(v, y, g, o, p);
    KeptBytes(y, z, g, d, p);
    RemovedBytes(z, o, p);
  }

  lemma {:induction false} GoneSelf(v: V, y: V, z: V, g: Layout, o: nat, j: nat)
    requires Good(v, g.spc) && Dirs(v, g) && o in v.dir && o != ROOT && Lies(v, g, o, j, o) && NoneElse(v, g, o)
    requires Sound(y, g.spc) && y.dir == v.dir && o in y.chains && y.chains[o] == [] && Others(v, y, o)
    requires Erased(v, y, z, g, o, j)
    requires LeftDirs(v, Removed(z, o), o)
    ensures Dirs(Removed(z, o), g) && OneRecord(v, Removed(z, o), g, o)
  {
    hide Sound, Dirs, Others, RawOf, OneRecord, Record, KeyAt, DirBytes, NoneElse, Slots;
    RootNoEntry(v, g, o, j);
    var w := Removed(z, o);
    forall p | IsDir(v, p) && p != o ensures DirBytes(w, p) == DirBytes(v, p) {
      assert IsDir(w, p);
      LeftBytes(v, y, z, g, o, o, p);
    }
    DirsGoneSelf(v, w, g, j, o);
  }

  lemma {:induction false} GoneFrom(v: V, y: V, z: V, g: Layout, o: nat, d: nat, j: nat)
    requires Good(v, g.spc) && Dirs(v, g) && o in v.dir && o != ROOT && Lies(v, g, d, j, o) && d != o
    requires (v.dir[o].isDir ==> NoneElse(v, g, o))
    requires Sound(y, g.spc) && y.dir == v.dir && d in y.chains && y.chains[d] == v.chains[d] && Others(v, y, o)
    requires Erased(v, y, z, g, d, j)
    requires LeftDirs(v, Removed(z, o), o)
    ensures Dirs(Removed(z, o), g) && OneRecord(v, Removed(z, o), g, o)
  {
    hide Sound, Dirs, Others, RawOf, OneRecord, Record, KeyAt, DirBytes, NoneElse, Slots, Live, Decoded;
    var w, e := Removed(z, o), Record(DirBytes(v, d), j);
    EntryRecord(v, g, d, j, o);
    KeptBytes(v, y, g, o, d);
    RemovedBytes(z, o, d);
    forall p | IsDir(v, p) && p != o && p != d ensures DirBytes(w, p) == DirBytes(v, p) {
      assert IsDir(w, p);
      LeftBytes(v, y, z, g, o, d, p);
    }
    Marked(e);
    DirsGone(v, w, g, d, j, 0, [DELETED], o);
  }

  lemma {:induction false} Marked(e: seq<Byte>)
    requires |e| == 32
    ensures !Live(Over(e, 0, [DELETED])) && Over(e, 0, [DELETED])[0] != 0
  {
  }

  /** What a lookup makes of a record: an entry, unless it is one of a directory's own two. */
  lemma {:induction false} FoundEntry(v: V, g: Layout, d: nat, j: nat)
    requires Dirs(v, g) && IsDir(v, d) && j < Slots(g, v.chains[d]) && Live(Record(DirBytes(v, d), j))
    ensures d == ROOT || j >= 2 ==>
        KeyAt(g, v.chains[d], j) in v.dir && v.dir[KeyAt(g, v.chains[d], j)] == Decoded(Record(DirBytes(v, d), j))
  {
    hide KeyAt, Slots, Record, DirBytes, Decoded, Live, Dots;
    assert DirOk(v.dir, DirBytes(v, d), v.chains[d], d == ROOT, g);
    assert RecordOk(v.dir, KeyAt(g, v.chains[d], j), Record(DirBytes(v, d), j), d != ROOT && j < 2);
  }

  lemma {:induction false} DirPacked(v: V, g: Layout, d: nat)
    requires Dirs(v, g) && IsDir(v, d)
    ensures Packed(DirBytes(v, d), Slots(g, v.chains[d]))
  {
    hide KeyAt, Slots, DirBytes, Packed, Homed;
    assert DirOk(v.dir, DirBytes(v, d), v.chains[d], d == ROOT, g);
  }

  /** A volume that has just been made is in order. */
  lemma {:induction false} FormattedDirs(g: Layout)
    requires g.spc > 0 && FirstData(g) > 0 && g.root == 2 && 3 <= g.total <= EOC
    ensures Good(Blank(g.total, g.spc), g.spc) && Dirs(Blank(g.total, g.spc), g)
  {
    hide Sound, KeyAt, Slots, Raw, Dots, Decoded, Zeroed;
    Formatted(g.total, g.spc);
    var v := Blank(g.total, g.spc);
    var raw := DirBytes(v, ROOT);
    ZeroBytes(g.spc);
    RawSnoc(v.data, [], 2);
    NoBytes(v.data);
    assert [] + [2] == [2] && raw == Bytes(v.data[2]);
    forall j: nat ensures Record(raw, j)[0] == 0 { }
  }

  lemma {:induction false} NoBytes(data: seq<seq<seq<Byte>>>)
    ensures Raw(data, []) == []
  {
  }
}
