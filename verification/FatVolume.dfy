/** The mounted volume of `fat.c` as its functions change it, without device errors. The device is
    one array of sectors; table, clusters and directory records are read from it and written to it
    through two scratch sectors. */
module FatVolume {
  import opened Bits
  import opened FatWords
  import opened FatChains
  import opened FatFiles
  import opened FatRecords
  import opened FatNames
  import opened FatState
  import opened FatDisk
  import opened FatDirs
  import opened FatWriting
  import opened FatMaking
  import opened FatOwn

  /** `fat_file_t`: what a caller holds for an open file. Its record is at byte `dirOff` of sector
      `dirSec`. */
  class Handle {
    var cluster: nat
    var size: nat
    var isDir: bool
    const dirSec: nat
    const dirOff: nat

    constructor (sec: nat, off: nat, d: Dirent)
      ensures dirSec == sec && dirOff == off && cluster == d.cluster && size == d.size && isDir == d.isDir
    {
      dirSec, dirOff, cluster, size, isDir := sec, off, d.cluster, d.size, d.isDir;
    }

    /** Where the record is, counted in records. */
    ghost function Slot(): nat
    {
      dirSec * 16 + dirOff / 32
    }
  }

  class Volume {
    var disk: seq<seq<Byte>>
    var secbuf: seq<Byte>
    var dirbuf: seq<Byte>
    const g: Layout
    const total: nat
    const spc: nat
    ghost var fats: seq<seq<seq<Byte>>>
    ghost var data: seq<seq<seq<Byte>>>
    ghost var dir: map<nat, Dirent>
    ghost var t: seq<nat>
    ghost var use: seq<Use>
    ghost var chains: map<nat, seq<nat>>

    ghost function State(): V
      reads this
    {
      V(t, data, dir, use, chains)
    }

    ghost predicate Tabled()
      reads this
    {
      Copies(fats, t) && |t| == total == g.total && spc == g.spc < 256 && OnDisk(disk, fats, data, g)
    }

    ghost predicate Held()
      reads this
    {
      Tabled() && |secbuf| == SECTOR && Sound(State(), spc)
    }

    ghost predicate Valid()
      reads this
    {
      Held() && Good(State(), spc) && Dirs(State(), g) && Owns(State(), g)
    }

    /** A volume as it is found on a disk in order. */
    constructor (sectors: seq<seq<Byte>>, layout: Layout, ghost copies: seq<seq<seq<Byte>>>, ghost v: V)
      requires Copies(copies, v.t) && |v.t| == layout.total && layout.spc < 256
      requires OnDisk(sectors, copies, v.data, layout)
      requires Good(v, layout.spc) && Dirs(v, layout) && Owns(v, layout)
      ensures Valid() && disk == sectors && State() == v && g == layout
    {
      disk, g, total, spc := sectors, layout, layout.total, layout.spc;
      secbuf, dirbuf := seq(SECTOR, i => 0), seq(SECTOR, i => 0);
      fats, data, dir := copies, v.data, v.dir;
      t, use, chains := v.t, v.use, v.chains;
    }

    /** The handle says what the directory says. */
    ghost predicate Current(f: Handle)
      reads this, f
    {
      f.dirOff % 32 == 0 && f.dirOff < SECTOR
      && f.Slot() in dir && dir[f.Slot()] == Dirent(f.cluster, f.size, f.isDir)
    }

    /** The handle says what the `j`-th record of directory `d` says, which may be one of the
        directory's own two. */
    ghost predicate Found(f: Handle, d: nat, j: nat)
      reads this, f
    {
      Spot(State(), g, d, j, f.dirSec, f.dirOff) && Live(Record(DirBytes(State(), d), j))
      && Dirent(f.cluster, f.size, f.isDir) == Decoded(Record(DirBytes(State(), d), j))
    }

    /** `fat_next` */
    method FatNext(c: nat) returns (n: nat)
      requires Tabled()
      modifies this`secbuf
      ensures |secbuf| == SECTOR || secbuf == old(secbuf)
      ensures n == Next(t, c)
    {
      hide Rd32, OnDisk;
      if c < 2 || c >= total { return 0; }
      FatSector(fats, t, c);
      TableAt(disk, fats, data, g, 0, c / 128);
      secbuf := disk[TableSector(g, 0, c / 128)];
      var v := Low(Rd32(secbuf, c % 128 * 4));
      if v >= EOC || v < 2 { return 0; }
      return v;
    }

    /** `fat_set`: the entry in every copy, each copy's reserved bits kept. */
    method FatSet(c: nat, v: nat) returns (ok: bool)
      requires Tabled() && v < LOW
      modifies this`disk, this`fats, this`secbuf, this`t
      ensures ok <==> 2 <= c < total
      ensures !ok ==> disk == old(disk) && fats == old(fats) && t == old(t) && secbuf == old(secbuf)
      ensures Tabled() && |fats| == |old(fats)| && (ok ==> |secbuf| == SECTOR && t == old(t)[c := v])
      ensures ok ==> forall k :: 0 <= k < |fats| ==>
          c / 128 < |old(fats)[k]| && |old(fats)[k][c / 128]| == SECTOR
          && Entry(fats[k], c) / LOW == Entry(old(fats)[k], c) / LOW
    {
      hide Rd32, Wr32, SetLow, Low, OnDisk, Copies;
      if c < 2 || c >= total { return false; }
      ghost var was := fats;
      CopiesHave(was, t, c);
      DiskHas(disk, fats, data, g);
      var k := 0;
      while k < g.copies
        invariant k <= |fats| == |was| == g.copies && t == old(t) && (k > 0 ==> |secbuf| == SECTOR)
        invariant OnDisk(disk, fats, data, g)
        invariant forall j :: 0 <= j < k ==> fats[j] == PutEntry(was[j], c, v)
        invariant forall j :: k <= j < |fats| ==> fats[j] == was[j]
      {
        PutInCopy(k, c, v);
        k := k + 1;
      }
      PutEverywhere(was, fats, t, c, v);
      t := t[c := v];
      ok := true;
    }

    /** One copy's sector is read, changed and written back. */
    method PutInCopy(k: nat, c: nat, v: nat)
      requires OnDisk(disk, fats, data, g) && k < g.copies == |fats| && c / 128 < |fats[k]|
      requires |fats[k][c / 128]| == SECTOR
      modifies this`disk, this`fats, this`secbuf
      ensures OnDisk(disk, fats, data, g) && |secbuf| == SECTOR && fats == old(fats)[k := PutEntry(old(fats)[k], c, v)]
    {
      hide Rd32, Wr32, SetLow, OnDisk;
      var i := c / 128;
      TableAt(disk, fats, data, g, k, i);
      secbuf := disk[TableSector(g, k, i)];
      var w := Rd32(secbuf, c % 128 * 4);
      secbuf := Wr32(secbuf, c % 128 * 4, SetLow(w, v));
      TablePut(disk, fats, data, g, k, i, secbuf);
      disk := disk[TableSector(g, k, i) := secbuf];
      fats := fats[k := PutEntry(fats[k], c, v)];
    }

    /** `clus_alloc`: the first free cluster, marked as an end and cleared; 0 if there is none.
        The table is read a sector at a time. */
    method ClusAlloc() returns (c: nat)
      requires Held()
      modifies this`disk, this`secbuf, this`fats, this`data, this`t, this`use
      ensures Held()
      ensures c == 0 ==> State() == old(State()) && forall e :: 2 <= e < total ==> t[e] != 0
      ensures c != 0 ==> 2 <= c < total && old(t)[c] == 0 && State() == Taken(old(State()), c, spc)
      ensures c != 0 ==> forall e :: 2 <= e < c ==> old(t)[e] != 0
    {
      hide Well, DataOk, Low, Rd32, Copies, OnDisk;
      var cached := -1;
      c := 2;
      while c < total
        invariant 2 <= c && Held() && State() == old(State())
        invariant cached >= 0 ==> CachedOk(cached)
        invariant forall e :: 2 <= e < c && e < total ==> t[e] != 0
      {
        FatSector(fats, t, c);
        TableAt(disk, fats, data, g, 0, c / 128);
        if c / 128 != cached {
          secbuf := disk[TableSector(g, 0, c / 128)];
          cached := c / 128;
        }
        if Low(Rd32(secbuf, c % 128 * 4)) == 0 {
          TakenOk(State(), c, spc);
          ClusterRow(State(), c, spc);
          var ok := FatSet(c, EOC);
          secbuf := seq(SECTOR, i => 0);
          Clear(c);
          use := use[c := Loose];
          assert State() == Taken(old(State()), c, spc);
          return;
        }
        c := c + 1;
      }
      c := 0;
    }

    ghost predicate CachedOk(i: nat)
      reads this
    {
      |fats| > 0 && i < |fats[0]| && secbuf == fats[0][i]
    }

    /** One sector of a cluster goes to the device. */
    method WriteData(c: nat, s: nat, x: seq<Byte>)
      requires OnDisk(disk, fats, data, g) && 2 <= c < g.total && s < g.spc
      modifies this`disk, this`data
      ensures OnDisk(disk, fats, data, g)
      ensures c < |old(data)| && s < |old(data)[c]| && data == old(data)[c := old(data)[c][s := x]]
    {
      DataPut(disk, fats, data, g, c, s, x);
      disk := disk[DataSector(g, c, s) := x];
      data := data[c := data[c][s := x]];
    }

    /** The sectors of a cluster are written with the scratch sector, which is zero. */
    method Clear(c: nat)
      requires OnDisk(disk, fats, data, g) && 2 <= c < g.total && c < |data| && |data[c]| == spc == g.spc
      requires secbuf == seq(SECTOR, i => 0)
      modifies this`disk, this`data
      ensures OnDisk(disk, fats, data, g) && data == old(data)[c := Zeroed(spc)]
    {
      hide OnDisk;
      for s := 0 to spc
        invariant OnDisk(disk, fats, data, g) && |data| == |old(data)| && |data[c]| == spc
        invariant forall e :: 0 <= e < |data| && e != c ==> data[e] == old(data)[e]
        invariant forall i :: 0 <= i < s ==> data[c][i] == seq(SECTOR, i => 0)
      {
        WriteData(c, s, secbuf);
      }
      assert data[c] == Zeroed(spc);
    }

    // ---- following and extending a chain ----

    /** The cluster after the `k`-th of a chain; a new one on the end if it was the last; 0 if
        none is left. */
    method Advance(ghost o: nat, ghost k: nat, c: nat) returns (n: nat)
      requires Held() && NoLoose(State()) && o in chains && k < |chains[o]| && chains[o][k] == c
      modifies this
      ensures Held() && NoLoose(State()) && dir == old(dir) && Others(old(State()), State(), o) && o in chains
      ensures n == 0 ==> State() == old(State()) && k + 1 == |chains[o]| && forall e :: 2 <= e < total ==> t[e] != 0
      ensures n != 0 ==> k + 1 < |chains[o]| && chains[o][k + 1] == n
      ensures k + 1 < |old(chains)[o]| ==> State() == old(State())
      ensures chains[o] == old(chains)[o] || (k + 1 == |old(chains)[o]| && chains[o] == old(chains)[o] + [n])
      ensures Longer(old(State()), State(), o)
    {
      hide Sound, OnDisk, Copies, Dirs, Owns, Others, RawOf;
      ghost var v := State();
      ChainDistinct(v, spc, o);
      ChainEnd(v, spc, o, k);
      OthersSelf(v, o);
      n := FatNext(c);
      if n == 0 {
        n := ClusAlloc();
        if n == 0 { return; }
        ghost var w := State();
        TakenOk(v, n, spc);
        TakenSize(v, n, spc);
        JoinedOk(w, o, n, spc);
        var ok := FatSet(c, n);
        use, chains := use[n := Of(o)], chains[o := chains[o] + [n]];
        assert State() == Joined(w, o, n);
        OthersThen(v, w, State(), o);
        SettledAgain(v, w, State(), o, n);
        LongerJoined(v, w, State(), o, n, spc);
      }
    }

    /** A file that has no cluster gets its first. */
    method FirstCluster(f: Handle) returns (ok: bool)
      requires Held() && NoLoose(State()) && f.Slot() in chains && f.cluster == Head(chains[f.Slot()])
      modifies this, f
      ensures Held() && NoLoose(State()) && dir == old(dir) && Others(old(State()), State(), f.Slot())
      ensures f.Slot() in chains
      ensures f.size == old(f.size) && f.isDir == old(f.isDir) && f.cluster == Head(chains[f.Slot()])
      ensures !ok ==> State() == old(State()) && forall e :: 2 <= e < total ==> t[e] != 0
      ensures ok ==> |chains[f.Slot()]| == if |old(chains)[f.Slot()]| == 0 then 1 else |old(chains)[f.Slot()]|
      ensures |old(chains)[f.Slot()]| > 0 ==> State() == old(State()) && f.cluster == old(f.cluster)
      ensures Longer(old(State()), State(), f.Slot())
    {
      hide Sound, OnDisk, Copies, Dirs, Owns, Others, RawOf;
      ghost var v, o := State(), f.Slot();
      OthersSelf(v, o);
      LongerSelf(v, o, spc);
      if f.cluster != 0 { return true; }
      HeadZero(v, o, spc);
      var c := ClusAlloc();
      if c == 0 { return false; }
      ghost var w := State();
      TakenOk(v, c, spc);
      TakenSize(v, c, spc);
      JoinedOk(w, o, c, spc);
      use, chains := use[c := Of(o)], chains[o := chains[o] + [c]];
      assert State() == Joined(w, o, c);
      OthersThen(v, w, State(), o);
      SettledAgain(v, w, State(), o, c);
      LongerJoined(v, w, State(), o, c, spc);
      f.cluster := c;
      ok := true;
    }

    /** The walk to the cluster a write starts in, at most one past the end. */
    method Seek(ghost o: nat, first: nat, skip: nat) returns (ok: bool, c: nat)
      requires Held() && NoLoose(State()) && o in chains && chains[o] != [] && first == chains[o][0]
      requires skip <= |chains[o]|
      modifies this
      ensures Held() && NoLoose(State()) && dir == old(dir) && Others(old(State()), State(), o) && o in chains
      ensures !ok ==> State() == old(State()) && forall e :: 2 <= e < total ==> t[e] != 0
      ensures ok ==> skip < |chains[o]| && c == chains[o][skip] && |chains[o]| == if skip < |old(chains)[o]| then
          |old(chains)[o]| else skip + 1
      ensures ok ==> |chains[o]| > 0 && chains[o][0] == first
      ensures skip < |old(chains)[o]| ==> ok
      ensures Longer(old(State()), State(), o)
    {
      hide Sound, OnDisk, Copies, Dirs, Owns, Others, RawOf;
      ghost var v := State();
      OthersSelf(v, o);
      LongerSelf(v, o, spc);
      c := first;
      var k := 0;
      while k < skip
        invariant k <= skip && Held() && NoLoose(State()) && dir == old(dir) && o in chains
        invariant k < |chains[o]| && c == chains[o][k] && chains[o][0] == first
        invariant k < |v.chains[o]| ==> State() == v
        invariant k == |v.chains[o]| ==> |chains[o]| == k + 1
        invariant Others(v, State(), o) && Longer(v, State(), o)
      {
        ghost var w := State();
        var n := Advance(o, k, c);
        if n == 0 { return false, 0; }
        OthersThen(v, w, State(), o);
        LongerThen(v, w, State(), o);
        GrownSame(w, State(), o, k);
        c := n;
        k := k + 1;
      }
      ok := true;
    }

    /** One sector of a file is changed through the scratch sector, which is read first unless
        all of it is new. */
    method PutSector(ghost o: nat, ghost k: nat, c: nat, s: nat, b: nat, x: seq<Byte>)
      requires Held() && NoLoose(State()) && o in chains && k < |chains[o]| && chains[o][k] == c && s < spc
      requires b + |x| <= SECTOR
      modifies this`disk, this`secbuf, this`data
      ensures Held() && NoLoose(State()) && |data| == |old(data)|
      ensures Others(old(State()), State(), o) && 512 * (k * spc + s) + b + |x| <= |RawOf(old(State()), o)|
      ensures RawOf(State(), o) == Over(RawOf(old(State()), o), 512 * (k * spc + s) + b, x)
    {
      hide Well, Copies, Others, Raw, OnDisk, DataSector;
      ghost var v := State();
      ChainEnd(v, spc, o, k);
      ClusterRow(v, c, spc);
      StoredOk(v, spc, o, k, s, b, x);
      DataAt(disk, fats, data, g, c, s);
      ghost var was := data[c][s];
      if |x| != SECTOR { secbuf := disk[DataSector(g, c, s)]; }
      secbuf := Over(secbuf, b, x);
      assert secbuf == Over(was, b, x);
      WriteData(c, s, secbuf);
      assert State() == Stored(v, c, s, Over(was, b, x));
    }

    // ---- writing ----

    /** One round of the loop of `fat_write`: as much as the sector takes. */
    method PutChunk(ghost v: V, ghost o: nat, ghost k: nat, c: nat, within: nat, buf: seq<Byte>, done: nat,
        ghost off: nat) returns (take: nat)
      requires Held() && Writing(v, State(), o, k, c, within, off, buf, done, spc) && done < |buf| && within < spc * 512
      modifies this
      ensures Held() && 1 <= take <= 512 - within % 512 && done + take <= |buf|
      ensures Writing(v, State(), o, k, c, within + take, off, buf, done + take, spc)
    {
      hide Sound, OnDisk, Copies, Dirs, Owns, Others, RawOf, Written;
      ghost var w := State();
      var s, b := within / 512, within % 512;
      take := 512 - b;
      if take > |buf| - done { take := |buf| - done; }
      PutSector(o, k, c, s, b, buf[done..done + take]);
      OthersThen(v, w, State(), o);
      MoreWritten(v, w, State(), o, off, buf, done, take, 512 * (k * spc + s) + b);
    }

    /** At the end of a cluster the write goes on in the next. */
    method MoveOn(ghost v: V, ghost o: nat, ghost k: nat, c: nat, buf: seq<Byte>, done: nat, ghost off: nat)
        returns (n: nat)
      requires Held() && Writing(v, State(), o, k, c, spc * 512, off, buf, done, spc)
      modifies this
      ensures Held()
      ensures n == 0 ==> State() == old(State()) && forall e :: 2 <= e < total ==> t[e] != 0
      ensures n != 0 ==> Writing(v, State(), o, k + 1, n, 0, off, buf, done, spc)
    {
      hide Sound, OnDisk, Copies, Dirs, Owns, Others, RawOf, Written;
      ghost var x := State();
      n := Advance(o, k, c);
      if n != 0 {
        OthersThen(v, x, State(), o);
        KeepWritten(v, x, State(), o, off, buf[..done], spc);
        GrownSame(x, State(), o, k);
        NextBase(k, spc);
      }
    }

    /** The loop of `fat_write`. */
    method WriteOut(ghost o: nat, ghost k0: nat, c0: nat, within0: nat, buf: seq<Byte>, ghost off: nat)
        returns (done: nat)
      requires Held() && NoLoose(State()) && o in chains && k0 < |chains[o]| && chains[o][k0] == c0
      requires within0 < spc * 512 && off == 512 * (k0 * spc) + within0 && buf != []
      modifies this
      ensures Held() && 1 <= done <= |buf| && (done < |buf| ==> forall e :: 2 <= e < total ==> t[e] != 0)
      ensures Wrote(old(State()), State(), o, off, buf[..done], spc)
    {
      hide Sound, OnDisk, Copies, Dirs, Owns, Writing, Wrote;
      ghost var v := State();
      ghost var k: nat := k0;
      var c: nat, within: nat := c0, within0;
      done := 0;
      StartWriting(v, o, k0, c0, within0, off, buf, spc);
      while done < |buf|
        invariant done <= |buf| && Held() && Writing(v, State(), o, k, c, within, off, buf, done, spc)
        invariant done < |buf| ==> within < spc * 512
        invariant done == |buf| ==> within > 0
      {
        var take := PutChunk(v, o, k, c, within, buf, done, off);
        WithinCluster(within, take, spc);
        done := done + take;
        within := within + take;
        if done < |buf| && within >= spc * 512 {
          var n := MoveOn(v, o, k, c, buf, done, off);
          if n == 0 {
            EndWriting(v, State(), o, k, c, within, off, buf, done, spc);
            return;
          }
          c, within := n, 0;
          k := k + 1;
        }
      }
      EndWriting(v, State(), o, k, c, within, off, buf, done, spc);
    }

    /** How many clusters to skip, and how far into the next. */
    method Locate(off: nat, ghost size: nat, ghost n: nat) returns (skip: nat, within: nat)
      requires spc > 0 && off <= size && Fits(size, n, spc)
      ensures within < spc * 512 && off == 512 * (skip * spc) + within && skip <= n && (off < size ==> skip < n)
    {
      PlaceInChain(off, size, n, spc);
      FatState.Place(off, spc);
      var clusterBytes := spc * 512;
      skip, within := off / clusterBytes, off % clusterBytes;
    }

    /** `fat_write` up to the directory entry. */
    method Place(f: Handle, off: nat, buf: seq<Byte>) returns (r: int)
      requires Valid() && Current(f) && !f.isDir && off <= f.size && buf != []
      modifies this, f
      ensures Held() && f.size == old(f.size) && f.isDir == old(f.isDir)
      ensures if r == -1 then State() == old(State()) && f.cluster == old(f.cluster) && Exhausted(State())
              else 1 <= r <= |buf| && (r < |buf| ==> Exhausted(State()))
                   && Placed(old(State()), State(), f.Slot(), off, buf[..r], f.size, f.cluster, spc)
    {
      hide Sound, OnDisk, Copies, Dirs, Owns, Others, RawOf, Wrote, Longer, Placed;
      ghost var v, o := State(), f.Slot();
      assert EntryOk(v, o, spc);
      Positive(v, spc);
      var ok := FirstCluster(f);
      if !ok { return -1; }
      ghost var w := State();
      var skip, within := Locate(off, f.size, |v.chains[o]|);
      var c;
      ok, c := Seek(o, f.cluster, skip);
      if !ok { return -1; }
      ghost var x := State();
      r := WriteOut(o, skip, c, within, buf, off);
      WriteDone(v, w, x, State(), o, off, skip, buf[..r], f.size, f.cluster, spc);
    }

    // ---- directory records ----

    /** A record's sector is read. */
    method ReadSpot(ghost d: nat, ghost j: nat, sec: nat, off: nat)
      requires Held() && Spot(State(), g, d, j, sec, off)
      modifies this`dirbuf
      ensures sec < |disk| && dirbuf == disk[sec] && |dirbuf| == SECTOR && off + 32 <= SECTOR
      ensures dirbuf[off..off + 32] == Record(DirBytes(State(), d), j)
    {
      hide Sound, OnDisk, Copies, DataSector, KeyAt, Slots, DirBytes, Record;
      ghost var k, s := SpotIs(State(), g, d, j, sec, off);
      SectorRecord(State(), g, d, j, k, s, off);
      DataAt(disk, fats, data, g, chains[d][k], s);
      dirbuf := disk[sec];
    }

    /** A sector in which one record has changed is written back. */
    method StoreSpot(ghost d: nat, ghost j: nat, sec: nat, ghost off: nat, ghost e: seq<Byte>)
      requires Held() && Spot(State(), g, d, j, sec, off) && |e| == 32 && off + 32 <= SECTOR
      requires sec < |disk| && |disk[sec]| == SECTOR && dirbuf == Over(disk[sec], off, e)
      modifies this`disk, this`data
      ensures Held() && Others(old(State()), State(), d)
      ensures 32 * j + 32 <= |DirBytes(old(State()), d)|
      ensures DirBytes(State(), d) == Over(DirBytes(old(State()), d), 32 * j, e)
    {
      hide Well, OnDisk, Copies, DataSector, KeyAt, Slots, Record, Others, Raw, Over;
      ghost var v := State();
      ghost var k, s := SpotIs(v, g, d, j, sec, off);
      ghost var c := chains[d][k];
      StoredOk(v, spc, d, k, s, off, e);
      DataAt(disk, fats, data, g, c, s);
      DataPut(disk, fats, data, g, c, s, dirbuf);
      disk := disk[sec := dirbuf];
      data := data[c := data[c][s := dirbuf]];
      assert State() == Stored(v, c, s, Over(v.data[c][s], off, e));
    }

    /** `dir_writeback`: first cluster and length go into the handle's record, and no other
        record changes. */
    method DirWriteback(f: Handle) returns (ghost d: nat)
      requires Held() && Dirs(State(), g) && f.dirOff % 32 == 0 && f.dirOff < SECTOR && f.Slot() in dir
      requires f.cluster < WORD && f.cluster != 1 && f.size < WORD && !dir[f.Slot()].isDir
      modifies this`disk, this`data, this`dirbuf, this`dir
      ensures Held() && Dirs(State(), g) && OneRecord(old(State()), State(), g, f.Slot())
      ensures dir == old(dir)[f.Slot() := Dirent(f.cluster, f.size, old(dir)[f.Slot()].isDir)]
      ensures IsDir(old(State()), d) && IsDir(State(), d) && Others(old(State()).(dir := dir), State(), d)
    {
      hide Sound, OnDisk, Copies, Dirs, Owns, Others, DirBytes, Record, KeyAt, Slots, Updated, Over, OneRecord, Wr16,
        Wr32;
      ghost var v, key := State(), f.Slot();
      ghost var j: nat;
      d, j := HomeOf(v, g, key);
      var off := f.dirOff;
      ReadSpot(d, j, f.dirSec, off);
      ghost var e := Updated(dirbuf[off..off + 32], f.cluster, f.size);
      SectorUpdated(dirbuf, off, f.cluster, f.size);
      dirbuf := Wr32(dirbuf, off + 28, f.size);
      dirbuf := Wr16(dirbuf, off + 20, f.cluster / 65536 % 65536);
      dirbuf := Wr16(dirbuf, off + 26, f.cluster % 65536);
      StoreSpot(d, j, f.dirSec, off, e);
      ghost var w := State();
      dir := dir[key := Dirent(f.cluster, f.size, dir[key].isDir)];
      SameSound(w, State(), spc);
      OthersDir(v, w, dir, d);
      SameBytes(w, dir, d);
      EntryUpdated(v, State(), g, d, j, key, f.cluster, f.size);
    }

    /** The end of `fat_write`: the length follows, in 32 bits, and goes back to the directory. */
    method WriteBack(f: Handle, ghost v: V, off: nat, ghost z: seq<Byte>, done: nat)
      requires Held() && Good(v, spc) && Dirs(v, g) && Owns(v, g) && f.dirOff % 32 == 0 && f.dirOff < SECTOR
      requires f.Slot() in v.dir && v.dir[f.Slot()].size == f.size && !v.dir[f.Slot()].isDir && !f.isDir
      requires Placed(v, State(), f.Slot(), off, z, f.size, f.cluster, spc) && off <= f.size && |z| == done
      modifies this`disk, this`data, this`dirbuf, this`dir, f`size
      ensures Held() && Dirs(State(), g) && Current(f) && OneRecord(v, State(), g, f.Slot())
      ensures dir == v.dir[f.Slot() := Dirent(f.cluster, f.size, false)]
      ensures f.size == Larger(old(f.size), off + done) % WORD
      ensures if off + done < WORD then Valid() && SameElse(v, State(), f.Slot(), spc)
                && FileOf(State(), f.Slot(), spc) == Spliced(FileOf(v, f.Slot(), spc), off, z)
              else !Good(State(), spc)
    {
      hide Sound, OnDisk, Copies, Dirs, Owns, Others, SameElse, Fits, Written, OneRecord, FileOf, EntryOk;
      ghost var y, o, size := State(), f.Slot(), f.size;
      PlacedIs(v, y, g, o, off, z, size, f.cluster);
      if off + done > f.size { f.size := (off + done) % WORD; }
      ghost var d := DirWriteback(f);
      PlacedRecords(v, y, State(), g, o, off, z, size, f.cluster);
      OwnsFile(v, y, State(), g, o);
      if off + done < WORD { WroteBack(v, y, State(), g, o, d, off, z, size, f.cluster); }
      else { LengthWraps(State(), o, off + done, spc); }
    }

    /** `fat_write`: the bytes replace the range at `off`, at most at the end of the file, and
        every other file and every other record is as it was. On a full disk exactly the prefix
        that was stored is counted; if nothing was, nothing has changed. The volume stays in order
        exactly when the end of what was stored is below 2^32. */
    method Write(f: Handle, off: nat, buf: seq<Byte>) returns (r: int)
      requires Valid() && Current(f)
      modifies this, f
      ensures Held() && Dirs(State(), g) && Current(f) && OneRecord(old(State()), State(), g, f.Slot())
      ensures Valid() <==> off + r < WORD || State() == old(State())
      ensures Valid() ==> SameElse(old(State()), State(), f.Slot(), spc)
      ensures old(f.isDir) || off > old(f.size) || |buf| == 0 ==>
          State() == old(State()) && r == if |buf| == 0 && !old(f.isDir) then 0 else -1
      ensures !old(f.isDir) && off <= old(f.size) && |buf| > 0 ==>
        if r == -1 then State() == old(State()) && Exhausted(State())
        else 1 <= r <= |buf| && (r < |buf| ==> Exhausted(State())) && !dir[f.Slot()].isDir
             && f.size == Larger(old(f.size), off + r) % WORD
             && (Valid() ==>
                 FileOf(State(), f.Slot(), spc)
                 == Spliced(FileOf(old(State()), f.Slot(), spc), off, buf[..r]))
    {
      hide Good, Sound, OnDisk, Copies, Dirs, Owns, Placed, SameElse, FileOf, EntryOk, OneRecord;
      ghost var v := State();
      SameElseSelf(v, f.Slot(), spc);
      OneRecordSelf(v, g, f.Slot());
      RecordSector(v, g, f.dirSec, f.dirOff);
      if f.isDir || f.dirSec == 0 { return -1; }
      if |buf| == 0 { return 0; }
      if off > f.size { return -1; }
      r := Place(f, off, buf);
      if r == -1 { return; }
      WriteBack(f, v, off, buf[..r], r);
    }

    // ---- reading ----

    /** The walk along a chain to its `skip`-th cluster. */
    method WalkTo(ghost o: nat, first: nat, skip: nat) returns (c: nat)
      requires Held() && o in chains && skip < |chains[o]| && first == chains[o][0]
      modifies this`secbuf
      ensures Held() && c == chains[o][skip]
    {
      hide Sound, OnDisk, Copies, Dirs, Owns;
      c := first;
      for k := 0 to skip
        invariant Held() && c == chains[o][k]
      {
        ChainEnd(State(), spc, o, k);
        c := FatNext(c);
      }
    }

    /** One round of the loop of `fat_read`: as much as the sector has. */
    method TakeChunk(ghost o: nat, ghost k: nat, c: nat, within: nat, ghost at: nat, left: nat) returns (x: seq<Byte>)
      requires Held() && o in chains && k < |chains[o]| && c == chains[o][k] && within < spc * 512
      requires at == 512 * (k * spc) + within && left > 0
      modifies this`secbuf
      ensures Held() && 1 <= |x| <= 512 - within % 512 && |x| <= left && Inside(chains[o], |data|)
      ensures at + |x| <= |RawOf(State(), o)| && x == RawOf(State(), o)[at..at + |x|]
    {
      hide Well, Copies, Raw, OnDisk, DataSector;
      var s, b := within / 512, within % 512;
      ChainEnd(State(), spc, o, k);
      ClusterRow(State(), c, spc);
      DataAt(disk, fats, data, g, c, s);
      secbuf := disk[DataSector(g, c, s)];
      var take := 512 - b;
      if take > left { take := left; }
      x := secbuf[b..b + take];
      RawRun(data, chains[o], k, s, b, take, total, spc);
    }

    /** At the end of a cluster the read goes on in the next, if there is one. */
    method NextForRead(ghost o: nat, ghost k: nat, c: nat, within: nat) returns (c': nat, within': nat, ghost k': nat)
      requires Held() && o in chains && k < |chains[o]| && c == chains[o][k] && within <= spc * 512 && spc > 0
      modifies this`secbuf
      ensures Held() && within' < spc * 512 && 512 * (k' * spc) + within' == 512 * (k * spc) + within
      ensures k' < |chains[o]| ==> c' == chains[o][k']
    {
      hide Sound, OnDisk, Copies, Dirs, Owns;
      c', within', k' := c, within, k;
      if within >= spc * 512 {
        ChainEnd(State(), spc, o, k);
        NextBase(k, spc);
        within', k' := 0, k + 1;
        c' := FatNext(c);
      }
    }

    /** The loop of `fat_read`. */
    method ReadOut(ghost o: nat, ghost k0: nat, c0: nat, within0: nat, ghost off: nat, want: nat, ghost size: nat)
        returns (out: seq<Byte>)
      requires Held() && o in chains && k0 < |chains[o]| && c0 == chains[o][k0] && within0 < spc * 512
      requires off == 512 * (k0 * spc) + within0 && spc > 0
      requires Fits(size, |chains[o]|, spc) && off + want <= size && Inside(chains[o], |data|)
      requires size <= |RawOf(State(), o)|
      modifies this`secbuf
      ensures Held() && out == RawOf(State(), o)[off..off + want]
    {
      hide Sound, OnDisk, Copies, Dirs, Owns, RawOf, Fits;
      ghost var raw := RawOf(State(), o);
      ghost var k: nat := k0;
      var c: nat, within: nat := c0, within0;
      out := [];
      while |out| < want
        invariant |out| <= want && Held() && within < spc * 512 && off + |out| == 512 * (k * spc) + within
        invariant |out| < want ==> k < |chains[o]| && c == chains[o][k]
        invariant out == raw[off..off + |out|]
      {
        var x := TakeChunk(o, k, c, within, off + |out|, want - |out|);
        WithinCluster(within, |x|, spc);
        JoinParts(raw, off, |out|, |x|);
        out := out + x;
        c, within, k := NextForRead(o, k, c, within + |x|);
        InsideFile(off + |out|, want, off, size, |chains[o]|, k, within, spc);
      }
    }

    /** `fat_read`: exactly the bytes of the file from `off` on, as many as there are. */
    method Read(f: Handle, off: nat, len: nat) returns (r: int, out: seq<Byte>)
      requires Valid() && Current(f)
      modifies this`secbuf
      ensures Valid() && State() == old(State())
      ensures f.isDir ==> r == -1 && out == []
      ensures !f.isDir ==> r == |out| && out == Part(FileOf(State(), f.Slot(), spc), off, len)
    {
      hide Sound, OnDisk, Copies, Dirs, Owns, FileOf, RawOf, Fits, Part;
      if f.isDir { return -1, []; }
      ghost var o := f.Slot();
      assert EntryOk(State(), o, spc);
      if off >= f.size {
        PastEnd(FileOf(State(), o, spc), off, len);
        return 0, [];
      }
      var want := if off + len > f.size then f.size - off else len;
      Positive(State(), spc);
      CapacityIs(State(), o, spc);
      var skip, within := Locate(off, f.size, |chains[o]|);
      HeadIs(chains[o]);
      var c := WalkTo(o, f.cluster, skip);
      out := ReadOut(o, skip, c, within, off, want, f.size);
      PartIs(State(), o, off, len, out, spc);
      r := |out|;
    }

    // ---- giving clusters back ----

    /** The loop of `fat_truncate` and `fat_unlink`. It ends on every table, and does to it
        what the specification says. */
    method FreeChain(first: nat)
      requires Tabled() && |secbuf| == SECTOR
      modifies this`disk, this`fats, this`secbuf, this`t
      ensures Tabled() && |secbuf| == SECTOR && t == FreeFrom(old(t), first)
    {
      hide Copies, Next, OnDisk;
      var c := first;
      while c != 0
        invariant Tabled() && |secbuf| == SECTOR && FreeFrom(t, c) == FreeFrom(old(t), first)
        decreases NonZero(t) + if c == 0 then 0 else 1, if c == 0 then 0 else 1
      {
        FreeStep(t, c);
        ghost var was := t;
        var next := FatNext(c);
        var ok := FatSet(c, 0);
        if !ok { break; }
        c := next;
      }
    }

    /** An entry's whole chain is given back. */
    method Drop(ghost o: nat, first: nat)
      requires Held() && NoLoose(State()) && o in chains && first == Head(chains[o])
      modifies this`disk, this`fats, this`secbuf, this`t, this`use, this`chains
      ensures Held() && NoLoose(State()) && Others(old(State()), State(), o)
      ensures Inside(old(chains)[o], |old(use)|) && State() == Emptied(old(State()), o)
      ensures forall c :: 0 <= c < total ==> t[c] == if c in old(chains)[o] then 0 else old(t)[c]
    {
      hide Sound, OnDisk, Copies, Others, RawOf;
      ghost var v := State();
      EmptiedOk(v, o, spc);
      FreeChain(first);
      use, chains := Spared(use, chains[o]), chains[o := []];
      assert State() == Emptied(v, o);
      StillNoLoose(v, State(), o);
    }

    /** `fat_truncate`: the file is empty, exactly its clusters are free, and every other file and
        record is as it was. */
    method Truncate(f: Handle) returns (r: int)
      requires Valid() && Current(f)
      modifies this, f
      ensures Valid() && Current(f) && SameElse(old(State()), State(), f.Slot(), spc)
      ensures OneRecord(old(State()), State(), g, f.Slot())
      ensures old(f.isDir) ==> r == -1 && State() == old(State())
      ensures !old(f.isDir) ==> r == 0 && dir == old(dir)[f.Slot() := Dirent(0, 0, false)]
      ensures !old(f.isDir) ==> forall c :: 0 <= c < total ==>
          t[c] == if c in old(chains)[f.Slot()] then 0 else old(t)[c]
    {
      hide Sound, OnDisk, Copies, Dirs, Owns, Good, Others, RawOf, SameElse, OneRecord, FileOf, EntryOk;
      ghost var v, o := State(), f.Slot();
      SameElseSelf(v, o, spc);
      OneRecordSelf(v, g, o);
      RecordSector(v, g, f.dirSec, f.dirOff);
      if f.isDir || f.dirSec == 0 { return -1; }
      EntryIs(v, g, o);
      Drop(o, f.cluster);
      ghost var y := State();
      FileFrame(v, y, g, o);
      f.cluster, f.size := 0, 0;
      ghost var d := DirWriteback(f);
      EmptiedBack(v, y, State(), g, o, d);
      OwnsFile(v, y, State(), g, o);
      r := 0;
    }

    // ---- making an entry ----

    /** The first record of the scratch sector that may be written over. */
    method FirstFree() returns (i: nat)
      requires |dirbuf| == SECTOR
      ensures i <= 16 && (i < 16 ==> Free(dirbuf[32 * i..32 * i + 32]))
      ensures forall l :: 0 <= l < i ==> !Free(dirbuf[32 * l..32 * l + 32])
    {
      i := 0;
      while i < 16
        invariant i <= 16 && forall l :: 0 <= l < i ==> !Free(dirbuf[32 * l..32 * l + 32])
      {
        if dirbuf[32 * i] == 0 || dirbuf[32 * i] == DELETED { return; }
        i := i + 1;
      }
    }

    /** One sector of the search for a free record. */
    method ScanSector(ghost d: nat, ghost k: nat, c: nat, s: nat) returns (i: nat)
      requires Held() && IsDir(State(), d) && k < |chains[d]| && chains[d][k] == c && s < spc
      requires NoneFree(DirBytes(State(), d), 16 * (k * spc + s))
      modifies this`dirbuf
      ensures i <= 16 && NoneFree(DirBytes(State(), d), 16 * (k * spc + s) + i)
      ensures i < 16 ==> Free(Record(DirBytes(State(), d), 16 * (k * spc + s) + i))
    {
      hide Sound, OnDisk, Copies, DataSector, DirBytes, Record, Free, NoneFree;
      ChainEnd(State(), spc, d, k);
      ClusterRow(State(), c, spc);
      DataAt(disk, fats, data, g, c, s);
      dirbuf := disk[DataSector(g, c, s)];
      i := FirstFree();
      Scanned(State(), g, d, k, s, i);
    }

    /** The search of `fat_create`: the first record that may be written over, or the last cluster
        of a directory that has none. */
    method FindSlot(ghost d: nat, start: nat) returns (found: bool, sec: nat, off: nat, last: nat, ghost j: nat)
      requires Held() && IsDir(State(), d) && chains[d] != [] && start == chains[d][0]
      modifies this`dirbuf, this`secbuf
      ensures Held() && NoneFree(DirBytes(State(), d), j)
      ensures found ==> Spot(State(), g, d, j, sec, off) && Free(Record(DirBytes(State(), d), j))
      ensures !found ==> j == Slots(g, chains[d]) && last == chains[d][|chains[d]| - 1]
    {
      hide Sound, OnDisk, Copies, DataSector, DirBytes, Record, Free, NoneFree, Spot, Next;
      var c := start;
      ghost var k := 0;
      last := start;
      NothingFree(DirBytes(State(), d));
      while c != 0
        invariant Held() && k <= |chains[d]| && c == (if k < |chains[d]| then chains[d][k] else 0)
        invariant NoneFree(DirBytes(State(), d), 16 * (k * spc))
        invariant k > 0 ==> last == chains[d][k - 1]
        decreases |chains[d]| - k
      {
        last := c;
        for s := 0 to spc
          invariant Held() && NoneFree(DirBytes(State(), d), 16 * (k * spc + s))
        {
          var i := ScanSector(d, k, c, s);
          NextSector(k, s, spc);
          if i < 16 {
            SpotAt(State(), g, d, k, s, i);
            return true, DataSector(g, c, s), 32 * i, last, 16 * (k * spc + s) + i;
          }
        }
        NextSector(k, 0, spc);
        ChainEnd(State(), spc, d, k);
        c := FatNext(c);
        k := k + 1;
      }
      HeadNot(State(), d, k, spc);
      return false, 0, 0, last, 16 * (k * spc);
    }

    /** A directory without a free record gets another cluster behind its last. */
    method GrowDir(ghost d: nat, last: nat) returns (c: nat)
      requires Valid() && IsDir(State(), d) && chains[d] != [] && last == chains[d][|chains[d]| - 1]
      requires NoneFree(DirBytes(State(), d), Slots(g, chains[d]))
      modifies this
      ensures Valid() && dir == old(dir) && IsDir(State(), d)
      ensures c == 0 ==> State() == old(State()) && Exhausted(State())
      ensures c != 0 ==> chains == old(chains)[d := old(chains)[d] + [c]] && c >= 2 && !Exhausted(old(State()))
      ensures c != 0 ==>
          forall key: nat :: SameElse(old(State()), State(), key, spc) && OneRecord(old(State()), State(), g, key)
      ensures c != 0 ==> Spot(State(), g, d, Slots(g, old(chains)[d]), DataSector(g, c, 0), 0)
      ensures c != 0 ==>
          Free(Record(DirBytes(State(), d), Slots(g, old(chains)[d])))
          && NoneFree(DirBytes(State(), d), Slots(g, old(chains)[d]))
    {
      hide Sound, OnDisk, Copies, Dirs, Owns, Others, RawOf, SameElse, OneRecord, FileOf, DirBytes, Slots, Record,
        Spot, NoneFree, Good, EntryOk;
      ghost var v := State();
      GoodIs(v, spc);
      ghost var n := |chains[d]|;
      ChainEnd(v, spc, d, n - 1);
      c := ClusAlloc();
      if c == 0 { return; }
      ghost var w := State();
      TakenOk(v, c, spc);
      TakenSize(v, c, spc);
      JoinedOk(w, d, c, spc);
      var ok := FatSet(last, c);
      use, chains := use[c := Of(d)], chains[d := chains[d] + [c]];
      assert State() == Joined(w, d, c);
      GrownDir(v, w, State(), g, d, c);
      OwnsGrown(v, State(), g, d, c);
    }

    /** A new file's record is written over a free one. */
    method PutNew(ghost d: nat, ghost j: nat, sec: nat, off: nat, name: seq<Byte>)
      requires Valid() && Spot(State(), g, d, j, sec, off) && Free(Record(DirBytes(State(), d), j))
      requires NoneFree(DirBytes(State(), d), j)
      requires |name| == 11 && name[0] != 0
      modifies this`disk, this`data, this`dirbuf, this`dir, this`chains
      ensures Valid() && sec * 16 + off / 32 !in old(dir) && sec * 16 + off / 32 != ROOT
      ensures Spot(State(), g, d, j, sec, off)
      ensures SameElse(old(State()), State(), sec * 16 + off / 32, spc)
      ensures OneRecord(old(State()), State(), g, sec * 16 + off / 32)
      ensures Record(DirBytes(State(), d), j) == NewFile(name)
      ensures name[0] == DELETED ==> dir == old(dir) && chains == old(chains)
      ensures name[0] != DELETED ==>
          dir == old(dir)[sec * 16 + off / 32 := Dirent(0, 0, false)] && EmptyFile(State(), sec * 16 + off / 32, spc)
      ensures name[0] != DELETED ==> chains == old(chains)[sec * 16 + off / 32 := []]
    {
      hide Sound, OnDisk, Copies, Dirs, Owns, Others, RawOf, SameElse, OneRecord, FileOf, DirBytes, Slots, Record,
        NoneFree, Good, EntryOk, EmptyFile, KeyAt, Free, NewFile, Decoded;
      ghost var v, key, e := State(), sec * 16 + off / 32, NewFile(name);
      FreeRecord(v, g, d, j);
      NewFileIs(name);
      ReadSpot(d, j, sec, off);
      dirbuf := Over(dirbuf, off, NewFile(name));
      if name[0] != DELETED {
        AddedFrom(v, key, d, spc);
        dir := dir[key := Dirent(0, 0, false)];
        chains := chains[key := []];
      }
      ghost var x := State();
      StoreSpot(d, j, sec, off, e);
      Named(v, x, State(), g, d, j, e, key);
      OwnsAdded(v, State(), g, d, j, key);
    }

    /** `fat_create`, once the path has been looked up: a record for an empty file, the first that
        was free or one in a new cluster of the directory. A name that does not fit is refused. */
    method Create(ghost d: nat, start: nat, name: seq<Byte>) returns (f: Handle?, ghost j: nat)
      requires Valid() && IsDir(State(), d) && chains[d] != [] && start == chains[d][0] && 0 !in name
      modifies this
      ensures Valid()
      ensures f == null <==> !NameFits(name) || (!RoomIn(old(State()), g, d) && Exhausted(old(State())))
      ensures f == null ==> State() == old(State())
      ensures f != null ==> DirsStay(old(State()), State())
      ensures f != null ==>
          fresh(f) && NameFits(name) && f.Slot() !in old(dir) && IsDir(old(State()), d)
          && Spot(State(), g, d, j, f.dirSec, f.dirOff)
      ensures f != null ==>
          SameElse(old(State()), State(), f.Slot(), spc) && OneRecord(old(State()), State(), g, f.Slot())
      ensures f != null ==>
          Record(DirBytes(State(), d), j) == NewFile(Name83(name)) && f.cluster == 0 && f.size == 0 && !f.isDir
      ensures f != null && name[0] == DELETED ==> dir == old(dir)
      ensures f != null && name[0] != DELETED ==>
          Current(f) && dir == old(dir)[f.Slot() := Dirent(0, 0, false)] && EmptyFile(State(), f.Slot(), spc)
      ensures f != null && name[0] != DELETED ==> f.Slot() in chains && chains[f.Slot()] == []
      ensures f != null && RoomIn(old(State()), g, d) ==> t == old(t)
    {
      hide Sound, OnDisk, Copies, Dirs, Owns, Others, RawOf, SameElse, OneRecord, FileOf, DirBytes, Slots, Record,
        NoneFree, Good, EntryOk, KeyAt, Free, NewFile, NameFits, Name83, EmptyFile;
      ghost var v := State();
      var ok, name83 := Make83(name);
      if !ok { return null, 0; }
      NameNotZero(name);
      var found, sec, off, last;
      found, sec, off, last, j := FindSlot(d, start);
      if !found {
        var c := GrowDir(d, last);
        if c == 0 { return null, 0; }
        sec, off := DataSector(g, c, 0), 0;
      } else {
        Unchanged(v, g, sec * 16 + off / 32, spc);
        FoundFree(v, g, d, j, sec, off);
      }
      ghost var w := State();
      PutNew(d, j, sec, off, name83);
      f := new Handle(sec, off, Dirent(0, 0, false));
      ElseThen(v, w, State(), f.Slot(), spc);
      CreatedStay(v, w, State(), g, d, f.Slot());
    }

    // ---- making a directory ----

    /** The two records every directory begins with go into its first sector. */
    method WriteDots(c: nat, parent: nat)
      requires OnDisk(disk, fats, data, g) && 2 <= c < g.total && 0 < g.spc
      modifies this`disk, this`data, this`dirbuf
      ensures OnDisk(disk, fats, data, g)
      ensures c < |old(data)| && 0 < |old(data)[c]| && data == old(data)[c := old(data)[c][0 := DotSector(c, parent)]]
    {
      dirbuf := DotSector(c, parent);
      WriteData(c, 0, dirbuf);
    }

    /** A cluster for the directory whose entry is `o`; without an entry it hangs nowhere. */
    method StartDir(ghost o: nat, parent: nat) returns (c: nat)
      requires Held() && NoLoose(State()) && (o in dir ==> o in chains && chains[o] == [])
      modifies this
      ensures Held() && dir == old(dir)
      ensures c == 0 ==> State() == old(State()) && Exhausted(State())
      ensures c != 0 ==> 2 <= c < total && !Exhausted(old(State())) && old(t)[c] == 0
      ensures c != 0 && o in dir ==> Started(old(State()), State(), g, o, c, parent)
      ensures c != 0 && o !in dir ==> chains == old(chains) && c < |old(use)| && use == old(use)[c := Loose]
    {
      hide Sound, OnDisk, Copies, Others, RawOf, DirBytes, Slots, Record, DotSector, Started;
      ghost var v := State();
      c := ClusAlloc();
      if c == 0 { return; }
      ghost var w := State();
      TakenOk(v, c, spc);
      TakenSize(v, c, spc);
      ClusterRow(v, c, spc);
      Positive(w, spc);
      if o in dir {
        JoinedOk(w, o, c, spc);
        use, chains := use[c := Of(o)], chains[o := chains[o] + [c]];
      }
      ghost var x := State();
      LooseSound(x, c, DotSector(c, parent), spc);
      WriteDots(c, parent);
      assert State() == Stored(x, c, 0, DotSector(c, parent));
      if o in dir { HasStarted(v, w, x, State(), g, o, c, parent); }
    }

    /** The record of a new directory gets the directory bit and the first cluster. */
    method MarkDir(ghost d: nat, ghost j: nat, sec: nat, off: nat, c: nat)
      requires Held() && Spot(State(), g, d, j, sec, off)
      modifies this`disk, this`data, this`dirbuf
      ensures Held() && Others(old(State()), State(), d) && 32 * j + 32 <= |DirBytes(old(State()), d)|
      ensures DirBytes(State(), d)
          == Over(DirBytes(old(State()), d), 32 * j, MadeDir(Record(DirBytes(old(State()), d), j), c))
    {
      hide Sound, OnDisk, Copies, Others, DirBytes, Slots, Record, KeyAt, MadeDir, Wr16, Wr32, Over;
      ReadSpot(d, j, sec, off);
      SectorMade(dirbuf, off, c);
      ghost var e := MadeDir(dirbuf[off..off + 32], c);
      dirbuf := dirbuf[off + 11 := 0x10];
      dirbuf := Wr32(dirbuf, off + 28, 0);
      dirbuf := Wr16(dirbuf, off + 20, c / 65536 % 65536);
      dirbuf := Wr16(dirbuf, off + 26, c % 65536);
      StoreSpot(d, j, sec, off, e);
    }

    /** The half of `fat_mkdir` after the record is there: one cluster, the directory's own two
        records in it, and the directory bit. When the record is no entry the cluster is lost. */
    method MakeDir(f: Handle, ghost d: nat, ghost j: nat, parent: nat) returns (ok: bool)
      requires Valid() && Spot(State(), g, d, j, f.dirSec, f.dirOff)
      requires (f.Slot() in dir ==> dir[f.Slot()] == Dirent(0, 0, false)) && parent == Up(State(), d)
      modifies this, f
      ensures Held() && f.isDir == (ok || old(f.isDir)) && f.size == old(f.size)
      ensures !ok ==> State() == old(State()) && Exhausted(State()) && f.cluster == old(f.cluster)
      ensures ok ==> f.cluster < |old(t)| && old(t)[f.cluster] == 0 && !Exhausted(old(State()))
      ensures ok && f.Slot() !in old(dir) ==>
          dir == old(dir) && chains == old(chains) && f.cluster < |old(use)| && use == old(use)[f.cluster := Loose]
      ensures ok && f.Slot() in old(dir) ==>
          Valid() && SameElse(old(State()), State(), f.Slot(), spc) && OneRecord(old(State()), State(), g, f.Slot())
      ensures ok && f.Slot() in old(dir) ==>
          dir == old(dir)[f.Slot() := Dirent(f.cluster, 0, true)] && NewDir(State(), f.Slot(), f.cluster, parent)
      ensures ok && f.Slot() in old(dir) ==> Spot(State(), g, d, j, f.dirSec, f.dirOff)
    {
      hide Sound, OnDisk, Copies, Others, DirBytes, Slots, Record, KeyAt, Dirs, Owns, Good, SameElse, OneRecord,
        FileOf, EntryOk, MadeDir, NewDir, Started;
      ghost var v, o := State(), f.Slot();
      GoodIs(v, spc);
      if o in dir { EmptyChain(v, o, spc); }
      var c := StartDir(o, parent);
      if c == 0 { return false; }
      ghost var u := State();
      f.cluster, f.isDir := c, true;
      if o in dir { StartedSpot(v, u, g, d, j, o, c, parent, f.dirSec, f.dirOff); }
      if o in dir { dir := dir[o := Dirent(c, 0, true)]; }
      ghost var y := State();
      SameSound(u, y, spc);
      MarkDir(d, j, f.dirSec, f.dirOff, c);
      if o in dir {
        MadeFrom(v, u, y, State(), g, d, j, o, c, parent);
        OwnsMade(v, u, State(), g, d, j, o, c);
      }
      ok := true;
    }

    /** `fat_mkdir`: a new record, then a cluster for it. Without one the entry stays what
        `fat_create` made it, an empty file. */
    method Mkdir(ghost d: nat, start: nat, name: seq<Byte>) returns (ok: bool, f: Handle?, ghost j: nat)
      requires Valid() && IsDir(State(), d) && chains[d] != [] && start == chains[d][0] && 0 !in name
      modifies this
      ensures f == null ==> !ok && State() == old(State()) && (NameFits(name) ==> Exhausted(State()))
      ensures f != null ==>
          fresh(f) && |name| > 0 && NameFits(name) && f.Slot() !in old(dir)
          && (!ok ==> Exhausted(State()))
      ensures f != null && name[0] != DELETED ==>
          Valid() && SameElse(old(State()), State(), f.Slot(), spc) && OneRecord(old(State()), State(), g, f.Slot())
          && dir == old(dir)[f.Slot() := Dirent(f.cluster, 0, ok)] && (!ok ==> f.cluster == 0) && Found(f, d, j)
          && (ok ==> NewDir(State(), f.Slot(), f.cluster, if start == g.root then 0 else start))
      ensures ok && name[0] == DELETED ==> Held() && dir == old(dir) && !NoLoose(State())
      ensures f != null && !ok && RoomIn(old(State()), g, d) ==> Exhausted(old(State()))
    {
      hide Sound, OnDisk, Copies, Others, DirBytes, Slots, Record, KeyAt, Dirs, Owns, Good, SameElse, OneRecord,
        FileOf, EntryOk, NewDir, NameFits, Name83, NewFile, EmptyFile, NoneFree, Live, Decoded;
      ghost var v := State();
      f, j := Create(d, start, name);
      if f == null { return false, f, j; }
      ghost var w := State();
      NameNotZero(name);
      UpIs(v, g, d);
      UpStays(v, w, g, d);
      ok := MakeDir(f, d, j, if start == g.root then 0 else start);
      if ok {
        if name[0] != DELETED {
          ElseThen(v, w, State(), f.Slot(), spc);
          RecordsThen(v, w, State(), g, f.Slot());
        } else {
          assert use[f.cluster] == Loose;
        }
      }
      if name[0] != DELETED { EntryRecord(State(), g, d, j, f.Slot()); }
    }

    // ---- looking into a directory ----

    /** One sector of the count of `fat_dirent`, which is in the scratch sector. */
    method ListSector(ghost d: nat, ghost m: nat, ghost n: nat, index: nat, seen0: nat) returns (done: bool,
        found: bool, e: seq<Byte>, seen: nat)
      requires SectorAt(State(), g, d, m, dirbuf) && m + 16 <= n && Passed(DirBytes(State(), d), m, n, seen0)
      requires seen0 <= index
      ensures !done ==> seen <= index && Passed(DirBytes(State(), d), m + 16, n, seen)
      ensures done ==> Answers(DirBytes(State(), d), n, index, found, e)
    {
      hide DirBytes, Record, Passed, Listed, Live;
      seen, e := seen0, [];
      var i := 0;
      while i < 16
        invariant i <= 16 && seen <= index && Passed(DirBytes(State(), d), m + i, n, seen)
      {
        e := dirbuf[32 * i..32 * i + 32];
        ListedAt(State(), g, d, m, dirbuf, i, n, seen);
        if e[0] == 0 { return true, false, e, seen; }
        if Live(e) {
          if seen == index { return true, true, e, seen; }
          seen := seen + 1;
        }
        i := i + 1;
      }
      done, found := false, false;
    }

    /** A directory's sector is read. */
    method ReadSector(ghost d: nat, ghost k: nat, c: nat, s: nat)
      requires Held() && d in chains && k < |chains[d]| && chains[d][k] == c && s < spc
      modifies this`dirbuf
      ensures SectorAt(State(), g, d, 16 * (k * spc + s), dirbuf)
    {
      hide Sound, OnDisk, Copies, DataSector, SectorAt;
      ChainEnd(State(), spc, d, k);
      ClusterRow(State(), c, spc);
      DataAt(disk, fats, data, g, c, s);
      SectorIs(State(), g, d, k, s);
      dirbuf := disk[DataSector(g, c, s)];
    }

    /** `fat_dirent`: the record listed under a number, if there is one. */
    method NthEntry(ghost d: nat, start: nat, index: nat) returns (found: bool, e: seq<Byte>)
      requires Held() && IsDir(State(), d) && chains[d] != [] && start == chains[d][0]
      modifies this`dirbuf, this`secbuf
      ensures Held() && Answers(DirBytes(State(), d), Slots(g, chains[d]), index, found, e)
    {
      hide Sound, OnDisk, Copies, DirBytes, Record, Passed, Listed, Next, SectorAt, Answers;
      ghost var n := Slots(g, chains[d]);
      ghost var raw := DirBytes(State(), d);
      var c, seen: nat := start, 0;
      ghost var k := 0;
      PassNone(raw, n);
      while c != 0
        invariant Held() && k <= |chains[d]| && c == (if k < |chains[d]| then chains[d][k] else 0)
        invariant seen <= index && Passed(raw, 16 * (k * spc), n, seen)
        decreases |chains[d]| - k
      {
        for s := 0 to spc
          invariant Held() && seen <= index && Passed(raw, 16 * (k * spc + s), n, seen)
        {
          NextSector(k, s, spc);
          SectorInside(g, |chains[d]|, k, s);
          ReadSector(d, k, c, s);
          var done;
          done, found, e, seen := ListSector(d, 16 * (k * spc + s), n, index, seen);
          if done { return; }
        }
        NextSector(k, 0, spc);
        ChainEnd(State(), spc, d, k);
        c := FatNext(c);
        k := k + 1;
      }
      HeadNot(State(), d, k, spc);
      NotListed(raw, n, seen, index);
      found, e := false, [];
    }

    /** The test of `fat_unlink`: nothing is listed but "." and "..". */
    method IsBare(ghost d: nat, start: nat) returns (bare: bool)
      requires Held() && IsDir(State(), d) && chains[d] != [] && start == chains[d][0]
      modifies this`dirbuf, this`secbuf
      ensures Held() && (bare <==> Bare(DirBytes(State(), d), Slots(g, chains[d])))
    {
      hide Sound, OnDisk, Copies, DirBytes, Record, Listed, Slots, Dots;
      ghost var raw, n := DirBytes(State(), d), Slots(g, chains[d]);
      ghost var l := Listed(raw, 0, n);
      var i := 0;
      while true
        invariant Held() && i <= |l| && forall m :: 0 <= m < i ==> Dots(Record(raw, l[m]))
        decreases |l| - i
      {
        var found, e := NthEntry(d, start, i);
        if !found { return true; }
        if !Dots(e) { assert l[i] in l; return false; }
        i := i + 1;
      }
    }

    /** One sector of the search of `dir_find`, which is in the scratch sector. */
    method FindSector(ghost d: nat, ghost m: nat, name: seq<Byte>) returns (end: bool, i: nat)
      requires SectorAt(State(), g, d, m, dirbuf) && NoneNamed(DirBytes(State(), d), m, name)
      ensures i <= 16 && NoneNamed(DirBytes(State(), d), m + i, name)
      ensures end ==> i < 16 && Record(DirBytes(State(), d), m + i)[0] == 0
      ensures !end && i < 16 ==>
          Live(Record(DirBytes(State(), d), m + i)) && Matches(Record(DirBytes(State(), d), m + i), name)
    {
      hide DirBytes, Record, Live, Matches, NoneNamed;
      i := 0;
      while i < 16
        invariant i <= 16 && NoneNamed(DirBytes(State(), d), m + i, name)
      {
        var e := dirbuf[32 * i..32 * i + 32];
        if e[0] == 0 { return true, i; }
        if Live(e) && Matches(e, name) { return false, i; }
        NoneNamedMore(DirBytes(State(), d), m + i, name);
        i := i + 1;
      }
      end := false;
    }

    /** `dir_find` by short name: the first record listed under it, and for an entry a handle that
        says what the directory says. */
    method DirFind(ghost d: nat, start: nat, name: seq<Byte>) returns (f: Handle?, ghost j: nat)
      requires Valid() && IsDir(State(), d) && chains[d] != [] && start == chains[d][0]
      modifies this`dirbuf, this`secbuf
      ensures Valid() && NoneNamed(DirBytes(State(), d), j, name)
      ensures f == null ==> j == Slots(g, chains[d])
      ensures f != null ==> fresh(f) && Found(f, d, j) && Matches(Record(DirBytes(State(), d), j), name)
      ensures f != null && IsEntry(d, j) ==> Current(f)
    {
      hide Sound, OnDisk, Copies, Dirs, Owns, Good, DataSector, DirBytes, Record, NoneNamed, SectorAt, Next, Live,
        Matches, Decoded, Packed, KeyAt;
      ghost var raw := DirBytes(State(), d);
      DirPacked(State(), g, d);
      var c := start;
      ghost var k := 0;
      NothingNamed(raw, name);
      while c != 0
        invariant Held() && k <= |chains[d]| && c == (if k < |chains[d]| then chains[d][k] else 0)
        invariant NoneNamed(raw, 16 * (k * spc), name)
        decreases |chains[d]| - k
      {
        for s := 0 to spc
          invariant Held() && NoneNamed(raw, 16 * (k * spc + s), name)
        {
          NextSector(k, s, spc);
          SectorInside(g, |chains[d]|, k, s);
          ReadSector(d, k, c, s);
          var end, i := FindSector(d, 16 * (k * spc + s), name);
          if end {
            NoneBehind(raw, 16 * (k * spc + s) + i, Slots(g, chains[d]), name);
            return null, Slots(g, chains[d]);
          }
          if i < 16 {
            j := 16 * (k * spc + s) + i;
            SpotAt(State(), g, d, k, s, i);
            FoundEntry(State(), g, d, j);
            f := Opened(d, j, DataSector(g, c, s), 32 * i);
            return;
          }
        }
        NextSector(k, 0, spc);
        ChainEnd(State(), spc, d, k);
        c := FatNext(c);
        k := k + 1;
      }
      HeadNot(State(), d, k, spc);
      f, j := null, 16 * (k * spc);
    }

    /** A handle for a record. */
    method Opened(ghost d: nat, ghost j: nat, sec: nat, off: nat) returns (f: Handle)
      requires Held() && Spot(State(), g, d, j, sec, off)
      modifies this`dirbuf
      ensures fresh(f) && f.dirSec == sec && f.dirOff == off
      ensures Dirent(f.cluster, f.size, f.isDir) == Decoded(Record(DirBytes(State(), d), j))
    {
      hide Sound, OnDisk, Copies, DirBytes, Record, KeyAt, Slots, Decoded;
      ReadSpot(d, j, sec, off);
      f := new Handle(sec, off, Decoded(dirbuf[off..off + 32]));
    }

    // ---- removing an entry ----

    /** The first byte of a record is written with the mark of a deleted one. The record's place is
        known from the volume `v` before its chain was given back. */
    method Erase(ghost v: V, ghost d: nat, ghost j: nat, sec: nat, off: nat)
      requires Held() && Sound(v, spc) && |v.t| == total && Spot(v, g, d, j, sec, off)
      requires (d in chains && chains[d] == v.chains[d]) || forall k :: 0 <= k < |v.chains[d]| ==>
          v.chains[d][k] < |use| && use[v.chains[d][k]] == Spare
      modifies this`disk, this`data, this`dirbuf
      ensures Held() && Erased(v, old(State()), State(), g, d, j)
    {
      hide Sound, OnDisk, Copies, DataSector, DirBytes, Record, KeyAt, Slots, Others, RawOf, Erased;
      ghost var y := State();
      ghost var k, s := SpotIs(v, g, d, j, sec, off);
      ghost var c := v.chains[d][k];
      DataAt(disk, fats, data, g, c, s);
      ClusterRow(y, c, spc);
      dirbuf := disk[sec];
      dirbuf := dirbuf[off := DELETED];
      DataPut(disk, fats, data, g, c, s, dirbuf);
      disk := disk[sec := dirbuf];
      data := data[c := data[c][s := dirbuf]];
      HasErased(v, y, State(), g, d, j, k, s, off);
    }

    /** The clusters a record leads to are given back; none if it leads to none. */
    method Release(ghost o: nat, first: nat)
      requires Held() && NoLoose(State()) && o in chains && (first == 0 || first == Head(chains[o]))
      modifies this`disk, this`fats, this`secbuf, this`t, this`use, this`chains
      ensures Held() && Inside(old(chains)[o], |old(use)|) && (first == 0 ==> State() == old(State()))
      ensures first != 0 ==> State() == Emptied(old(State()), o) && Others(old(State()), State(), o)
      ensures forall c :: 0 <= c < total ==> t[c] == if c in Freed(old(State()), o, first) then 0 else old(t)[c]
    {
      hide Sound, OnDisk, Copies, Others, RawOf;
      ghost var v := State();
      EmptiedOk(v, o, spc);
      FreeChain(first);
      if first != 0 {
        use, chains := Spared(use, chains[o]), chains[o := []];
        assert State() == Emptied(v, o);
      }
    }

    /** `fat_unlink`, once the path has been looked up, for any record a lookup can find: exactly the
        clusters it leads to are free, and it is marked deleted. A directory goes only if nothing but
        "." and ".." is listed in it. The volume stays in order exactly when the record is an entry,
        and no other entry lies in the directory if it is one. */
    method Unlink(f: Handle, ghost d: nat, ghost j: nat) returns (r: int)
      requires Valid() && (f.dirSec == 0 || Found(f, d, j))
      modifies this
      ensures r == if f.dirSec == 0 || (f.isDir && !BareDir(old(State()), g, Target(old(State()), g, d, j))) then -1
          else 0
      ensures r == -1 ==> State() == old(State())
      ensures Held()
      ensures Valid() <==> r == -1 || (IsEntry(d, j) && (!f.isDir || NoneElse(old(State()), g, f.Slot())))
      ensures r == 0 ==> forall c :: 0 <= c < total ==>
          t[c] == if c in Freed(old(State()), Target(old(State()), g, d, j), f.cluster) then 0 else old(t)[c]
      ensures r == 0 && IsEntry(d, j) ==> dir == old(dir) - {f.Slot()} && chains == old(chains) - {f.Slot()}
      ensures r == 0 && !IsEntry(d, j) ==> dir == old(dir) && f.isDir
      ensures r == 0 && !IsEntry(d, j) ==>
          if f.cluster != 0 then Astray(State(), spc) else !Live(Record(DirBytes(State(), d), 1))
      ensures Valid() ==>
          SameElse(old(State()), State(), f.Slot(), spc) && OneRecord(old(State()), State(), g, f.Slot())
    {
      hide Sound, OnDisk, Copies, Dirs, Owns, Good, Others, RawOf, SameElse, OneRecord, FileOf, DirBytes, Slots,
        Record, Bare, NoneElse, EntryOk, KeyAt, Erased, Target, Live, Decoded, Astray;
      ghost var v, o := State(), Target(State(), g, d, j);
      Unchanged(v, g, f.Slot(), spc);
      GoodIs(v, spc);
      if f.dirSec == 0 { return -1; }
      RecordLeads(v, g, d, j);
      if f.isDir {
        var bare := IsBare(o, if f.cluster != 0 then f.cluster else g.root);
        if !bare { return -1; }
      }
      Release(o, f.cluster);
      ghost var y := State();
      KeptOrSpare(v, y, d, o, f.cluster);
      Erase(v, d, j, f.dirSec, f.dirOff);
      if IsEntry(d, j) {
        ghost var z := State();
        TargetIs(v, g, d, j);
        if f.cluster == 0 { NoClusters(v, o, spc); }
        dir, chains := dir - {o}, chains - {o};
        assert State() == Removed(z, o);
        Unlinked(v, y, z, g, o, d, j);
        if !f.isDir || NoneElse(v, g, o) { RemovedDirs(v, y, z, o, d); OwnsLeft(v, State(), g, o); }
      } else if f.cluster != 0 {
        OwnFreed(v, State(), g, o, f.cluster);
      } else {
        OwnGone(v, State(), g, d);
      }
      r := 0;
    }
  }
}
