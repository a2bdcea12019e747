/** Runs of `fat.c` after which a volume is not in order. */
module FatBroken {
  import opened Bits
  import opened FatWords
  import opened FatChains
  import opened FatFiles
  import opened FatRecords
  import opened FatNames
  import opened FatState
  import opened FatDisk
  import opened FatDirs
  import opened FatWriting
  import opened FatMaking
  import opened FatOwn
  import opened FatVolume

  // ---- removing a directory by its own name ----

  /** A directory's first record is the one that ".", looked up in it, finds. */
  lemma {:induction false} DotFirst(v: V, g: Layout, d: nat, j: nat)
    requires Good(v, g.spc) && Dirs(v, g) && Owns(v, g) && IsDir(v, d) && d != ROOT
    requires NoneNamed(DirBytes(v, d), j, [DOT])
    ensures j == 0
  {
    hide Good, KeyAt, Slots, DirBytes, Record, Decoded, Live, ShortName;
    OwnsIs(v, g, d);
    DirChain(v, g, d);
    assert DirOk(v.dir, DirBytes(v, d), v.chains[d], d == ROOT, g);
    assert RecordOk(v.dir, KeyAt(g, v.chains[d], 0), Record(DirBytes(v, d), 0), d != ROOT && 0 < 2);
    assert Matches(Record(DirBytes(v, d), 0), [DOT]);
  }

  /** `unlink("d/.")` for any directory `d` in which nothing else is listed: it succeeds, and the
      directory's entry names a cluster that is free. */
  method RemoveSelf(vol: Volume, ghost d: nat, start: nat) returns (r: int)
    requires vol.Valid() && IsDir(vol.State(), d) && d != ROOT && vol.chains[d] != [] && start == vol.chains[d][0]
    requires BareDir(vol.State(), vol.g, d)
    modifies vol
    ensures r == 0 && vol.Held() && !vol.Valid() && Astray(vol.State(), vol.spc)
    ensures vol.dir == old(vol.dir) && d in vol.dir && vol.dir[d].cluster == start < |vol.t| && vol.t[start] == 0
  {
    hide Good, Dirs, Owns, Sound, OnDisk, Copies, DirBytes, Slots, Record, KeyAt, Bare, Live, Decoded, Matches,
      NoneNamed, SameElse, OneRecord, NoneElse, Astray, ParentOf;
    ghost var v := vol.State();
    ghost var j;
    var f;
    f, j := vol.DirFind(d, start, [DOT]);
    DirChain(v, vol.g, d);
    DotFirst(v, vol.g, d, j);
    assert f != null;
    DotLeads(v, vol.g, d);
    GoodIs(v, vol.spc);
    PlaceSector(v, vol.g, d, j, f.dirSec, f.dirOff);
    r := vol.Unlink(f, d, j);
  }

  lemma {:induction false} DotLeads(v: V, g: Layout, d: nat)
    requires Good(v, g.spc) && Dirs(v, g) && Owns(v, g) && IsDir(v, d) && d != ROOT
    ensures d in v.dir && Decoded(Record(DirBytes(v, d), 0)).isDir && v.chains[d] != []
    ensures v.dir[d].cluster == Decoded(Record(DirBytes(v, d), 0)).cluster == v.chains[d][0]
    ensures 2 <= v.chains[d][0] < |v.t|
  {
    hide Dirs, KeyAt, Slots, DirBytes, Record, Decoded, Sound;
    OwnsIs(v, g, d);
    assert EntryOk(v, d, g.spc);
    HeadTaken(v, d, g.spc);
  }

  // ---- a file named "..." ----

  /** What was listed in a directory, and the new record. */
  lemma {:induction false} StillBare(v: V, w: V, g: Layout, o: nat, j: nat, key: nat)
    requires Dirs(v, g) && Dirs(w, g) && Sound(w, g.spc) && IsDir(v, o) && BareDir(v, g, o) && DirsStay(v, w)
    requires OneRecord(v, w, g, key) && w.dir == v.dir[key := Dirent(0, 0, false)] && Lies(w, g, o, j, key)
    requires Dots(Record(DirBytes(w, o), j))
    ensures BareDir(w, g, o)
  {
    hide Sound, KeyAt, Slots, DirBytes, Record, Dots, Bare, DirOk, Homed, OneRecord;
    BareIff(v, g, o);
    forall l, p | p in w.dir && Lies(w, g, o, l, p) ensures Dots(Record(DirBytes(w, o), l)) {
      if p == key { KeysApart(w, g, o, l, o, j); } else { LaidBefore(v, w, g, o, l, p, key); }
    }
    BareIff(w, g, o);
  }

  /** An entry that was there is the record it was. */
  lemma {:induction false} LaidBefore(v: V, w: V, g: Layout, o: nat, l: nat, p: nat, key: nat)
    requires Dirs(v, g) && Sound(w, g.spc) && DirsStay(v, w) && OneRecord(v, w, g, key)
    requires p in v.dir && p != key && Lies(w, g, o, l, p)
    ensures Lies(v, g, o, l, p) && Record(DirBytes(w, o), l) == Record(DirBytes(v, o), l)
  {
    hide Sound, KeyAt, Slots, DirBytes, Record, DirOk;
    var e, m := HomeOf(v, g, p);
    KeyPrefix(g, v.chains[e], w.chains[e], m);
    KeysApart(w, g, o, l, e, m);
  }

  /** A handle stays good when another record changes. */
  lemma {:induction false} StillFound(v: V, w: V, g: Layout, d: nat, j: nat, sec: nat, off: nat, key: nat)
    requires DirsStay(v, w) && OneRecord(v, w, g, key) && Spot(v, g, d, j, sec, off) && sec * 16 + off / 32 != key
    ensures Spot(w, g, d, j, sec, off) && Record(DirBytes(w, d), j) == Record(DirBytes(v, d), j)
  {
    hide KeyAt, Slots, DirBytes, Record;
    KeyPrefix(g, v.chains[d], w.chains[d], j);
  }

  /** `creat("d/...")` and `unlink("d")` for any directory `d` in which nothing but dots is listed:
      if the file can be made, the directory goes, and the file lies nowhere. */
  method HideAndRemove(vol: Volume, f: Handle, ghost d: nat, ghost j: nat) returns (made: bool, r: int, ghost lost: nat)
    requires vol.Valid() && vol.Found(f, d, j) && IsEntry(d, j) && f.isDir
    requires BareDir(vol.State(), vol.g, f.Slot())
    modifies vol
    ensures made <==> RoomIn(old(vol.State()), vol.g, f.Slot()) || !Exhausted(old(vol.State()))
    ensures made ==> r == 0 && vol.Held() && !vol.Valid()
    ensures made ==> lost in vol.dir && lost !in old(vol.dir) && !Homed(vol.State(), vol.g, lost)
  {
    hide Good, Dirs, Owns, Sound, OnDisk, Copies, DirBytes, Slots, Record, KeyAt, Bare, Live, Decoded, Matches,
      NoneFree, SameElse, OneRecord, Lies, ParentOf, RoomIn, Exhausted, EmptyFile, Dots, NameFits, Name83;
    ghost var v, o, g := vol.State(), f.Slot(), vol.g;
    assert Lies(v, g, d, j, o) by { SpotLies(v, g, d, j, f.dirSec, f.dirOff); }
    RecordLeads(v, g, d, j);
    TargetIs(v, g, d, j);
    GoodIs(v, vol.spc);
    PlaceSector(v, g, d, j, f.dirSec, f.dirOff);
    ThreeDots();
    ghost var l;
    var h;
    h, l := vol.Create(o, f.cluster, [DOT, DOT, DOT]);
    if h == null { return false, -1, 0; }
    ghost var w := vol.State();
    lost := h.Slot();
    SpotLies(w, g, o, l, h.dirSec, h.dirOff);
    StillBare(v, w, g, o, l, lost);
    StillFound(v, w, g, d, j, f.dirSec, f.dirOff, lost);
    TargetIs(w, g, d, j);
    r := vol.Unlink(f, d, j);
    made := true;
    LiesNowhere(w, vol.State(), g, o, l, lost);
  }

  lemma {:induction false} SpotLies(v: V, g: Layout, d: nat, j: nat, sec: nat, off: nat)
    requires Spot(v, g, d, j, sec, off)
    ensures Lies(v, g, d, j, sec * 16 + off / 32)
  {
  }

  /** The entry's directory is gone. */
  lemma {:induction false} LiesNowhere(w: V, x: V, g: Layout, o: nat, l: nat, lost: nat)
    requires Sound(w, g.spc) && Lies(w, g, o, l, lost) && lost in w.dir && lost != o
    requires x.dir == w.dir - {o} && x.chains == w.chains - {o}
    ensures !NoneElse(w, g, o) && !Homed(x, g, lost)
  {
    hide Sound, KeyAt, Slots;
    if Homed(x, g, lost) {
      var e, m :| Lies(x, g, e, m, lost);
      KeysApart(w, g, e, m, o, l);
    }
  }

  // ---- from a new disk ----

  /** One copy of the table in one sector, and two clusters of one sector. */
  const Small := Layout(1, 1, 1, 1, 4, 2)

  const ZeroSector: seq<Byte> := seq(SECTOR, i => 0)

  /** The root directory's cluster is the last of its chain; the other is free. */
  const TableStart: seq<Byte> :=
    [0xf8, 0xff, 0xff, 0x0f, 0xff, 0xff, 0xff, 0x0f, 0xff, 0xff, 0xff, 0x0f] + seq(500, i => 0)

  const NewDisk := [ZeroSector, TableStart, ZeroSector, ZeroSector]

  lemma {:induction false} OneCopy(x: seq<Byte>, t: seq<nat>)
    requires |x| == SECTOR && |t| == 4 && forall c :: 0 <= c < 4 ==> Low(Rd32(x, 4 * c)) == t[c]
    ensures Copies([[x]], t)
  {
    hide Rd32, Low;
    forall c | 0 <= c < 4 ensures c / 128 < |[x]| && Low(Entry([x], c)) == t[c] {
      assert c / 128 == 0 && c % 128 * 4 == 4 * c;
    }
    assert CopyOk([x], 4);
  }

  lemma {:induction false} TableBytes()
    ensures |TableStart| == SECTOR && TableStart[0..4] == [0xf8, 0xff, 0xff, 0x0f]
    ensures TableStart[4..8] == [0xff, 0xff, 0xff, 0x0f] && TableStart[8..12] == [0xff, 0xff, 0xff, 0x0f]
    ensures forall i :: 12 <= i < SECTOR ==> TableStart[i] == 0
  {
  }

  lemma {:induction false} LastWord(x: seq<Byte>, o: nat, b: Byte)
    requires o + 4 <= |x| && x[o..o + 4] == [b, 0xff, 0xff, 0x0f]
    ensures Low(Rd32(x, o)) == 0x0fff_ff00 + b
  {
    var y := x[o..o + 4];
    assert x[o] == y[0] && x[o + 1] == y[1] && x[o + 2] == y[2] && x[o + 3] == y[3];
  }

  lemma {:induction false} RootOnly(x: seq<Byte>, t: seq<nat>)
    requires |x| == SECTOR && t == [EOC, LOW - 1, LOW - 1, 0] && x[0..4] == [0xf8, 0xff, 0xff, 0x0f]
    requires x[4..8] == [0xff, 0xff, 0xff, 0x0f] && x[8..12] == [0xff, 0xff, 0xff, 0x0f]
    requires forall i :: 12 <= i < SECTOR ==> x[i] == 0
    ensures Copies([[x]], t)
  {
    hide Copies, Rd32;
    LastWord(x, 0, 0xf8);
    LastWord(x, 4, 0xff);
    LastWord(x, 8, 0xff);
    ZeroWord(x, 12);
    forall c | 0 <= c < 4 ensures Low(Rd32(x, 4 * c)) == t[c] {
      assert c == 0 || c == 1 || c == 2 || c == 3;
    }
    OneCopy(x, t);
  }

  lemma {:induction false} NewTable()
    ensures Copies([[TableStart]], Blank(4, 1).t) && |Blank(4, 1).t| == 4
  {
    hide Copies, Zeroed, TableStart;
    TableBytes();
    assert Blank(4, 1).t == [EOC, LOW - 1, LOW - 1, 0];
    RootOnly(TableStart, Blank(4, 1).t);
  }

  lemma {:induction false} TwoClusters(disk: seq<seq<Byte>>, data: seq<seq<seq<Byte>>>)
    requires |disk| == 4 && |data| == 4 && forall c :: 2 <= c < 4 ==> data[c] == [disk[c]]
    ensures OnDisk(disk, [[disk[1]]], data, Small)
  {
    forall c, s | 2 <= c < 4 && 0 <= s < 1
      ensures DataSector(Small, c, s) < |disk| && disk[DataSector(Small, c, s)] == data[c][s]
    {
      assert DataSector(Small, c, s) == c;
    }
  }

  lemma {:induction false} NewData()
    ensures OnDisk(NewDisk, [[TableStart]], Blank(4, 1).data, Small)
  {
    hide Zeroed, OnDisk;
    OneSector();
    TwoClusters(NewDisk, Blank(4, 1).data);
  }

  lemma {:induction false} OneSector()
    ensures Zeroed(1) == [ZeroSector]
  {
  }

  lemma {:induction false} NewOrder()
    ensures Good(Blank(4, 1), 1) && Dirs(Blank(4, 1), Small) && Owns(Blank(4, 1), Small)
  {
    hide Good, Dirs, OwnsOne, Zeroed;
    FormattedDirs(Small);
    forall x ensures OwnsOne(Blank(4, 1), Small, x) { OwnsNothing(Blank(4, 1), Small, x); }
  }

  /** No entry lies in the first directory that is made on a new volume. */
  lemma {:induction false} OnlyOne(w: V, g: Layout, j: nat, o: nat, c: nat)
    requires Sound(w, g.spc) && Dirs(w, g) && NewDir(w, o, c, 0) && o != ROOT && Lies(w, g, ROOT, j, o)
    requires w.dir.Keys == {o}
    ensures BareDir(w, g, o) && RoomIn(w, g, o)
  {
    hide Sound, KeyAt, Slots, DirBytes, Record, Dots, Bare, DirOk, Homed;
    forall l | Lies(w, g, o, l, o) ensures false { KeysApart(w, g, o, l, ROOT, j); }
    BareIff(w, g, o);
    OwnSlots(w, g, o);
    assert Free(Record(DirBytes(w, o), 2));
  }

  /** `mkdir("/d")` on a new disk. */
  method FirstDir() returns (vol: Volume, f: Handle, ghost j: nat)
    ensures fresh(vol) && fresh(f) && vol.Valid() && vol.Found(f, ROOT, j) && f.isDir && IsDir(vol.State(), f.Slot())
    ensures f.Slot() != ROOT && vol.chains[f.Slot()] == [f.cluster]
    ensures BareDir(vol.State(), vol.g, f.Slot()) && RoomIn(vol.State(), vol.g, f.Slot())
  {
    hide Good, Dirs, Owns, Sound, OnDisk, Copies, DirBytes, Slots, Record, KeyAt, Bare, Live, Decoded,
      SameElse, OneRecord, RoomIn, BareDir, NameFits;
    NewTable();
    NewData();
    NewOrder();
    vol := new Volume(NewDisk, Small, [[TableStart]], Blank(4, 1));
    ghost var v := vol.State();
    RootRoom();
    FitsShort();
    var ok, h;
    assert v.t[3] == 0;
    ok, h, j := vol.Mkdir(ROOT, 2, [0x64]);
    f := h;
    ghost var w := vol.State();
    SpotLies(w, vol.g, ROOT, j, f.dirSec, f.dirOff);
    GoodIs(w, vol.spc);
    EntryRecord(w, vol.g, ROOT, j, f.Slot());
    EntryIs(w, vol.g, f.Slot());
    OnlyOne(w, vol.g, j, f.Slot(), f.cluster);
  }

  lemma {:induction false} FitsShort()
    ensures NameFits([0x64])
  {
    var name: seq<Byte> := [0x64];
    assert Stem(name) == 1;
  }

  lemma {:induction false} RootRoom()
    ensures RoomIn(Blank(4, 1), Small, ROOT)
  {
    var v := Blank(4, 1);
    hide Dirs, Good, Raw;
    ZeroBytes(1);
    RawSnoc(v.data, [], 2);
    NoBytes(v.data);
    assert [] + [2] == [2] && DirBytes(v, ROOT) == Bytes(v.data[2]);
    assert Slots(Small, [2]) == 16;
    assert Free(Record(DirBytes(v, ROOT), 0));
  }

  /** `mkdir("/d")`, `creat("/d/...")`, `unlink("/d")`: every call succeeds, and the volume is not in
      order. */
  method LoseFile() returns (vol: Volume, r: int, ghost lost: nat)
    ensures r == 0 && vol.Held() && !vol.Valid() && lost in vol.dir && !Homed(vol.State(), vol.g, lost)
  {
    hide Good, Dirs, Owns, Sound, OnDisk, Copies, RoomIn, BareDir, Live, Decoded, Record, DirBytes;
    var f, made;
    ghost var j;
    vol, f, j := FirstDir();
    made, r, lost := HideAndRemove(vol, f, ROOT, j);
  }

  /** `mkdir("/d")`, `unlink("/d/.")`: both succeed, and the volume is not in order. */
  method LoseDirectory() returns (vol: Volume, r: int, ghost d: nat)
    ensures r == 0 && vol.Held() && !vol.Valid() && Astray(vol.State(), vol.spc)
    ensures d in vol.dir && vol.dir[d].cluster < |vol.t| && vol.t[vol.dir[d].cluster] == 0
  {
    hide Good, Dirs, Owns, Sound, OnDisk, Copies, RoomIn, BareDir, Live, Decoded, Record, DirBytes, Astray;
    var f;
    ghost var j;
    vol, f, j := FirstDir();
    d := f.Slot();
    r := RemoveSelf(vol, f.Slot(), f.cluster);
  }
}
