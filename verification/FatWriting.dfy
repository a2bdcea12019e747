/** What the steps of reading and writing keep: the table's copies, the bytes in place so far, and
    every other file. */
module FatWriting {
  import opened Bits
  import opened FatWords
  import opened FatChains
  import opened FatFiles
  import opened FatRecords
  import opened FatState
  import opened FatDisk
  import opened FatDirs

  /** Copies agree on the bits that count. */
  ghost predicate Copies(fats: seq<seq<seq<Byte>>>, t: seq<nat>)
  {
    |fats| > 0 && (forall k :: 0 <= k < |fats| ==> CopyOk(fats[k], |t|))
    && forall k, c :: 0 <= k < |fats| && 0 <= c < |t| ==> Low(Entry(fats[k], c)) == t[c]
  }

  lemma {:induction false} PutEverywhere(fats: seq<seq<seq<Byte>>>, after: seq<seq<seq<Byte>>>, t: seq<nat>, c: nat,
      v: nat)
    requires Copies(fats, t) && c < |t| && v < LOW && |after| == |fats|
    requires forall k :: 0 <= k < |fats| ==>
        c / 128 < |fats[k]| && |fats[k][c / 128]| == SECTOR && after[k] == PutEntry(fats[k], c, v)
    ensures Copies(after, t[c := v])
    ensures forall k :: 0 <= k < |fats| ==> Entry(after[k], c) / LOW == Entry(fats[k], c) / LOW
  {
    hide Entry, PutEntry, Low;
    forall k | 0 <= k < |fats|
      ensures CopyOk(after[k], |t|) && Entry(after[k], c) / LOW == Entry(fats[k], c) / LOW
      ensures forall e :: 0 <= e < |t| ==> Low(Entry(after[k], e)) == t[c := v][e]
    {
      PutEntryIs(fats[k], |t|, c, v);
      Small(v);
    }
  }

  lemma {:induction false} Small(v: nat)
    requires v < LOW
    ensures v % LOW == v
  {
  }

  /** The part of a file a read returns. */
  function Part(s: seq<Byte>, off: nat, len: nat): seq<Byte>
  {
    if off >= |s| then [] else if off + len > |s| then s[off..] else s[off..off + len]
  }

  lemma {:induction false} PastEnd(s: seq<Byte>, off: nat, len: nat)
    requires off >= |s|
    ensures Part(s, off, len) == []
  {
  }

  lemma {:induction false} HeadIs(ch: seq<nat>)
    ensures ch != [] ==> Head(ch) == ch[0]
  {
  }

  lemma {:induction false} JoinParts(raw: seq<Byte>, off: nat, a: nat, b: nat)
    requires off + a + b <= |raw|
    ensures raw[off..off + a] + raw[off + a..off + a + b] == raw[off..off + (a + b)]
  {
  }

  /** Short of the end of the file there is a cluster. */
  lemma {:induction false} InsideFile(at: nat, want: nat, off: nat, size: nat, n: nat, k: nat, within: nat, spc: nat)
    requires Fits(size, n, spc) && at == 512 * (k * spc) + within && off + want <= size
    ensures at < off + want ==> k < n
  {
    if k >= n { BaseMono(n, k, spc); }
  }

  lemma {:induction false} PartIs(v: V, o: nat, off: nat, len: nat, out: seq<Byte>, spc: nat)
    requires Sound(v, spc) && o in v.dir && EntryOk(v, o, spc) && !v.dir[o].isDir && off < v.dir[o].size
    requires Inside(v.chains[o], |v.data|) && v.dir[o].size <= |RawOf(v, o)|
    requires |out| == (if off + len > v.dir[o].size then v.dir[o].size - off else len)
    requires out == RawOf(v, o)[off..off + |out|]
    ensures out == Part(FileOf(v, o, spc), off, len)
  {
    hide Raw, Sound;
    var raw, size := RawOf(v, o), v.dir[o].size;
    assert FileOf(v, o, spc) == raw[..size];
    assert raw[..size][off..off + |out|] == raw[off..off + |out|];
  }

  /** One round of the freeing loop. */
  lemma {:induction false} FreeStep(t: seq<nat>, c: nat)
    ensures c < 2 || c >= |t| ==> FreeFrom(t, c) == t
    ensures 2 <= c < |t| ==> FreeFrom(t, c) == FreeFrom(t[c := 0], Next(t, c))
    ensures 2 <= c < |t| && t[c] != 0 ==> NonZero(t[c := 0]) < NonZero(t)
    ensures 2 <= c < |t| && t[c] == 0 ==> t[c := 0] == t && Next(t, c) == 0
  {
    if 2 <= c < |t| && t[c] != 0 { NonZeroFalls(t, c); }
  }

  lemma {:induction false} StillNoLoose(v: V, w: V, o: nat)
    requires NoLoose(v) && o in v.chains && (forall k :: 0 <= k < |v.chains[o]| ==> v.chains[o][k] < |v.use|)
    requires w.use == Spared(v.use, v.chains[o])
    ensures NoLoose(w)
  {
  }

  lemma {:induction false} StartWritten(v: V, o: nat, k: nat, within: nat, off: nat, spc: nat)
    requires Sound(v, spc) && o in v.chains && k < |v.chains[o]| && within < spc * 512
    requires off == 512 * (k * spc) + within
    ensures Inside(v.chains[o], |v.data|) && Written(RawOf(v, o), RawOf(v, o), off, [])
  {
    hide Well, Raw;
    RawSize(v.data, v.chains[o], |v.t|, spc);
    NextBase(k, spc);
    BaseMono(k + 1, |v.chains[o]|, spc);
    LongerSelf(v, o, spc);
    LongerNothing(v, v, o, off);
  }

  lemma {:induction false} MoreWritten(v: V, w: V, x: V, o: nat, off: nat, buf: seq<Byte>, done: nat, take: nat,
      at: nat)
    requires o in v.chains && o in w.chains && o in x.chains && Inside(v.chains[o], |v.data|)
    requires Inside(w.chains[o], |w.data|) && Inside(x.chains[o], |x.data|)
    requires done + take <= |buf| && Written(RawOf(v, o), RawOf(w, o), off, buf[..done]) && at == off + done
    requires at + take <= |RawOf(w, o)|
    requires RawOf(x, o) == Over(RawOf(w, o), at, buf[done..done + take])
    ensures Written(RawOf(v, o), RawOf(x, o), off, buf[..done + take])
  {
    hide Raw, RawOf, Over, Written;
    WrittenMore(RawOf(v, o), RawOf(w, o), off, buf[..done], buf[done..done + take]);
    assert buf[..done] + buf[done..done + take] == buf[..done + take];
  }

  lemma {:induction false} KeepWritten(v: V, x: V, y: V, o: nat, off: nat, z: seq<Byte>, spc: nat)
    requires Sound(x, spc) && Sound(y, spc) && o in v.chains && Inside(v.chains[o], |v.data|) && Longer(x, y, o)
    requires Written(RawOf(v, o), RawOf(x, o), off, z)
    ensures Written(RawOf(v, o), RawOf(y, o), off, z)
  {
    hide Raw, Well;
    var b, c := RawOf(x, o), RawOf(y, o);
    assert c == b + c[|b|..];
    WrittenGrows(RawOf(v, o), b, off, z, c[|b|..]);
  }

  /** Nothing is free. */
  ghost predicate Exhausted(v: V)
  {
    forall e :: 2 <= e < |v.t| ==> v.t[e] != 0
  }

  /** Every other file has the bytes it had. */
  ghost predicate SameElse(v: V, w: V, o: nat, spc: nat)
    requires Good(v, spc) && Good(w, spc)
  {
    forall p :: p in v.dir && p != o && !v.dir[p].isDir ==>
        p in w.dir && w.dir[p] == v.dir[p] && FileOf(w, p, spc) == FileOf(v, p, spc)
  }

  lemma {:induction false} SameElseSelf(v: V, o: nat, spc: nat)
    requires Good(v, spc)
    ensures SameElse(v, v, o, spc)
  {
    hide Sound, Raw;
  }

  lemma {:induction false} ElseThen(v: V, w: V, x: V, o: nat, spc: nat)
    requires Good(v, spc) && Good(w, spc) && Good(x, spc) && SameElse(v, w, o, spc) && SameElse(w, x, o, spc)
    ensures SameElse(v, x, o, spc)
  {
    hide Sound, FileOf, EntryOk;
  }

  lemma {:induction false} Positive(v: V, spc: nat)
    requires Sound(v, spc)
    ensures spc > 0 && spc * 512 > 0
  {
  }

  function Larger(a: nat, b: nat): nat
  {
    if a > b then a else b
  }

  /** A write leaves as many clusters as the new length needs. */
  lemma {:induction false} FitsAfter(size: nat, end: nat, skip: nat, n0: nat, n1: nat, n2: nat, n: nat, spc: nat)
    requires Fits(size, n0, spc) && 512 * (skip * spc) < end && end <= 512 * (n * spc) && n2 <= n && n1 <= n2
    requires n1 == (if n0 == 0 then 1 else n0) && n2 == (if skip < n1 then n1 else skip + 1)
    requires n > n2 ==> 512 * ((n - 1) * spc) < end
    ensures Fits(Larger(size, end), n, spc)
  {
    BaseMono(n0, n, spc);
    if n == n2 && n2 > n1 { assert n - 1 == skip; }
    if n == n1 && n0 == 0 { assert n - 1 == 0; }
  }

  /** The bytes of a write are in place; the directory does not know yet. */
  ghost predicate Placed(v: V, y: V, o: nat, off: nat, z: seq<Byte>, size: nat, first: nat, spc: nat)
  {
    Others(v, y, o) && NoLoose(y) && y.dir == v.dir && o in v.chains && o in y.chains && Head(y.chains[o]) == first
    && Fits(Larger(size, off + |z|), |y.chains[o]|, spc)
    && Inside(v.chains[o], |v.data|) && Inside(y.chains[o], |y.data|) && Written(RawOf(v, o), RawOf(y, o), off, z)
  }

  /** First cluster, walk and loop together. */
  lemma {:induction false} WriteDone(v: V, w: V, x: V, y: V, o: nat, off: nat, skip: nat, z: seq<Byte>, size: nat,
      first: nat, spc: nat)
    requires Sound(v, spc) && Sound(w, spc) && Sound(x, spc) && Sound(y, spc) && spc > 0 && o in v.chains
    requires Fits(size, |v.chains[o]|, spc) && off <= size && z != []
    requires Others(v, w, o) && Longer(v, w, o) && Others(w, x, o) && Longer(w, x, o) && Wrote(x, y, o, off, z, spc)
    requires w.dir == v.dir && x.dir == w.dir && o in w.chains && o in x.chains
    requires |w.chains[o]| == (if |v.chains[o]| == 0 then 1 else |v.chains[o]|)
    requires 512 * (skip * spc) <= off && |x.chains[o]| == if skip < |w.chains[o]| then |w.chains[o]| else skip + 1
    requires |x.chains[o]| > 0 && x.chains[o][0] == first
    ensures Placed(v, y, o, off, z, size, first, spc)
  {
    hide Sound, Raw, RawOf, Fits, Others, Longer;
    OthersThen(v, w, x, o);
    OthersThen(v, x, y, o);
    LongerThen(v, w, x, o);
    FitsAfter(size, off + |z|, skip, |v.chains[o]|, |w.chains[o]|, |x.chains[o]|, |y.chains[o]|, spc);
    WrittenFrom(v, x, y, o, off, z);
    SoundInside(v, o, spc);
  }

  /** Directory entries are no part of what `Sound` and `Others` say. */
  lemma {:induction false} SameSound(y: V, z: V, spc: nat)
    requires Sound(y, spc) && z == y.(dir := z.dir)
    ensures Sound(z, spc) && (NoLoose(y) ==> NoLoose(z))
    ensures forall v: V, o: nat :: Others(v, y, o) ==> Others(v, z, o)
    ensures forall o: nat :: o in y.chains ==> RawOf(z, o) == RawOf(y, o)
  {
    hide Raw, Well, DataOk;
  }

  lemma {:induction false} ElseFrom(v: V, w: V, o: nat, spc: nat)
    requires Good(v, spc) && Good(w, spc) && o in v.dir && o in w.dir && w.dir == v.dir[o := w.dir[o]]
    requires forall p :: p in v.dir && p != o && !v.dir[p].isDir ==>
        p in w.dir && !w.dir[p].isDir && FileOf(w, p, spc) == FileOf(v, p, spc)
    ensures SameElse(v, w, o, spc)
  {
    hide Sound, Raw, FileOf;
  }

  lemma {:induction false} SoundInside(v: V, o: nat, spc: nat)
    requires Sound(v, spc) && o in v.chains
    ensures Inside(v.chains[o], |v.data|)
  {
  }

  lemma {:induction false} WrittenFrom(v: V, x: V, y: V, o: nat, off: nat, z: seq<Byte>)
    requires Longer(v, x, o) && o in y.chains && Inside(y.chains[o], |y.data|)
    requires Written(RawOf(x, o), RawOf(y, o), off, z)
    ensures Written(RawOf(v, o), RawOf(y, o), off, z)
  {
    hide Raw;
  }

  /** The file after a write is the old one spliced. */
  lemma {:induction false} FileWritten(v: V, y: V, o: nat, off: nat, z: seq<Byte>, spc: nat)
    requires Good(v, spc) && Good(y, spc) && o in v.dir && o in y.dir && !v.dir[o].isDir && !y.dir[o].isDir
    requires off <= v.dir[o].size
    requires o in v.chains && o in y.chains && Inside(v.chains[o], |v.data|) && Inside(y.chains[o], |y.data|)
    requires Written(RawOf(v, o), RawOf(y, o), off, z) && y.dir[o].size == Larger(v.dir[o].size, off + |z|)
    ensures FileOf(y, o, spc) == Spliced(FileOf(v, o, spc), off, z)
  {
    hide Raw, Sound, Written;
    assert EntryOk(v, o, spc);
    CapacityIs(v, o, spc);
    WrittenSplices(RawOf(v, o), RawOf(y, o), off, z, v.dir[o].size);
  }

  lemma {:induction false} CapacityIs(v: V, o: nat, spc: nat)
    requires Sound(v, spc) && o in v.dir && EntryOk(v, o, spc) && !v.dir[o].isDir
    ensures Inside(v.chains[o], |v.data|) && v.dir[o].size <= |RawOf(v, o)|
  {
    hide Raw, Well;
    RawSize(v.data, v.chains[o], |v.t|, spc);
  }

  /** Sectors do not straddle clusters. */
  lemma {:induction false} WithinCluster(within: nat, take: nat, spc: nat)
    requires within < spc * 512 && take <= 512 - within % 512
    ensures within + take <= spc * 512
  {
    var s := within / 512;
    assert within == 512 * s + within % 512 && s < spc;
  }

  /** How far a write has come: `done` bytes are in place, and the next goes `within` bytes
      into the `k`-th cluster. */
  ghost predicate Writing(v: V, w: V, o: nat, k: nat, c: nat, within: nat, off: nat, buf: seq<Byte>, done: nat,
      spc: nat)
  {
    NoLoose(w) && w.dir == v.dir && o in v.chains && o in w.chains && Inside(v.chains[o], |v.data|)
    && Inside(w.chains[o], |w.data|)
    && k < |w.chains[o]| && w.chains[o][k] == c && off + done == 512 * (k * spc) + within && done <= |buf|
    && within <= spc * 512
    && 0 < |v.chains[o]| <= |w.chains[o]| && w.chains[o][0] == v.chains[o][0]
    && (|w.chains[o]| > |v.chains[o]| ==> |w.chains[o]| == k + 1)
    && Others(v, w, o) && Written(RawOf(v, o), RawOf(w, o), off, buf[..done])
  }

  /** What a write leaves: the bytes in place, and no cluster more than they need. */
  ghost predicate Wrote(v: V, w: V, o: nat, off: nat, x: seq<Byte>, spc: nat)
  {
    NoLoose(w) && w.dir == v.dir && o in v.chains && o in w.chains && Inside(v.chains[o], |v.data|)
    && Inside(w.chains[o], |w.data|)
    && 0 < |v.chains[o]| <= |w.chains[o]| && w.chains[o][0] == v.chains[o][0]
    && (|w.chains[o]| > |v.chains[o]| ==> 512 * ((|w.chains[o]| - 1) * spc) < off + |x|)
    && off + |x| <= 512 * (|w.chains[o]| * spc)
    && Others(v, w, o) && Written(RawOf(v, o), RawOf(w, o), off, x)
  }

  lemma {:induction false} StartWriting(v: V, o: nat, k: nat, c: nat, within: nat, off: nat, buf: seq<Byte>, spc: nat)
    requires Sound(v, spc) && NoLoose(v) && o in v.chains && k < |v.chains[o]| && v.chains[o][k] == c
    requires within < spc * 512 && off == 512 * (k * spc) + within
    ensures Writing(v, v, o, k, c, within, off, buf, 0, spc)
  {
    hide Sound, Others, RawOf, Written;
    StartWritten(v, o, k, within, off, spc);
    OthersSelf(v, o);
  }

  lemma {:induction false} EndWriting(v: V, w: V, o: nat, k: nat, c: nat, within: nat, off: nat, buf: seq<Byte>,
      done: nat, spc: nat)
    requires Writing(v, w, o, k, c, within, off, buf, done, spc) && within > 0
    ensures Wrote(v, w, o, off, buf[..done], spc)
  {
    hide Others, RawOf, Written;
    NextBase(k, spc);
    BaseMono(k + 1, |w.chains[o]|, spc);
  }

  lemma {:induction false} HeadZero(v: V, o: nat, spc: nat)
    requires Sound(v, spc) && o in v.chains && Head(v.chains[o]) == 0
    ensures v.chains[o] == []
  {
    if v.chains[o] != [] { ChainEnd(v, spc, o, 0); }
  }

  /** Advancing inside a chain leaves it; at its end it makes it one longer. */
  lemma {:induction false} GrownSame(v: V, w: V, o: nat, k: nat)
    requires o in v.chains && o in w.chains && k < |v.chains[o]| && k + 1 < |w.chains[o]|
    requires w.chains[o] == v.chains[o]
        || (k + 1 == |v.chains[o]| && |w.chains[o]| == |v.chains[o]| + 1 && w.chains[o][..|v.chains[o]|] == v.chains[o])
    ensures w.chains[o][0] == v.chains[o][0]
  {
  }

  lemma {:induction false} ClusterRow(v: V, c: nat, spc: nat)
    requires Sound(v, spc) && c < |v.t|
    ensures |v.data| == |v.t| && |v.data[c]| == spc && forall s :: 0 <= s < spc ==> |v.data[c][s]| == SECTOR
  {
  }

  /** What the scratch sector shows of the table. */
  lemma {:induction false} FatSector(fats: seq<seq<seq<Byte>>>, t: seq<nat>, c: nat)
    requires Copies(fats, t) && c < |t|
    ensures |fats| > 0 && c / 128 < |fats[0]| && |fats[0][c / 128]| == SECTOR
    ensures Low(Rd32(fats[0][c / 128], c % 128 * 4)) == t[c]
  {
    hide Rd32, Low;
    assert CopyOk(fats[0], |t|);
    assert Low(Entry(fats[0], c)) == t[c];
  }

  /** A sector of the table is there in every copy. */
  lemma {:induction false} CopiesHave(fats: seq<seq<seq<Byte>>>, t: seq<nat>, c: nat)
    requires Copies(fats, t) && c < |t|
    ensures |fats| > 0 && forall k :: 0 <= k < |fats| ==> c / 128 < |fats[k]| && |fats[k][c / 128]| == SECTOR
  {
    forall k | 0 <= k < |fats|
      ensures c / 128 < |fats[k]| && |fats[k][c / 128]| == SECTOR { assert CopyOk(fats[k], |t|); }
  }

  lemma {:induction false} HeadSmall(v: V, o: nat, spc: nat)
    requires Sound(v, spc) && o in v.chains
    ensures Head(v.chains[o]) < EOC && Head(v.chains[o]) != 1
  {
    if v.chains[o] != [] { ChainEnd(v, spc, o, 0); }
  }

  /** A record was rewritten in directory `d`: the volume is as good as it was, and the files have
      the bytes they had. */
  lemma {:induction false} Redirected(v: V, x: V, w: V, g: Layout, o: nat, d: nat)
    requires Good(v, g.spc) && Good(x, g.spc) && Sound(w, g.spc) && SameElse(v, x, o, g.spc) && Others(x, w, d)
    requires Dirs(w, g)
    requires w.dir == x.dir && w.use == x.use && w.chains == x.chains && IsDir(w, d)
    ensures Good(w, g.spc) && SameElse(v, w, o, g.spc)
    ensures o in x.dir && !x.dir[o].isDir ==> FileOf(w, o, g.spc) == FileOf(x, o, g.spc)
  {
    hide Sound, RawOf, FileOf, Others;
    if d != ROOT { assert EntryOk(x, d, g.spc); }
    GrownGood(x, w, d, g.spc);
  }

  /** After a write: from the state `y` with the bytes in place, the directory's record has been
      rewritten, which makes `w`. */
  lemma {:induction false} WroteBack(v: V, y: V, w: V, g: Layout, o: nat, d: nat, off: nat, z: seq<Byte>, size: nat,
      first: nat)
    requires Good(v, g.spc) && Dirs(v, g) && o in v.dir && v.dir[o].size == size && !v.dir[o].isDir && off <= size
    requires Larger(size, off + |z|) < WORD
    requires Sound(y, g.spc) && Placed(v, y, o, off, z, size, first, g.spc)
    requires w.dir == v.dir[o := Dirent(first, Larger(size, off + |z|), false)]
    requires Sound(w, g.spc) && Dirs(w, g) && w.use == y.use && w.chains == y.chains && IsDir(w, d)
    requires Others(y.(dir := w.dir), w, d)
    ensures Good(w, g.spc) && SameElse(v, w, o, g.spc)
    ensures FileOf(w, o, g.spc) == Spliced(FileOf(v, o, g.spc), off, z)
  {
    hide Sound, Dirs, Others, RawOf, SameElse, Fits, Written, OneRecord;
    var x := y.(dir := w.dir);
    assert EntryOk(v, o, g.spc);
    SameSound(y, x, g.spc);
    GoodAfter(v, x, o, w.dir[o], g.spc);
    ElseFrom(v, x, o, g.spc);
    SameRaw(y, w.dir, o);
    FileWritten(v, x, o, off, z, g.spc);
    Redirected(v, x, w, g, o, d);
  }

  lemma {:induction false} SameRaw(y: V, dir: map<nat, Dirent>, o: nat)
    requires o in y.chains && Inside(y.chains[o], |y.data|)
    ensures RawOf(y.(dir := dir), o) == RawOf(y, o)
  {
  }

  lemma {:induction false} PlacedDirs(v: V, y: V, o: nat)
    requires Others(v, y, o) && y.dir == v.dir && !IsDir(v, o)
    ensures forall d :: IsDir(v, d) ==> IsDir(y, d) && y.chains[d] == v.chains[d]
  {
    hide RawOf;
  }

  lemma {:induction false} PlacedIs(v: V, y: V, g: Layout, o: nat, off: nat, z: seq<Byte>, size: nat, first: nat)
    requires Good(v, g.spc) && Dirs(v, g) && o in v.dir && !v.dir[o].isDir && Sound(y, g.spc)
    requires Placed(v, y, o, off, z, size, first, g.spc)
    ensures Dirs(y, g) && y.dir == v.dir && first < EOC && first != 1 && v.dir[o].size < WORD
  {
    hide Sound, Dirs, Others, RawOf, Fits, Written;
    assert EntryOk(v, o, g.spc);
    HeadSmall(y, o, g.spc);
    FileFrame(v, y, g, o);
  }

  lemma {:induction false} PlacedRecords(v: V, y: V, w: V, g: Layout, o: nat, off: nat, z: seq<Byte>, size: nat,
      first: nat)
    requires Good(v, g.spc) && Dirs(v, g) && o in v.dir && !v.dir[o].isDir && Sound(y, g.spc)
    requires Placed(v, y, o, off, z, size, first, g.spc)
    requires OneRecord(y, w, g, o)
    ensures OneRecord(v, w, g, o) && Fits(Larger(size, off + |z|), |y.chains[o]|, g.spc)
  {
    hide Sound, Dirs, Others, RawOf, Fits, Written, OneRecord;
    FileFrame(v, y, g, o);
    PlacedDirs(v, y, o);
    RecordsThen(v, y, w, g, o);
  }

  lemma {:induction false} OneRecordSelf(v: V, g: Layout, key: nat)
    ensures OneRecord(v, v, g, key)
  {
    hide KeyAt, Slots, Record, DirBytes;
  }

  /** A length of 2^32 or more does not fit in its field: what is left of it is too short for the
      chain. */
  lemma {:induction false} LengthWraps(w: V, o: nat, end: nat, spc: nat)
    requires o in w.dir && o in w.chains && !w.dir[o].isDir && w.dir[o].size == end % WORD && end >= WORD
    requires Fits(end, |w.chains[o]|, spc) && spc < 256
    ensures !Good(w, spc)
  {
    hide Sound;
    var n := |w.chains[o]|;
    if n > 0 { NextBase(n - 1, spc); }
    assert end % WORD <= end - WORD;
    assert !Fits(end % WORD, n, spc);
    assert !EntryOk(w, o, spc);
  }

  /** After a truncation. */
  lemma {:induction false} EmptiedBack(v: V, y: V, w: V, g: Layout, o: nat, d: nat)
    requires Good(v, g.spc) && Dirs(v, g) && o in v.dir && !v.dir[o].isDir && Sound(y, g.spc) && NoLoose(y)
    requires Others(v, y, o)
    requires y.dir == v.dir && o in y.chains && y.chains[o] == [] && OneRecord(y, w, g, o)
    requires w.dir == v.dir[o := Dirent(0, 0, false)]
    requires Sound(w, g.spc) && Dirs(w, g) && w.use == y.use && w.chains == y.chains && IsDir(w, d)
    requires Others(y.(dir := w.dir), w, d)
    ensures Good(w, g.spc) && SameElse(v, w, o, g.spc) && OneRecord(v, w, g, o)
  {
    hide Sound, Dirs, Others, RawOf, SameElse, OneRecord;
    var x := y.(dir := w.dir);
    assert EntryOk(v, o, g.spc);
    EmptyFits(g.spc);
    SameSound(y, x, g.spc);
    GoodAfter(v, x, o, w.dir[o], g.spc);
    ElseFrom(v, x, o, g.spc);
    Redirected(v, x, w, g, o, d);
    FileFrame(v, y, g, o);
    PlacedDirs(v, y, o);
    RecordsThen(v, y, w, g, o);
  }

  lemma {:induction false} NothingFree(raw: seq<Byte>)
    ensures NoneFree(raw, 0)
  {
  }

  /** A walk that has come to 0 has come to the end. */
  lemma {:induction false} HeadNot(v: V, d: nat, k: nat, spc: nat)
    requires Sound(v, spc) && d in v.chains && k <= |v.chains[d]| && (k < |v.chains[d]| ==> v.chains[d][k] == 0)
    ensures k == |v.chains[d]|
  {
    if k < |v.chains[d]| { ChainEnd(v, spc, d, k); }
  }

  lemma {:induction false} GoodIs(v: V, spc: nat)
    requires Good(v, spc)
    ensures Sound(v, spc) && NoLoose(v)
  {
  }

  /** A cluster of zeroes has been put behind a directory that was full. */
  lemma {:induction false} GrownDir(v: V, w: V, x: V, g: Layout, d: nat, c: nat)
    requires Good(v, g.spc) && Dirs(v, g) && IsDir(v, d) && v.chains[d] != [] && 2 <= c < |v.t| && v.t[c] == 0
    requires w == Taken(v, c, g.spc)
    requires Sound(w, g.spc) && w.use[c] == Loose && v.chains[d][|v.chains[d]| - 1] < |v.t| && x == Joined(w, d, c)
    requires Sound(x, g.spc) && Others(w, x, d) && Others(v, w, d)
    requires RawOf(x, d) == RawOf(w, d) + Bytes(w.data[c]) && NoneFree(DirBytes(v, d), Slots(g, v.chains[d]))
    ensures Good(x, g.spc) && Dirs(x, g) && forall key: nat :: SameElse(v, x, key, g.spc) && OneRecord(v, x, g, key)
    ensures Spot(x, g, d, Slots(g, v.chains[d]), DataSector(g, c, 0), 0)
    ensures Free(Record(DirBytes(x, d), Slots(g, v.chains[d]))) && NoneFree(DirBytes(x, d), Slots(g, v.chains[d]))
  {
    hide Sound, Dirs, Others, RawOf, SameElse, OneRecord, FileOf, Slots, Record, NoneFree, EntryOk, Spot,
      DirBytes, Free;
    OthersThen(v, w, x, d);
    TakenSize(v, c, g.spc);
    ClusterRow(v, c, g.spc);
    SettledAgain(v, w, x, d, c);
    GrownGood(v, x, d, g.spc);
    GrownElse(v, x, g.spc);
    GrownBytes(v, w, x, g, d, c);
    NoEnd(DirBytes(v, d), Slots(g, v.chains[d]));
    DirsGrown(v, x, g, d, Bytes(Zeroed(g.spc)));
    GrownSpot(v, x, g, d, c);
  }

  lemma {:induction false} GrownElse(v: V, x: V, spc: nat)
    requires Good(v, spc) && Good(x, spc)
    requires forall p :: p in v.dir && !v.dir[p].isDir ==>
        p in x.dir && x.dir[p] == v.dir[p] && FileOf(x, p, spc) == FileOf(v, p, spc)
    ensures forall key: nat :: SameElse(v, x, key, spc)
  {
    hide Sound, FileOf;
  }

  lemma {:induction false} ZeroBytes(n: nat)
    ensures forall i :: 0 <= i < |Bytes(Zeroed(n))| ==> Bytes(Zeroed(n))[i] == 0
  {
    hide Bytes;
    var z := Zeroed(n);
    BytesSize(z);
    forall i | 0 <= i < |Bytes(z)| ensures Bytes(z)[i] == 0 { BytesEvery(z, i); }
  }

  lemma {:induction false} GrownBytes(v: V, w: V, x: V, g: Layout, d: nat, c: nat)
    requires Sound(v, g.spc) && Sound(w, g.spc) && Sound(x, g.spc) && IsDir(v, d) && c < |v.t| && c < |v.data|
    requires c < |v.use| && w == Taken(v, c, g.spc)
    requires w.use[c] == Loose && (v.chains[d] != [] ==> v.chains[d][|v.chains[d]| - 1] < |v.t|)
    requires x == Joined(w, d, c) && Others(v, x, d)
    requires Others(v, w, d) && 2 <= c && v.t[c] == 0 && RawOf(x, d) == RawOf(w, d) + Bytes(w.data[c])
    ensures Grows(v, x, d, Bytes(Zeroed(g.spc)))
    ensures forall i :: 0 <= i < |Bytes(Zeroed(g.spc))| ==> Bytes(Zeroed(g.spc))[i] == 0
  {
    hide Well, Raw, Others, Bytes;
    ZeroBytes(g.spc);
    TakenOk(v, c, g.spc);
    OthersAt(v, w, d + 1, d);
    InsideOf(v, d, g.spc);
    InsideOf(x, d, g.spc);
    OthersDirs(v, x, d, g.spc);
  }

  lemma {:induction false} OthersAt(v: V, w: V, o: nat, p: nat)
    requires Others(v, w, o) && p in v.chains && p != o && Inside(v.chains[p], |v.data|)
    ensures p in w.chains && w.chains[p] == v.chains[p] && RawOf(w, p) == RawOf(v, p)
  {
    hide Raw;
  }

  lemma {:induction false} GrownSpot(v: V, x: V, g: Layout, d: nat, c: nat)
    requires Sound(v, g.spc) && Sound(x, g.spc) && IsDir(v, d) && Grows(v, x, d, Bytes(Zeroed(g.spc)))
    requires NoneFree(DirBytes(v, d), Slots(g, v.chains[d]))
    requires x.chains[d] == v.chains[d] + [c]
    ensures c >= 2 && Spot(x, g, d, Slots(g, v.chains[d]), DataSector(g, c, 0), 0)
    ensures Free(Record(DirBytes(x, d), Slots(g, v.chains[d]))) && NoneFree(DirBytes(x, d), Slots(g, v.chains[d]))
  {
    hide Well, Raw, RawOf, Others, Bytes, Record, DirBytes, KeyAt, DataSector;
    var n, k := Slots(g, v.chains[d]), |v.chains[d]|;
    Positive(v, g.spc);
    SpotAt(x, g, d, k, 0, 0);
    InsideOf(v, d, g.spc);
    ZeroBytes(g.spc);
    forall j | 0 <= j <= n
      ensures if j < n then Record(DirBytes(x, d), j) == Record(DirBytes(v, d), j)
          else Record(DirBytes(x, d), j)[0] == 0 {
      RecordMore(DirBytes(v, d), Bytes(Zeroed(g.spc)), n, j);
    }
  }

  lemma {:induction false} AddedFrom(v: V, key: nat, d: nat, spc: nat)
    requires Good(v, spc) && key !in v.dir && key != ROOT && IsDir(v, d)
    ensures Sound(Added(v, key), spc) && IsDir(Added(v, key), d) && Added(v, key).chains[d] == v.chains[d]
  {
    hide Sound, Raw, EntryOk;
    AddedSound(v, key, spc);
  }

  /** After a new file's record has been written. */
  lemma {:induction false} Named(v: V, x: V, w: V, g: Layout, d: nat, j: nat, e: seq<Byte>, key: nat)
    requires Good(v, g.spc) && Dirs(v, g) && IsDir(v, d) && j < Slots(g, v.chains[d])
    requires Free(Record(DirBytes(v, d), j)) && NoneFree(DirBytes(v, d), j)
    requires |e| == 32 && e[0] != 0 && Decoded(e) == Dirent(0, 0, false) && key == KeyAt(g, v.chains[d], j)
    requires key !in v.dir && key != ROOT
    requires x == if Live(e) then Added(v, key) else v
    requires Sound(x, g.spc) && Sound(w, g.spc) && Others(x, w, d) && w.chains == x.chains && w.dir == x.dir
    requires w.use == x.use && d in x.chains
    requires 32 * j + 32 <= |DirBytes(x, d)| && DirBytes(w, d) == Over(DirBytes(x, d), 32 * j, e)
    ensures Good(w, g.spc) && Dirs(w, g) && OneRecord(v, w, g, key) && SameElse(v, w, key, g.spc)
    ensures Record(DirBytes(w, d), j) == e
    ensures Live(e) ==> EmptyFile(w, key, g.spc)
  {
    hide Sound, Dirs, Others, RawOf, SameElse, OneRecord, FileOf, Slots, Record, NoneFree, EntryOk, KeyAt,
      Decoded, Free;
    AddedBytes(v, x, d, key);
    RecordOver(DirBytes(x, d), j, 0, e, j);
    assert Over(Record(DirBytes(x, d), j), 0, e) == e;
    DirsNamed(v, x, w, g, d, j, e);
    if Live(e) { AddedGood(v, key, g.spc); }
    AddedElse(v, x, key, g.spc);
    Redirected(v, x, w, g, key, d);
    if Live(e) { GoodEntry(w, key, g.spc); }
  }

  lemma {:induction false} GoodEntry(w: V, o: nat, spc: nat)
    requires Good(w, spc) && o in w.dir
    ensures EntryOk(w, o, spc)
  {
  }

  lemma {:induction false} AddedBytes(v: V, x: V, d: nat, key: nat)
    requires (x == v || x == Added(v, key)) && d in v.chains && IsDir(v, d) && key !in v.dir && key != ROOT
    ensures DirBytes(x, d) == DirBytes(v, d) && IsDir(x, d)
  {
    hide Raw;
  }

  lemma {:induction false} AddedElse(v: V, x: V, o: nat, spc: nat)
    requires Good(v, spc) && Good(x, spc)
    requires (x == v || (forall p :: p in v.dir && !v.dir[p].isDir ==>
        p in x.dir && x.dir[p] == v.dir[p] && FileOf(x, p, spc) == FileOf(v, p, spc)))
    ensures SameElse(v, x, o, spc)
  {
    hide Sound, FileOf;
  }

  lemma {:induction false} Unchanged(v: V, g: Layout, key: nat, spc: nat)
    requires Good(v, spc)
    ensures SameElse(v, v, key, spc) && OneRecord(v, v, g, key)
  {
    SameElseSelf(v, key, spc);
    OneRecordSelf(v, g, key);
  }

  /** Directories stay directories, with the clusters they had and perhaps more. */
  ghost predicate DirsStay(v: V, w: V)
  {
    forall p :: IsDir(v, p) ==> IsDir(w, p) && v.chains[p] <= w.chains[p]
  }

  lemma {:induction false} CreatedStay(v: V, w: V, x: V, g: Layout, d: nat, key: nat)
    requires OneRecord(v, w, g, key) && OneRecord(w, x, g, key) && w.dir == v.dir && d in v.chains
    requires w == v || exists c: nat :: w.chains == v.chains[d := v.chains[d] + [c]]
    requires key !in w.dir && key != ROOT && (x.dir == w.dir || x.dir == w.dir[key := Dirent(0, 0, false)])
    requires (x.chains == w.chains || x.chains == w.chains[key := []])
    ensures OneRecord(v, x, g, key) && DirsStay(v, x)
  {
    hide OneRecord;
    RecordsThen(v, w, x, g, key);
  }

  ghost predicate EmptyFile(v: V, o: nat, spc: nat)
  {
    Good(v, spc) && o in v.dir && !v.dir[o].isDir && FileOf(v, o, spc) == []
  }

  /** Directory `d` has a record that may be written over. */
  ghost predicate RoomIn(v: V, g: Layout, d: nat)
  {
    d in v.chains && !NoneFree(DirBytes(v, d), Slots(g, v.chains[d]))
  }

  lemma {:induction false} FoundFree(v: V, g: Layout, d: nat, j: nat, sec: nat, off: nat)
    requires Spot(v, g, d, j, sec, off) && Free(Record(DirBytes(v, d), j))
    ensures !NoneFree(DirBytes(v, d), Slots(g, v.chains[d]))
  {
    hide Record, DirBytes;
  }
}
