/** A volume between calls: table, data and directory entries together. */
module FatState {
  import opened Bits
  import opened FatWords
  import opened FatChains
  import opened FatFiles
  import opened FatRecords

  /** `t` is the table's low bits; `dir` the entries by where they are on the disk. A chain is
      owned by the entry it hangs from; the root directory's has no entry and is owned by
      `ROOT`. `use` and `chains` are specification state. */
  datatype V = V(t: seq<nat>, data: seq<seq<seq<Byte>>>, dir: map<nat, Dirent>, use: seq<Use>,
    chains: map<nat, seq<nat>>)

  const ROOT: nat := 0

  ghost predicate Sound(v: V, spc: nat)
  {
    Well(v.t, v.use, v.chains) && DataOk(v.data, |v.t|, spc) && 2 <= |v.t| <= EOC && |v.use| == |v.t|
    && forall o :: o in v.chains ==> Inside(v.chains[o], |v.t|)
  }

  ghost predicate NoLoose(v: V)
  {
    forall c :: 0 <= c < |v.use| ==> v.use[c] != Loose
  }

  /** As many clusters as the length needs, and no more. */
  predicate Fits(size: nat, n: nat, spc: nat)
  {
    size <= 512 * (n * spc) && (n > 0 ==> 512 * ((n - 1) * spc) < size)
  }

  ghost predicate EntryOk(v: V, o: nat, spc: nat)
    requires o in v.dir
  {
    o in v.chains && v.dir[o].cluster == Head(v.chains[o]) && o != ROOT && v.dir[o].size < WORD
    && if v.dir[o].isDir then v.chains[o] != [] else Fits(v.dir[o].size, |v.chains[o]|, spc)
  }

  ghost predicate Keys(v: V)
  {
    forall o :: o in v.chains <==> o in v.dir || o == ROOT
  }

  ghost predicate Good(v: V, spc: nat)
  {
    Sound(v, spc) && NoLoose(v) && Keys(v) && forall o :: o in v.dir ==> EntryOk(v, o, spc)
  }

  /** The bytes of a file. */
  ghost function FileOf(v: V, o: nat, spc: nat): (r: seq<Byte>)
    requires Sound(v, spc) && o in v.dir && EntryOk(v, o, spc) && !v.dir[o].isDir
    ensures |r| == v.dir[o].size
  {
    RawSize(v.data, v.chains[o], |v.t|, spc);
    Content(v.data, v.chains[o], v.dir[o].size)
  }

  ghost function RawOf(v: V, o: nat): seq<Byte>
    requires o in v.chains && Inside(v.chains[o], |v.data|)
  {
    Raw(v.data, v.chains[o])
  }

  /** Every chain but one is where it was, with the bytes it had. */
  ghost predicate Others(v: V, w: V, o: nat)
  {
    |w.t| == |v.t| && |w.data| == |v.data|
    && (forall p :: p in v.chains <==> p in w.chains)
    && (forall p :: p in v.chains && p != o ==> w.chains[p] == v.chains[p])
    && (forall p :: p in v.chains && p != o && Inside(v.chains[p], |v.data|) ==> RawOf(w, p) == RawOf(v, p))
  }

  lemma {:induction false} OthersThen(v: V, w: V, x: V, o: nat)
    requires Others(v, w, o) && Others(w, x, o)
    ensures Others(v, x, o)
  {
    hide Raw;
  }

  lemma {:induction false} OthersSelf(v: V, o: nat)
    ensures Others(v, v, o)
  {
  }

  // ---- a cluster is taken ----

  function Zeroed(spc: nat): (x: seq<seq<Byte>>)
    ensures |x| == spc && forall s :: 0 <= s < spc ==> |x[s]| == SECTOR
  {
    seq(spc, s => seq(SECTOR, i => 0))
  }

  ghost function Taken(v: V, c: nat, spc: nat): V
    requires c < |v.t| && c < |v.data| && c < |v.use|
  {
    v.(t := v.t[c := EOC], use := v.use[c := Loose], data := v.data[c := Zeroed(spc)])
  }

  lemma {:induction false} NotOnChain(v: V, spc: nat, c: nat, o: nat)
    requires Sound(v, spc) && c < |v.use| && !v.use[c].Of? && o in v.chains
    ensures c !in v.chains[o]
  {
    assert OwnerOk(v.t, v.use, o, v.chains[o]);
  }

  lemma {:induction false} TakenOk(v: V, c: nat, spc: nat)
    requires Sound(v, spc) && 2 <= c < |v.t| && v.t[c] == 0
    ensures v.use[c] == Spare && Sound(Taken(v, c, spc), spc) && forall o: nat :: Others(v, Taken(v, c, spc), o)
  {
    hide Well, Raw;
    ClaimOk(v.t, v.use, v.chains, c);
    var w := Taken(v, c, spc);
    forall p | p in v.chains ensures RawOf(w, p) == RawOf(v, p) {
      NotOnChain(v, spc, c, p);
      RawOther(v.data, v.chains[p], c, Zeroed(spc));
    }
  }

  // ---- it goes on the end of a chain ----

  ghost function Joined(v: V, o: nat, c: nat): V
    requires o in v.chains && c < |v.use| && (v.chains[o] != [] ==> v.chains[o][|v.chains[o]| - 1] < |v.t|)
  {
    v.(t := Linked(v.t, v.chains[o], c), use := v.use[c := Of(o)], chains := v.chains[o := v.chains[o] + [c]])
  }

  lemma {:induction false} JoinedOk(v: V, o: nat, c: nat, spc: nat)
    requires Sound(v, spc) && o in v.chains && 2 <= c < |v.t| && v.use[c] == Loose
    ensures v.chains[o] != [] ==> 2 <= v.chains[o][|v.chains[o]| - 1] < |v.t|
    ensures Sound(Joined(v, o, c), spc) && Others(v, Joined(v, o, c), o)
    ensures RawOf(Joined(v, o, c), o) == RawOf(v, o) + Bytes(v.data[c])
  {
    hide Well, Raw;
    JoinOk(v.t, v.use, v.chains, o, c);
    RawSnoc(v.data, v.chains[o], c);
  }

  // ---- a sector is written ----

  ghost function Stored(v: V, c: nat, s: nat, x: seq<Byte>): V
    requires c < |v.data| && s < |v.data[c]|
  {
    var cl: seq<seq<Byte>> := v.data[c][s := x];
    v.(data := v.data[c := cl])
  }

  lemma {:induction false} OneOwner(v: V, spc: nat, o: nat, k: nat, p: nat)
    requires Sound(v, spc) && o in v.chains && k < |v.chains[o]| && p in v.chains && p != o
    ensures v.chains[o][k] !in v.chains[p]
  {
    assert OwnerOk(v.t, v.use, o, v.chains[o]);
    assert OwnerOk(v.t, v.use, p, v.chains[p]);
  }

  lemma {:induction false} ChainDistinct(v: V, spc: nat, o: nat)
    requires Sound(v, spc) && o in v.chains
    ensures ChainOk(v.t, v.chains[o])
  {
    assert OwnerOk(v.t, v.use, o, v.chains[o]);
  }

  lemma {:induction false} StoredOk(v: V, spc: nat, o: nat, k: nat, s: nat, b: nat, x: seq<Byte>)
    requires Sound(v, spc) && o in v.chains && k < |v.chains[o]| && s < spc && b + |x| <= SECTOR
    ensures var c := v.chains[o][k];
            var w := Stored(v, c, s, Over(v.data[c][s], b, x));
            var at := 512 * (k * spc + s) + b;
            Sound(w, spc) && Others(v, w, o) && at + |x| <= |RawOf(v, o)| && RawOf(w, o) == Over(RawOf(v, o), at, x)
  {
    hide Well, Raw;
    var c := v.chains[o][k];
    ChainDistinct(v, spc, o);
    RawOver(v.data, v.chains[o], k, s, b, x, |v.t|, spc);
    forall p | p in v.chains && p != o
      ensures Raw(v.data[c := v.data[c][s := Over(v.data[c][s], b, x)]], v.chains[p]) == Raw(v.data, v.chains[p]) {
      OneOwner(v, spc, o, k, p);
      RawOther(v.data, v.chains[p], c, v.data[c][s := Over(v.data[c][s], b, x)]);
    }
  }

  // ---- a chain is given back ----

  ghost function Emptied(v: V, o: nat): V
    requires o in v.chains && forall k :: 0 <= k < |v.chains[o]| ==> v.chains[o][k] < |v.use|
  {
    v.(t := FreeFrom(v.t, Head(v.chains[o])), use := Spared(v.use, v.chains[o]), chains := v.chains[o := []])
  }

  lemma {:induction false} EmptiedOk(v: V, o: nat, spc: nat)
    requires Sound(v, spc) && o in v.chains
    ensures forall k :: 0 <= k < |v.chains[o]| ==> v.chains[o][k] < |v.use|
    ensures Sound(Emptied(v, o), spc) && Others(v, Emptied(v, o), o)
    ensures forall c :: 0 <= c < |v.t| ==> Emptied(v, o).t[c] == if c in v.chains[o] then 0 else v.t[c]
  {
    hide Well, Raw;
    FreeFromChain(v.t, v.use, v.chains, o);
  }

  // ---- the directory entry follows ----

  /** After a chain and its entry have changed together, everything else is as it was. */
  lemma {:induction false} GoodAfter(v: V, w: V, o: nat, d: Dirent, spc: nat)
    requires Good(v, spc) && Sound(w, spc) && NoLoose(w) && Others(v, w, o) && o in v.dir && w.dir == v.dir[o := d]
    requires d.cluster == Head(w.chains[o]) && d.size < WORD && d.isDir == v.dir[o].isDir
    requires if d.isDir then w.chains[o] != [] else Fits(d.size, |w.chains[o]|, spc)
    ensures Good(w, spc)
    ensures forall p :: p in v.dir && p != o && !v.dir[p].isDir ==>
        p in w.dir && !w.dir[p].isDir && FileOf(w, p, spc) == FileOf(v, p, spc)
  {
    hide Sound, Raw, Fits;
    forall p | p in w.dir ensures EntryOk(w, p, spc) {
      if p != o { assert EntryOk(v, p, spc); } else { assert EntryOk(v, o, spc); }
    }
    forall p | p in v.dir && p != o && !v.dir[p].isDir ensures FileOf(w, p, spc) == FileOf(v, p, spc) {
      SameFile(v, w, o, p, spc);
    }
  }

  lemma {:induction false} SameFile(v: V, w: V, o: nat, p: nat, spc: nat)
    requires Sound(v, spc) && Sound(w, spc) && Others(v, w, o) && p != o && p in v.dir && p in w.dir
    requires w.dir[p] == v.dir[p]
    requires EntryOk(v, p, spc) && EntryOk(w, p, spc) && !v.dir[p].isDir
    ensures FileOf(w, p, spc) == FileOf(v, p, spc)
  {
    hide Raw, Well;
  }

  // ---- extending a file ----

  /** A chain holds what it held, and perhaps more behind. */
  ghost predicate Longer(v: V, w: V, o: nat)
  {
    o in v.chains && o in w.chains && Inside(v.chains[o], |v.data|) && Inside(w.chains[o], |w.data|)
    && |RawOf(v, o)| <= |RawOf(w, o)| && RawOf(v, o) == RawOf(w, o)[..|RawOf(v, o)|]
  }

  lemma {:induction false} LongerSelf(v: V, o: nat, spc: nat)
    requires Sound(v, spc) && o in v.chains
    ensures Longer(v, v, o)
  {
    hide Well, Raw;
  }

  lemma {:induction false} TakenSize(v: V, c: nat, spc: nat)
    requires Sound(v, spc) && c < |v.t|
    ensures |Taken(v, c, spc).t| == |v.t| && Taken(v, c, spc).use[c] == Loose && |v.use| == |v.t| <= EOC
  {
    hide Well, DataOk;
  }

  lemma {:induction false} LongerJoined(v: V, w: V, x: V, o: nat, c: nat, spc: nat)
    requires Sound(v, spc) && o in v.chains && 2 <= c < |v.t| && v.t[c] == 0 && w == Taken(v, c, spc)
    requires Sound(w, spc) && o in w.chains && w.use[c] == Loose && x == Joined(w, o, c) && Sound(x, spc)
    requires RawOf(x, o) == RawOf(w, o) + Bytes(w.data[c])
    ensures Longer(v, x, o)
  {
    hide Well, Raw;
    TakenOk(v, c, spc);
    assert Others(v, w, o + 1);
    assert RawOf(w, o) == RawOf(v, o);
  }

  lemma {:induction false} SettledAgain(v: V, w: V, x: V, o: nat, c: nat)
    requires NoLoose(v) && c < |v.use| && w.use == v.use[c := Loose] && x.use == w.use[c := Of(o)]
    ensures NoLoose(x)
  {
  }

  /** The last cluster of a chain leads nowhere, the others to the next. */
  lemma {:induction false} ChainEnd(v: V, spc: nat, o: nat, k: nat)
    requires Sound(v, spc) && o in v.chains && k < |v.chains[o]|
    ensures 2 <= v.chains[o][k] < |v.t|
    ensures Next(v.t, v.chains[o][k]) == if k + 1 < |v.chains[o]| then v.chains[o][k + 1] else 0
    ensures k + 1 < |v.chains[o]| ==> v.chains[o][k + 1] != 0
    ensures Longer(v, v, o)
  {
    hide Raw;
    ChainDistinct(v, spc, o);
    NextIs(v.t, v.chains[o], k);
    assert LinkOk(v.t, v.chains[o], k);
    if k + 1 < |v.chains[o]| { assert LinkOk(v.t, v.chains[o], k + 1); }
    hide Well;
    LongerSelf(v, o, spc);
  }

  lemma {:induction false} LongerThen(v: V, w: V, x: V, o: nat)
    requires Longer(v, w, o) && Longer(w, x, o)
    ensures Longer(v, x, o)
  {
    hide Raw;
    var a, b, c := RawOf(v, o), RawOf(w, o), RawOf(x, o);
    assert a == b[..|a|] == c[..|b|][..|a|] == c[..|a|];
  }

  lemma {:induction false} LongerNothing(v: V, w: V, o: nat, off: nat)
    requires Longer(v, w, o) && off <= |RawOf(w, o)|
    ensures Written(RawOf(v, o), RawOf(w, o), off, [])
  {
    hide Raw;
  }

  // ---- places ----

  /** An offset in cluster, sector and byte. */
  lemma {:induction false} Place(off: nat, spc: nat)
    requires spc > 0
    ensures var cb := spc * 512;
            off == 512 * (off / cb * spc) + off % cb && off % cb < cb
  {
    var cb := spc * 512;
    var k := off / cb;
    assert off == cb * k + off % cb;
    assert cb * k == 512 * (k * spc);
  }

  /** Where an offset within a file lies in its chain. */
  lemma {:induction false} PlaceInChain(off: nat, size: nat, n: nat, spc: nat)
    requires spc > 0 && off <= size && Fits(size, n, spc)
    ensures off / (spc * 512) <= n
    ensures off < size ==> off / (spc * 512) < n
  {
    Place(off, spc);
    var k := off / (spc * 512);
    if k > n {
      BaseMono(n + 1, k, spc);
      NextBase(n, spc);
    }
    if k == n && off < size { }
  }

  // ---- entries come and go ----

  /** An entry for an empty file. */
  ghost function Added(v: V, o: nat): V
  {
    v.(dir := v.dir[o := Dirent(0, 0, false)], chains := v.chains[o := []])
  }

  lemma {:induction false} AddedSound(v: V, o: nat, spc: nat)
    requires Sound(v, spc) && o !in v.chains
    ensures Sound(Added(v, o), spc)
  {
    var w := Added(v, o);
    forall c | 2 <= c < |v.t| ensures ClusterOk(w.t, w.use, w.chains, c) { assert ClusterOk(v.t, v.use, v.chains, c); }
    forall p | p in w.chains ensures OwnerOk(w.t, w.use, p, w.chains[p]) {
      if p != o { assert OwnerOk(v.t, v.use, p, v.chains[p]); }
    }
  }

  lemma {:induction false} AddedGood(v: V, o: nat, spc: nat)
    requires Good(v, spc) && o !in v.dir && o != ROOT
    ensures Good(Added(v, o), spc) && EntryOk(Added(v, o), o, spc) && FileOf(Added(v, o), o, spc) == []
    ensures forall p :: p in v.dir && !v.dir[p].isDir ==>
        p in Added(v, o).dir && Added(v, o).dir[p] == v.dir[p] && FileOf(Added(v, o), p, spc) == FileOf(v, p, spc)
  {
    hide Sound, Raw;
    var w := Added(v, o);
    AddedSound(v, o, spc);
    forall p | p in w.dir ensures EntryOk(w, p, spc) {
      if p != o { assert EntryOk(v, p, spc); } else { EmptyFits(spc); }
    }
    forall p | p in v.dir && !v.dir[p].isDir ensures FileOf(w, p, spc) == FileOf(v, p, spc) {
      assert EntryOk(v, p, spc);
    }
  }

  lemma {:induction false} EmptyFits(spc: nat)
    ensures Fits(0, 0, spc)
  {
  }

  /** An entry without clusters goes. */
  ghost function Removed(v: V, o: nat): V
  {
    v.(dir := v.dir - {o}, chains := v.chains - {o})
  }

  lemma {:induction false} RemovedSound(v: V, o: nat, spc: nat)
    requires Sound(v, spc) && o in v.chains && v.chains[o] == []
    ensures Sound(Removed(v, o), spc)
  {
    var w := Removed(v, o);
    forall c | 2 <= c < |v.t| ensures ClusterOk(w.t, w.use, w.chains, c) { assert ClusterOk(v.t, v.use, v.chains, c); }
    forall p | p in w.chains ensures OwnerOk(w.t, w.use, p, w.chains[p]) { assert OwnerOk(v.t, v.use, p, v.chains[p]); }
  }

  /** A file's chain has been given back, and its entry goes. */
  lemma {:induction false} RemovedGood(v: V, w: V, o: nat, spc: nat)
    requires Good(v, spc) && Sound(w, spc) && NoLoose(w) && Others(v, w, o) && o in v.dir && w.dir == v.dir
    requires o in w.chains && w.chains[o] == []
    ensures Good(Removed(w, o), spc) && o !in Removed(w, o).dir
    ensures forall p :: p in v.dir && p != o && !v.dir[p].isDir ==>
      p in Removed(w, o).dir && Removed(w, o).dir[p] == v.dir[p] && FileOf(Removed(w, o), p, spc) == FileOf(v, p, spc)
  {
    hide Sound, Raw;
    var x := Removed(w, o);
    assert EntryOk(v, o, spc);
    RemovedSound(w, o, spc);
    forall p | p in x.dir ensures EntryOk(x, p, spc) { assert EntryOk(v, p, spc); }
    forall p | p in v.dir && p != o && !v.dir[p].isDir ensures FileOf(x, p, spc) == FileOf(v, p, spc) {
      assert EntryOk(v, p, spc);
      RemovedFile(v, w, o, p, spc);
    }
  }

  lemma {:induction false} RemovedFile(v: V, w: V, o: nat, p: nat, spc: nat)
    requires Sound(v, spc) && Sound(w, spc) && Others(v, w, o) && p != o && p in v.dir && w.dir == v.dir
    requires o in w.chains && w.chains[o] == []
    requires EntryOk(v, p, spc) && !v.dir[p].isDir && Sound(Removed(w, o), spc) && EntryOk(Removed(w, o), p, spc)
    ensures FileOf(Removed(w, o), p, spc) == FileOf(v, p, spc)
  {
    hide Raw, Well;
  }

  /** A directory has grown by a cluster. */
  lemma {:induction false} GrownGood(v: V, w: V, d: nat, spc: nat)
    requires Good(v, spc) && Sound(w, spc) && NoLoose(w) && Others(v, w, d) && w.dir == v.dir && d in v.chains
    requires d == ROOT || (d in v.dir && v.dir[d].isDir)
    requires v.chains[d] != [] && w.chains[d] != [] && w.chains[d][0] == v.chains[d][0]
    ensures Good(w, spc)
    ensures forall p :: p in v.dir && !v.dir[p].isDir ==>
        p in w.dir && w.dir[p] == v.dir[p] && FileOf(w, p, spc) == FileOf(v, p, spc)
  {
    hide Sound, Raw;
    forall p | p in w.dir ensures EntryOk(w, p, spc) { assert EntryOk(v, p, spc); }
    forall p | p in v.dir && !v.dir[p].isDir ensures FileOf(w, p, spc) == FileOf(v, p, spc) {
      assert EntryOk(v, p, spc);
      SameFile(v, w, d, p, spc);
    }
  }

  /** An empty file becomes a directory with one cluster. */
  lemma {:induction false} DirGood(v: V, w: V, o: nat, c: nat, spc: nat)
    requires Good(v, spc) && Sound(w, spc) && NoLoose(w) && Others(v, w, o) && o in v.dir
    requires w.dir == v.dir[o := Dirent(c, 0, true)]
    requires o in w.chains && w.chains[o] == [c]
    ensures Good(w, spc)
    ensures forall p :: p in v.dir && p != o && !v.dir[p].isDir ==>
        p in w.dir && w.dir[p] == v.dir[p] && FileOf(w, p, spc) == FileOf(v, p, spc)
  {
    hide Sound, Raw;
    forall p | p in w.dir ensures EntryOk(w, p, spc) { assert EntryOk(v, p, spc); }
    forall p | p in v.dir && p != o && !v.dir[p].isDir ensures FileOf(w, p, spc) == FileOf(v, p, spc) {
      assert EntryOk(v, p, spc);
      SameFile(v, w, o, p, spc);
    }
  }

  // ---- what the numbers mean ----

  /** A chain is as long as the length over the cluster size, rounded up. */
  lemma {:induction false} FitsIff(size: nat, n: nat, spc: nat)
    requires spc > 0
    ensures Fits(size, n, spc) <==> n == (size + spc * 512 - 1) / (spc * 512)
  {
    var cb := spc * 512;
    var m := (size + cb - 1) / cb;
    assert size + cb - 1 == cb * m + (size + cb - 1) % cb;
    CbTimes(m, spc);
    CbTimes(n, spc);
    if m > 0 { CbTimes(m - 1, spc); assert cb * m == cb * (m - 1) + cb; }
    if n > 0 { CbTimes(n - 1, spc); assert cb * n == cb * (n - 1) + cb; }
    if n < m { BaseMono(n, m - 1, spc); }
    if m < n { BaseMono(m, n - 1, spc); }
  }

  lemma {:induction false} CbTimes(n: nat, spc: nat)
    ensures 512 * (n * spc) == spc * 512 * n
  {
  }

  /** A volume as `vmkfs` makes it, without a label: nothing but a root directory of one cluster of zeroes. */
  ghost function Blank(n: nat, spc: nat): (v: V)
    requires n >= 3
  {
    V(seq(n, c => if c == 0 then EOC else if c <= 2 then LOW - 1 else 0), seq(n, c => Zeroed(spc)), map[],
      seq(n, c => if c == 2 then Of(ROOT) else Spare), map[ROOT := [2]])
  }

  lemma {:induction false} Formatted(n: nat, spc: nat)
    requires spc > 0 && 3 <= n <= EOC
    ensures Good(Blank(n, spc), spc)
  {
    var v := Blank(n, spc);
    assert LinkOk(v.t, [2], 0);
    assert OwnerOk(v.t, v.use, ROOT, [2]);
    forall c | 2 <= c < n ensures ClusterOk(v.t, v.use, v.chains, c) { }
  }
}
