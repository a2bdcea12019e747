/** Where things are on the device: the copies of the table one after another, then the clusters. */
module FatDisk {
  import opened Bits
  import opened FatWords

  /** What `fat_mount` reads out of the first sector. */
  datatype Layout = Layout(fatStart: nat, fatSize: nat, copies: nat, spc: nat, total: nat, root: nat)

  /** `first_data_sec` */
  function FirstData(g: Layout): nat
  {
    g.fatStart + g.copies * g.fatSize
  }

  /** Sector `i` of copy `k` of the table. */
  function TableSector(g: Layout, k: nat, i: nat): nat
  {
    g.fatStart + k * g.fatSize + i
  }

  /** `clus_sector`, and a sector within the cluster. */
  function DataSector(g: Layout, c: nat, s: nat): nat
    requires c >= 2
  {
    FirstData(g) + (c - 2) * g.spc + s
  }

  lemma {:induction false} RowsApart(w: nat, a: nat, i: nat, b: nat, j: nat)
    requires i < w && j < w && a * w + i == b * w + j
    ensures a == b && i == j
  {
    if a < b { NextBase(a, w); BaseMono(a + 1, b, w); }
    if b < a { NextBase(b, w); BaseMono(b + 1, a, w); }
  }

  /** Sectors of different clusters, or different sectors of one, are different on the device. */
  lemma {:induction false} SectorsApart(g: Layout, c: nat, s: nat, d: nat, r: nat)
    requires c >= 2 && d >= 2 && s < g.spc && r < g.spc && DataSector(g, c, s) == DataSector(g, d, r)
    ensures c == d && s == r
  {
    RowsApart(g.spc, c - 2, s, d - 2, r);
  }

  /** The table lies before the clusters. */
  lemma {:induction false} TableFirst(g: Layout, k: nat, i: nat, c: nat, s: nat)
    requires k < g.copies && i < g.fatSize && c >= 2
    ensures TableSector(g, k, i) < FirstData(g) <= DataSector(g, c, s)
  {
    NextBase(k, g.fatSize);
    BaseMono(k + 1, g.copies, g.fatSize);
  }

  ghost predicate TableOn(disk: seq<seq<Byte>>, fats: seq<seq<seq<Byte>>>, g: Layout)
  {
    |fats| == g.copies && (forall k :: 0 <= k < |fats| ==> |fats[k]| == g.fatSize)
    && forall k, i :: 0 <= k < g.copies && 0 <= i < g.fatSize ==>
         TableSector(g, k, i) < |disk| && disk[TableSector(g, k, i)] == fats[k][i]
  }

  ghost predicate DataOn(disk: seq<seq<Byte>>, data: seq<seq<seq<Byte>>>, g: Layout)
  {
    |data| == g.total && (forall c :: 2 <= c < g.total ==> |data[c]| == g.spc)
    && forall c, s :: 2 <= c < g.total && 0 <= s < g.spc ==>
         DataSector(g, c, s) < |disk| && disk[DataSector(g, c, s)] == data[c][s]
  }

  /** The device holds these copies and these clusters. */
  ghost predicate OnDisk(disk: seq<seq<Byte>>, fats: seq<seq<seq<Byte>>>, data: seq<seq<seq<Byte>>>, g: Layout)
  {
    TableOn(disk, fats, g) && DataOn(disk, data, g)
  }

  /** A sector of one copy is rewritten. */
  lemma {:induction false} TablePut(disk: seq<seq<Byte>>, fats: seq<seq<seq<Byte>>>, data: seq<seq<seq<Byte>>>,
      g: Layout, k: nat, i: nat, x: seq<Byte>)
    requires OnDisk(disk, fats, data, g) && k < g.copies && i < g.fatSize
    ensures TableSector(g, k, i) < |disk| && disk[TableSector(g, k, i)] == fats[k][i]
    ensures OnDisk(disk[TableSector(g, k, i) := x], fats[k := fats[k][i := x]], data, g)
  {
    hide TableSector, DataSector;
    var d := disk[TableSector(g, k, i) := x];
    var f := fats[k := fats[k][i := x]];
    forall l, j | 0 <= l < g.copies && 0 <= j < g.fatSize
      ensures TableSector(g, l, j) < |d| && d[TableSector(g, l, j)] == f[l][j]
    {
      TablesApart(g, k, i, l, j);
    }
    forall c, s | 2 <= c < g.total && 0 <= s < g.spc
      ensures DataSector(g, c, s) < |d| && d[DataSector(g, c, s)] == data[c][s] {
      TableFirst(g, k, i, c, s);
    }
  }

  lemma {:induction false} TablesApart(g: Layout, k: nat, i: nat, l: nat, j: nat)
    requires i < g.fatSize && j < g.fatSize
    ensures TableSector(g, k, i) == TableSector(g, l, j) ==> k == l && i == j
  {
    if TableSector(g, k, i) == TableSector(g, l, j) { RowsApart(g.fatSize, k, i, l, j); }
  }

  /** A sector of one cluster is rewritten. */
  lemma {:induction false} DataPut(disk: seq<seq<Byte>>, fats: seq<seq<seq<Byte>>>, data: seq<seq<seq<Byte>>>,
      g: Layout, c: nat, s: nat, x: seq<Byte>)
    requires OnDisk(disk, fats, data, g) && 2 <= c < g.total && s < g.spc
    ensures DataSector(g, c, s) < |disk| && disk[DataSector(g, c, s)] == data[c][s]
    ensures OnDisk(disk[DataSector(g, c, s) := x], fats, data[c := data[c][s := x]], g)
  {
    hide TableSector, DataSector;
    var d := disk[DataSector(g, c, s) := x];
    var f := data[c := data[c][s := x]];
    forall e, r | 2 <= e < g.total && 0 <= r < g.spc
      ensures DataSector(g, e, r) < |d| && d[DataSector(g, e, r)] == f[e][r] {
      if DataSector(g, c, s) == DataSector(g, e, r) { SectorsApart(g, c, s, e, r); }
    }
    forall k, i | 0 <= k < g.copies && 0 <= i < g.fatSize
      ensures TableSector(g, k, i) < |d| && d[TableSector(g, k, i)] == fats[k][i] {
      TableFirst(g, k, i, c, s);
    }
  }

  // ---- reading ----

  lemma {:induction false} DiskHas(disk: seq<seq<Byte>>, fats: seq<seq<seq<Byte>>>, data: seq<seq<seq<Byte>>>,
      g: Layout)
    requires OnDisk(disk, fats, data, g)
    ensures |fats| == g.copies && |data| == g.total
  {
  }

  lemma {:induction false} TableAt(disk: seq<seq<Byte>>, fats: seq<seq<seq<Byte>>>, data: seq<seq<seq<Byte>>>,
      g: Layout, k: nat, i: nat)
    requires OnDisk(disk, fats, data, g) && k < |fats| && i < |fats[k]|
    ensures k < g.copies && i < g.fatSize && TableSector(g, k, i) < |disk| && disk[TableSector(g, k, i)] == fats[k][i]
  {
  }

  lemma {:induction false} DataAt(disk: seq<seq<Byte>>, fats: seq<seq<seq<Byte>>>, data: seq<seq<seq<Byte>>>,
      g: Layout, c: nat, s: nat)
    requires OnDisk(disk, fats, data, g) && 2 <= c < g.total && s < g.spc
    ensures c < |data| && s < |data[c]| && DataSector(g, c, s) < |disk| && disk[DataSector(g, c, s)] == data[c][s]
  {
  }
}
