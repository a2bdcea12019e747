/** The bytes of a file: its clusters' sectors one after another. */
module FatFiles {
  import opened Bits
  import opened Seqs
  import opened FatWords

  /** Every cluster has its sectors. */
  ghost predicate DataOk(data: seq<seq<seq<Byte>>>, total: nat, spc: nat)
  {
    |data| == total && spc > 0
    && (forall c :: 0 <= c < total ==> |data[c]| == spc)
    && (forall c, s :: 0 <= c < total && 0 <= s < spc ==> |data[c][s]| == SECTOR)
  }

  ghost predicate Inside(ch: seq<nat>, total: nat)
  {
    forall k :: 0 <= k < |ch| ==> ch[k] < total
  }

  /** The sectors of a chain in order. */
  function Flat(data: seq<seq<seq<Byte>>>, ch: seq<nat>): seq<seq<Byte>>
    requires forall k :: 0 <= k < |ch| ==> ch[k] < |data|
  {
    if ch == [] then [] else Flat(data, ch[..|ch| - 1]) + data[ch[|ch| - 1]]
  }

  lemma {:induction false} FlatSize(data: seq<seq<seq<Byte>>>, ch: seq<nat>, total: nat, spc: nat)
    requires DataOk(data, total, spc) && Inside(ch, total)
    ensures |Flat(data, ch)| == |ch| * spc
    ensures forall q :: 0 <= q < |Flat(data, ch)| ==> |Flat(data, ch)[q]| == SECTOR
  {
    if ch != [] {
      FlatSize(data, ch[..|ch| - 1], total, spc);
      assert |ch| * spc == (|ch| - 1) * spc + spc;
    }
  }

  /** Sector `s` of the `k`-th cluster. */
  lemma {:induction false} FlatAt(data: seq<seq<seq<Byte>>>, ch: seq<nat>, k: nat, s: nat, total: nat, spc: nat)
    requires DataOk(data, total, spc) && Inside(ch, total) && k < |ch| && s < spc
    ensures k * spc + s < |Flat(data, ch)| && Flat(data, ch)[k * spc + s] == data[ch[k]][s]
  {
    var n := |ch| - 1;
    FlatSize(data, ch[..n], total, spc);
    if k < n {
      FlatAt(data, ch[..n], k, s, total, spc);
    }
  }

  lemma {:induction false} FlatOther(data: seq<seq<seq<Byte>>>, ch: seq<nat>, c: nat, x: seq<seq<Byte>>)
    requires Inside(ch, |data|) && c < |data| && c !in ch
    ensures Flat(data[c := x], ch) == Flat(data, ch)
  {
    if ch != [] {
      assert ch[|ch| - 1] in ch;
      assert forall e :: e in ch[..|ch| - 1] ==> e in ch;
      FlatOther(data, ch[..|ch| - 1], c, x);
    }
  }

  lemma {:induction false} FlatLast(data: seq<seq<seq<Byte>>>, ch: seq<nat>)
    requires Inside(ch, |data|) && ch != []
    ensures Flat(data, ch) == Flat(data, ch[..|ch| - 1]) + data[ch[|ch| - 1]]
  {
  }

  /** A sector written in the front part, or in the last cluster. */
  lemma {:induction false} PutFront(a: seq<seq<Byte>>, b: seq<seq<Byte>>, i: nat, x: seq<Byte>)
    requires i < |a| + |b|
    ensures (a + b)[i := x] == if i < |a| then a[i := x] + b else a + b[i - |a| := x]
  {
  }

  /** Rewriting one sector of one cluster rewrites one sector of the file. */
  lemma {:induction false} FlatPut(data: seq<seq<seq<Byte>>>, ch: seq<nat>, k: nat, s: nat, x: seq<Byte>, total: nat,
      spc: nat)
    requires DataOk(data, total, spc) && Inside(ch, total) && k < |ch| && s < spc
    requires forall i, j :: 0 <= i < j < |ch| ==> ch[i] != ch[j]
    ensures k * spc + s < |Flat(data, ch)|
    ensures Flat(data[ch[k] := data[ch[k]][s := x]], ch) == Flat(data, ch)[k * spc + s := x]
  {
    hide Flat;
    var n := |ch| - 1;
    var c := ch[k];
    var d := data[c := data[c][s := x]];
    FlatAt(data, ch, k, s, total, spc);
    FlatSize(data, ch[..n], total, spc);
    FlatLast(data, ch);
    FlatLast(d, ch);
    PutFront(Flat(data, ch[..n]), data[ch[n]], k * spc + s, x);
    if k < n {
      FlatPut(data, ch[..n], k, s, x, total, spc);
      assert d[ch[n]] == data[ch[n]];
    } else {
      assert c !in ch[..n];
      FlatOther(data, ch[..n], c, data[c][s := x]);
    }
  }

  lemma {:induction false} FlatSnoc(data: seq<seq<seq<Byte>>>, ch: seq<nat>, c: nat)
    requires Inside(ch, |data|) && c < |data|
    ensures Inside(ch + [c], |data|) && Flat(data, ch + [c]) == Flat(data, ch) + data[c]
  {
    assert (ch + [c])[..|ch|] == ch;
  }

  // ---- bytes ----

  function Bytes(secs: seq<seq<Byte>>): seq<Byte>
  {
    if secs == [] then [] else Bytes(secs[..|secs| - 1]) + secs[|secs| - 1]
  }

  ghost predicate Full(secs: seq<seq<Byte>>)
  {
    forall q :: 0 <= q < |secs| ==> |secs[q]| == SECTOR
  }

  lemma {:induction false} BytesSize(secs: seq<seq<Byte>>)
    requires Full(secs)
    ensures |Bytes(secs)| == 512 * |secs|
  {
    if secs != [] { BytesSize(secs[..|secs| - 1]); }
  }

  lemma {:induction false} BytesAt(secs: seq<seq<Byte>>, q: nat, b: nat)
    requires Full(secs) && q < |secs| && b < SECTOR
    ensures 512 * q + b < |Bytes(secs)| && Bytes(secs)[512 * q + b] == secs[q][b]
  {
    var n := |secs| - 1;
    BytesSize(secs[..n]);
    if q < n { BytesAt(secs[..n], q, b); }
  }

  /** A run of bytes inside one sector. */
  lemma {:induction false} BytesRun(secs: seq<seq<Byte>>, q: nat, b: nat, n: nat)
    requires Full(secs) && q < |secs| && b + n <= SECTOR
    ensures 512 * q + b + n <= |Bytes(secs)| && Bytes(secs)[512 * q + b..512 * q + b + n] == secs[q][b..b + n]
  {
    hide Bytes;
    BytesSize(secs);
    var l, r := Bytes(secs)[512 * q + b..512 * q + b + n], secs[q][b..b + n];
    forall i | 0 <= i < n ensures l[i] == r[i] {
      BytesAt(secs, q, b + i);
    }
  }

  /** Where a byte is. */
  lemma {:induction false} BytesEvery(secs: seq<seq<Byte>>, i: nat)
    requires Full(secs) && i < 512 * |secs|
    ensures i < |Bytes(secs)| && i / 512 < |secs| && Bytes(secs)[i] == secs[i / 512][i % 512]
  {
    BytesSize(secs);
    BytesAt(secs, i / 512, i % 512);
    assert 512 * (i / 512) + i % 512 == i;
  }

  /** A byte string with `x` over it from `o` on. */
  function Over(s: seq<Byte>, o: nat, x: seq<Byte>): (r: seq<Byte>)
    requires o + |x| <= |s|
    ensures |r| == |s| && forall i :: 0 <= i < |s| ==> r[i] == if o <= i < o + |x| then x[i - o] else s[i]
  {
    s[..o] + x + s[o + |x|..]
  }

  /** Writing part of a sector writes that part of the file. */
  lemma {:induction false} BytesOver(secs: seq<seq<Byte>>, q: nat, b: nat, x: seq<Byte>)
    requires Full(secs) && q < |secs| && b + |x| <= SECTOR
    ensures 512 * q + b + |x| <= |Bytes(secs)|
    ensures Full(secs[q := Over(secs[q], b, x)])
    ensures Bytes(secs[q := Over(secs[q], b, x)]) == Over(Bytes(secs), 512 * q + b, x)
  {
    hide Bytes;
    var after := secs[q := Over(secs[q], b, x)];
    BytesSize(secs);
    BytesSize(after);
    var l, r := Bytes(after), Over(Bytes(secs), 512 * q + b, x);
    forall i | 0 <= i < |l| ensures l[i] == r[i] {
      BytesEvery(secs, i);
      BytesEvery(after, i);
    }
  }

  lemma {:induction false} BytesAppend(a: seq<seq<Byte>>, b: seq<seq<Byte>>)
    ensures Bytes(a + b) == Bytes(a) + Bytes(b)
  {
    if b == [] {
      assert a + b == a;
    } else {
      var n := |b| - 1;
      BytesAppend(a, b[..n]);
      assert (a + b)[..|a + b| - 1] == a + b[..n];
      Assoc(Bytes(a), Bytes(b[..n]), b[n]);
    }
  }

  // ---- contents ----

  /** Everything the chain holds, past the end of the file too. */
  function Raw(data: seq<seq<seq<Byte>>>, ch: seq<nat>): seq<Byte>
    requires forall k :: 0 <= k < |ch| ==> ch[k] < |data|
  {
    Bytes(Flat(data, ch))
  }

  lemma {:induction false} RawSize(data: seq<seq<seq<Byte>>>, ch: seq<nat>, total: nat, spc: nat)
    requires DataOk(data, total, spc) && Inside(ch, total)
    ensures |Raw(data, ch)| == 512 * (|ch| * spc)
  {
    hide Flat, Bytes;
    FlatSize(data, ch, total, spc);
    BytesSize(Flat(data, ch));
  }

  /** A run of bytes of a chain, in its sector. */
  lemma {:induction false} RawRun(data: seq<seq<seq<Byte>>>, ch: seq<nat>, k: nat, s: nat, b: nat, n: nat, total: nat,
      spc: nat)
    requires DataOk(data, total, spc) && Inside(ch, total) && k < |ch| && s < spc && b + n <= SECTOR
    ensures var at := 512 * (k * spc + s) + b;
            at + n <= |Raw(data, ch)| && Raw(data, ch)[at..at + n] == data[ch[k]][s][b..b + n]
  {
    hide Flat, Bytes;
    FlatAt(data, ch, k, s, total, spc);
    FlatSize(data, ch, total, spc);
    BytesRun(Flat(data, ch), k * spc + s, b, n);
  }

  /** Writing into a sector of a cluster. */
  lemma {:induction false} RawOver(data: seq<seq<seq<Byte>>>, ch: seq<nat>, k: nat, s: nat, b: nat, x: seq<Byte>,
      total: nat, spc: nat)
    requires DataOk(data, total, spc) && Inside(ch, total) && k < |ch| && s < spc && b + |x| <= SECTOR
    requires forall i, j :: 0 <= i < j < |ch| ==> ch[i] != ch[j]
    ensures var d := data[ch[k] := data[ch[k]][s := Over(data[ch[k]][s], b, x)]]; var at := 512 * (k * spc + s) + b;
            DataOk(d, total, spc) && at + |x| <= |Raw(data, ch)| && Raw(d, ch) == Over(Raw(data, ch), at, x)
  {
    hide Flat, Bytes;
    FlatAt(data, ch, k, s, total, spc);
    FlatSize(data, ch, total, spc);
    FlatPut(data, ch, k, s, Over(data[ch[k]][s], b, x), total, spc);
    BytesOver(Flat(data, ch), k * spc + s, b, x);
  }

  lemma {:induction false} RawOther(data: seq<seq<seq<Byte>>>, ch: seq<nat>, c: nat, x: seq<seq<Byte>>)
    requires Inside(ch, |data|) && c < |data| && c !in ch
    ensures Raw(data[c := x], ch) == Raw(data, ch)
  {
    FlatOther(data, ch, c, x);
  }

  lemma {:induction false} RawSnoc(data: seq<seq<seq<Byte>>>, ch: seq<nat>, c: nat)
    requires Inside(ch, |data|) && c < |data|
    ensures Inside(ch + [c], |data|) && Raw(data, ch + [c]) == Raw(data, ch) + Bytes(data[c])
  {
    FlatSnoc(data, ch, c);
    BytesAppend(Flat(data, ch), data[c]);
  }

  /** The file's contents. */
  function Content(data: seq<seq<seq<Byte>>>, ch: seq<nat>, size: nat): (r: seq<Byte>)
    requires (forall k :: 0 <= k < |ch| ==> ch[k] < |data|) && size <= |Raw(data, ch)|
    ensures |r| == size
  {
    Raw(data, ch)[..size]
  }

  /** What a file is after `x` has been written at `off`, at most at its end. */
  function Spliced(s: seq<Byte>, off: nat, x: seq<Byte>): (r: seq<Byte>)
    requires off <= |s|
    ensures |r| == if off + |x| > |s| then off + |x| else |s|
    ensures forall i :: 0 <= i < |r| ==> r[i] == if off <= i < off + |x| then x[i - off] else s[i]
  {
    s[..off] + x + if off + |x| < |s| then s[off + |x|..] else []
  }

  /** The chain holds what it held, with `x` over it from `off` on, and perhaps more behind. */
  ghost predicate Written(before: seq<Byte>, after: seq<Byte>, off: nat, x: seq<Byte>)
  {
    |before| <= |after| && off + |x| <= |after|
    && forall i :: 0 <= i < |after| && (i < |before| || off <= i < off + |x|) ==>
        after[i] == if off <= i < off + |x| then x[i - off] else before[i]
  }

  /** In terms of contents, that is a splice. */
  lemma {:induction false} WrittenSplices(before: seq<Byte>, after: seq<Byte>, off: nat, x: seq<Byte>, size: nat)
    requires off <= size <= |before| && Written(before, after, off, x)
    ensures var n := if off + |x| > size then off + |x| else size;
            n <= |after| && after[..n] == Spliced(before[..size], off, x)
  {
  }

  lemma {:induction false} WrittenMore(before: seq<Byte>, after: seq<Byte>, off: nat, x: seq<Byte>, y: seq<Byte>)
    requires Written(before, after, off, x) && off + |x| + |y| <= |after|
    ensures Written(before, Over(after, off + |x|, y), off, x + y)
  {
  }

  lemma {:induction false} WrittenGrows(before: seq<Byte>, after: seq<Byte>, off: nat, x: seq<Byte>, more: seq<Byte>)
    requires Written(before, after, off, x)
    ensures Written(before, after + more, off, x)
  {
  }
}
