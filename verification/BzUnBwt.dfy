/** The inverse Burrows-Wheeler transform of `decode_block`: a counting sort of the last
    column gives the links, and following them from `origPtr` spells the block. */
module BzUnBwt {
  import opened Bits
  import opened Seqs
  import opened Pigeonhole
  import opened CountingSort
  import opened BzBwt
  import BzRle1

  /** The bytes spelled by `m` steps along the links from `tpos`. */
  function Walk(l: seq<Byte>, tpos: nat, m: nat): (s: seq<Byte>)
    requires tpos < |l|
    ensures |s| == m
    decreases m
  {
    if m == 0 then []
    else
      LinksBelow(l, |l|, tpos);
      [l[tpos]] + Walk(l, Links(l)[tpos], m - 1)
  }

  lemma {:induction false} WalkUnfold(l: seq<Byte>, tpos: nat, m: nat)
    requires tpos < |l| && m > 0
    ensures Links(l)[tpos] < |l|
    ensures Walk(l, tpos, m) == [l[tpos]] + Walk(l, Links(l)[tpos], m - 1)
  {
    LinksBelow(l, |l|, tpos);
  }

  /** The whole inverse transform. */
  function UnBwt(l: seq<Byte>, origPtr: nat): (s: seq<Byte>)
    requires origPtr < |l|
    ensures |s| == |l|
  {
    LinksBelow(l, |l|, origPtr);
    Walk(l, Links(l)[origPtr], |l|)
  }

  // ------------------------------------------------- the transform is inverted

  ghost predicate SortedStrings(a: seq<seq<Byte>>, n: nat)
  {
    && (forall i :: 0 <= i < |a| ==> |a[i]| == n)
    && (forall i, j :: 0 <= i < j < |a| ==> !Less(a[j], a[i]))
  }

  /** Two sorted lists of the same strings are the same list. */
  lemma {:induction false} SortedUnique(a: seq<seq<Byte>>, b: seq<seq<Byte>>, n: nat, h: seq<nat>, k: nat)
    requires SortedStrings(a, n) && SortedStrings(b, n) && |a| == |b| == |h| && k < |a|
    requires Injective(h) && Below(h, |b|)
    requires forall j :: 0 <= j < |a| ==> a[j] == b[h[j]]
    ensures a[k] == b[k]
  {
    LessTotal(a[k], b[k]);
    if Less(a[k], b[k]) {
      var g := h[..k + 1];
      forall j | 0 <= j <= k ensures h[j] < k {
        LessIrreflexive(b[k]);
        NotAfter(a[j], a[k], b[k]);
      }
      AtMost(g, k);
    } else if Less(b[k], a[k]) {
      var g := seq(|h| - k, i requires 0 <= i < |h| - k => if h[k + i] > k then h[k + i] - k - 1 else 0);
      forall j | k <= j < |h| ensures h[j] > k {
        LessIrreflexive(b[k]);
        NotBefore(b[k], a[k], a[j]);
      }
      forall i, j | 0 <= i < j < |g| ensures g[i] != g[j] {
        assert h[k + i] != h[k + j] && h[k + i] > k && h[k + j] > k;
      }
      forall i | 0 <= i < |g| ensures g[i] < |h| - k - 1 {
        assert k < h[k + i] < |h|;
      }
      AtMost(g, |h| - k - 1);
    }
  }

  /** x <= y < z gives x < z. */
  lemma {:induction false} NotAfter(x: seq<Byte>, y: seq<Byte>, z: seq<Byte>)
    requires |x| == |y| == |z|
    requires x == y || !Less(y, x)
    requires Less(y, z)
    ensures Less(x, z)
  {
    LessTotal(x, y);
    if x != y { LessTrans(x, y, z); }
  }

  /** x < y <= z gives x < z. */
  lemma {:induction false} NotBefore(x: seq<Byte>, y: seq<Byte>, z: seq<Byte>)
    requires |x| == |y| == |z|
    requires Less(x, y)
    requires y == z || !Less(z, y)
    ensures Less(x, z)
  {
    LessTotal(y, z);
    if y != z { LessTrans(x, y, z); }
  }

  /** Row order is not reversed by moving the last byte of each row to its front. */
  lemma {:induction false} ShiftKeepsOrder(s: seq<Byte>, idx: seq<nat>, i: nat, j: nat)
    requires SortedRows(s, idx) && i < |s| && j < |s|
    requires var l := LastColumn(s, idx); l[i] < l[j] || (l[i] == l[j] && i < j)
    ensures !Less(Rot(s, Pred(|s|, idx[j])), Rot(s, Pred(|s|, idx[i])))
  {
    var n := |s|;
    var l := LastColumn(s, idx);
    RotLast(s, idx[i]);
    RotLast(s, idx[j]);
    var x, y := Rot(s, idx[i]), Rot(s, idx[j]);
    var qx, qy := Rot(s, Pred(n, idx[i])), Rot(s, Pred(n, idx[j]));
    assert qx == [l[i]] + x[..n - 1] && qy == [l[j]] + y[..n - 1];
    if l[i] == l[j] {
      var c := l[i];
      assert x == x[..n - 1] + [c] && y == y[..n - 1] + [c];
      LessDropLast(y[..n - 1], x[..n - 1], c);
      LessConsSame(y[..n - 1], x[..n - 1], c);
      assert RowBefore(s, idx[i], idx[j]);
      if Less(y, x) {
        if Less(x, y) { LessTrans(x, y, x); }
        LessIrreflexive(x);
      }
    }
  }

  lemma {:induction false} SortedA(s: seq<Byte>, idx: seq<nat>, a: seq<seq<Byte>>)
    requires SortedRows(s, idx)
    requires |a| == |s| && forall k :: 0 <= k < |s| ==> a[k] == Rot(s, idx[k])
    ensures SortedStrings(a, |s|)
  {
    forall i, j | 0 <= i < j < |a| ensures !Less(a[j], a[i]) {
      assert RowBefore(s, idx[i], idx[j]);
      if Less(a[j], a[i]) {
        if Less(a[i], a[j]) { LessTrans(a[i], a[j], a[i]); }
        LessIrreflexive(a[i]);
      }
    }
  }

  /** `b` lists the rows, each with its last byte moved to the front, in link order. */
  ghost predicate Relinked(s: seq<Byte>, idx: seq<nat>, b: seq<seq<Byte>>)
    requires SortedRows(s, idx)
  {
    var t := Links(LastColumn(s, idx));
    |b| == |s| && forall k :: 0 <= k < |s| ==> t[k] < |s| && b[k] == Rot(s, Pred(|s|, idx[t[k]]))
  }

  lemma {:induction false} SortedB(s: seq<Byte>, idx: seq<nat>, b: seq<seq<Byte>>)
    requires SortedRows(s, idx)
    requires Relinked(s, idx, b)
    ensures SortedStrings(b, |s|)
  {
    var l := LastColumn(s, idx);
    var t := Links(l);
    forall i, j | 0 <= i < j < |b| ensures !Less(b[j], b[i]) {
      DestInvertsLinks(l, i);
      DestInvertsLinks(l, j);
      var x, y := t[i], t[j];
      if !(l[x] < l[y] || (l[x] == l[y] && x < y)) {
        if x != y { DestOrder(l, y, x); }
        assert false;
      }
      ShiftKeepsOrder(s, idx, x, y);
    }
  }

  lemma {:induction false} EveryRowSorted(s: seq<Byte>, idx: seq<nat>, a: nat)
    requires SortedRows(s, idx) && a < |s|
    ensures a in idx
  {
    AscendingInjective(s, idx);
    var i := Onto(idx, a);
  }

  /** Where row `j`, shifted, lands in the relinked order. */
  ghost function Landing(s: seq<Byte>, idx: seq<nat>, j: nat): (k: nat)
    requires SortedRows(s, idx) && j < |s|
    ensures k < |s|
  {
    EveryRowSorted(s, idx, Succ(|s|, idx[j]));
    var i := IndexOf(idx, Succ(|s|, idx[j]));
    DestBound(LastColumn(s, idx), i);
    Dest(LastColumn(s, idx), i)
  }

  lemma {:induction false} LandingLinksBack(s: seq<Byte>, idx: seq<nat>, j: nat)
    requires SortedRows(s, idx) && j < |s|
    ensures var t := Links(LastColumn(s, idx))[Landing(s, idx, j)];
      t < |s| && idx[t] == Succ(|s|, idx[j])
  {
    EveryRowSorted(s, idx, Succ(|s|, idx[j]));
    LinksInvertDest(LastColumn(s, idx), |s|, IndexOf(idx, Succ(|s|, idx[j])));
  }

  lemma {:induction false} LandingRow(s: seq<Byte>, idx: seq<nat>, b: seq<seq<Byte>>, j: nat)
    requires SortedRows(s, idx) && Relinked(s, idx, b) && j < |s|
    ensures b[Landing(s, idx, j)] == Rot(s, idx[j])
  {
    LandingLinksBack(s, idx, j);
  }

  lemma {:induction false} LandingInjective(s: seq<Byte>, idx: seq<nat>, i: nat, j: nat)
    requires SortedRows(s, idx) && i < j < |s|
    ensures Landing(s, idx, i) != Landing(s, idx, j)
  {
    AscendingInjective(s, idx);
    LandingLinksBack(s, idx, i);
    LandingLinksBack(s, idx, j);
    assert idx[i] != idx[j];
  }

  /** Every row appears, shifted, exactly once in the relinked order. */
  lemma {:induction false} RowMatching(s: seq<Byte>, idx: seq<nat>, b: seq<seq<Byte>>) returns (h: seq<nat>)
    requires SortedRows(s, idx)
    requires Relinked(s, idx, b)
    ensures |h| == |s| && Injective(h) && Below(h, |s|)
    ensures forall j :: 0 <= j < |s| ==> b[h[j]] == Rot(s, idx[j])
  {
    h := seq(|s|, j requires 0 <= j < |s| => Landing(s, idx, j));
    forall j | 0 <= j < |s| ensures b[h[j]] == Rot(s, idx[j]) {
      LandingRow(s, idx, b, j);
    }
    forall i, j | 0 <= i < j < |s| ensures h[i] != h[j] {
      LandingInjective(s, idx, i, j);
    }
  }

  lemma {:induction false} RelinkedRows(s: seq<Byte>, idx: seq<nat>) returns (b: seq<seq<Byte>>)
    requires SortedRows(s, idx)
    ensures Relinked(s, idx, b)
  {
    var l := LastColumn(s, idx);
    var t := Links(l);
    forall k | 0 <= k < |s| ensures t[k] < |s| { LinksBelow(l, |l|, k); }
    b := seq(|s|, k requires 0 <= k < |s| => Rot(s, Pred(|s|, idx[t[k]])));
  }

  /** Reading the rows in link order and undoing the shift is reading them in sorted order. */
  lemma {:induction false} RelinkedIsSorted(s: seq<Byte>, idx: seq<nat>, j: nat)
    requires SortedRows(s, idx) && j < |s|
    ensures var t := Links(LastColumn(s, idx))[j];
      t < |s| && Rot(s, Pred(|s|, idx[t])) == Rot(s, idx[j])
  {
    var a := seq(|s|, k requires 0 <= k < |s| => Rot(s, idx[k]));
    SortedA(s, idx, a);
    var b := RelinkedRows(s, idx);
    SortedB(s, idx, b);
    var h := RowMatching(s, idx, b);
    SortedUnique(a, b, |s|, h, j);
  }

  /** The row a link leads to starts, as a string, one byte further on. Rows with equal
      rotations may be exchanged, which the walk cannot notice. */
  lemma {:induction false} LinkAdvances(s: seq<Byte>, idx: seq<nat>, j: nat)
    requires SortedRows(s, idx) && j < |s|
    ensures var l := LastColumn(s, idx);
      Links(l)[j] < |s| && Rot(s, idx[Links(l)[j]]) == Rot(s, Succ(|s|, idx[j]))
  {
    RelinkedIsSorted(s, idx, j);
    SameSucc(s, Pred(|s|, idx[Links(LastColumn(s, idx))[j]]), idx[j]);
  }

  /** One step of the walk delivers the byte before the row it stands on. */
  lemma {:induction false} WalkStep(s: seq<Byte>, idx: seq<nat>, tpos: nat, k: nat)
    requires SortedRows(s, idx) && tpos < |s| && k < |s|
    requires Rot(s, idx[tpos]) == Rot(s, Succ(|s|, k))
    ensures var l := LastColumn(s, idx);
      && l[tpos] == s[k]
      && Links(l)[tpos] < |s|
      && Rot(s, idx[Links(l)[tpos]]) == Rot(s, Succ(|s|, Succ(|s|, k)))
  {
    RotLast(s, idx[tpos]);
    RotLast(s, Succ(|s|, k));
    LinkAdvances(s, idx, tpos);
    SameSucc(s, idx[tpos], Succ(|s|, k));
  }

  lemma {:induction false} WalkSpells(s: seq<Byte>, idx: seq<nat>, tpos: nat, k: nat)
    requires SortedRows(s, idx) && tpos < |s| && k < |s|
    requires Rot(s, idx[tpos]) == Rot(s, Succ(|s|, k))
    ensures Walk(LastColumn(s, idx), tpos, |s| - k) == s[k..]
    decreases |s| - k
  {
    WalkStep(s, idx, tpos, k);
    if k + 1 < |s| {
      WalkSpells(s, idx, Links(LastColumn(s, idx))[tpos], k + 1);
    }
    ConsSlice(s, k);
    WalkUnfold(LastColumn(s, idx), tpos, |s| - k);
  }

  lemma {:induction false} SameSucc(s: seq<Byte>, a: nat, b: nat)
    requires a < |s| && b < |s| && Rot(s, a) == Rot(s, b)
    ensures Rot(s, Succ(|s|, a)) == Rot(s, Succ(|s|, b))
  {
    RotSucc(s, a);
    RotSucc(s, b);
  }

  /** Inverse Burrows-Wheeler: every non-empty string, periodic ones included, comes back. */
  lemma {:induction false} UnBwtBwt(s: seq<Byte>)
    requires s != []
    ensures UnBwt(Bwt(s), OrigPtr(s)) == s
  {
    var idx := SortRotations(s);
    var l := Bwt(s);
    LinkAdvances(s, idx, OrigPtr(s));
    WalkSpells(s, idx, Links(l)[OrigPtr(s)], 0);
    assert s[0..] == s;
  }

  // --------------------------------------------------------- the loops of decode_block

  /** Capacity of the `tt` array: 9 << 20 entries. A position fits in the 24 bits above the byte. */
  const TT_SIZE: nat := 9437184

  /** Turn per-byte counts, stored one slot up, into starting positions. */
  method Accumulate(cftab: array<nat>, ghost l: seq<Byte>)
    requires cftab.Length == 257 && cftab[0] == 0
    requires forall b :: 1 <= b <= 256 ==> cftab[b] == CountEq(l, b - 1)
    modifies cftab
    ensures forall b :: 0 <= b <= 256 ==> cftab[b] == CountLess(l, b)
  {
    CountLessNone(l);
    var i := 1;
    while i <= 256
      invariant 1 <= i <= 257
      invariant forall b :: 0 <= b < i ==> cftab[b] == CountLess(l, b)
      invariant forall b :: i <= b <= 256 ==> cftab[b] == CountEq(l, b - 1)
    {
      CountLessNext(l, i - 1);
      cftab[i] := cftab[i] + cftab[i - 1];
      i := i + 1;
    }
  }

  ghost predicate Packed(tt: seq<nat>, l: seq<Byte>, k: nat)
    requires k <= |l| <= |tt|
  {
    forall j :: 0 <= j < |l| ==> tt[j] == l[j] + 256 * LinksUpTo(l, k)[j]
  }

  /** The column byte survives packing, nothing has been packed yet where the next link goes,
      and adding it there packs one more position. */
  lemma {:induction false} PackStep(tt: seq<nat>, l: seq<Byte>, i: nat)
    requires i < |l| <= |tt| && Packed(tt, l, i)
    ensures Dest(l, i) < |l| && tt[i] % 256 == l[i] && tt[Dest(l, i)] < 256
    ensures Packed(tt[Dest(l, i) := tt[Dest(l, i)] + i * 256], l, i + 1)
  {
    DestBound(l, i);
    forall k | 0 <= k < i ensures Dest(l, k) != Dest(l, i) { DestInjective(l, k, i); }
    LinksUnplaced(l, i, Dest(l, i));
    assert LinksUpTo(l, i + 1) == LinksUpTo(l, i)[Dest(l, i) := i];
  }

  /** The running positions after `i` entries have been placed. */
  ghost predicate Positions(cftab: seq<nat>, l: seq<Byte>, i: nat)
    requires i <= |l| && |cftab| == 257
  {
    forall b :: 0 <= b < 256 ==> cftab[b] == CountLess(l, b) + CountEq(l[..i], b)
  }

  lemma {:induction false} PositionStep(cftab: seq<nat>, l: seq<Byte>, i: nat)
    requires i < |l| && |cftab| == 257 && Positions(cftab, l, i)
    ensures cftab[l[i]] == Dest(l, i)
    ensures Positions(cftab[l[i] := cftab[l[i]] + 1], l, i + 1)
  {
    forall b | 0 <= b < 256
      ensures cftab[l[i] := cftab[l[i]] + 1][b] == CountLess(l, b) + CountEq(l[..i + 1], b)
    {
      CountEqStep(l, i, b);
    }
  }

  /** One turn of the placing loop. The C code ors `i << 8` into an entry whose upper bits are
      still clear, which is the addition here. */
  method PlaceOne(tt: array<nat>, cftab: array<nat>, ghost l: seq<Byte>, i: nat)
    requires tt != cftab && i < |l| <= tt.Length && cftab.Length == 257
    requires Positions(cftab[..], l, i) && Packed(tt[..], l, i)
    modifies tt, cftab
    ensures Positions(cftab[..], l, i + 1) && Packed(tt[..], l, i + 1)
  {
    ghost var tt0, cf0 := tt[..], cftab[..];
    PackStep(tt0, l, i);
    PositionStep(cf0, l, i);
    var b := tt[i] % 256;
    var at := cftab[b];
    tt[at] := tt[at] + i * 256;
    cftab[b] := cftab[b] + 1;
    assert tt[..] == tt0[at := tt0[at] + i * 256];
    assert cftab[..] == cf0[b := cf0[b] + 1];
  }

  /** The inverse-BWT loops of `decode_block`: counts become starting positions, and every
      position `i` of the column is packed above the byte at the place it sorts to. */
  method PlaceLinks(tt: array<nat>, cftab: array<nat>, ghost l: seq<Byte>, nblock: nat)
    requires tt != cftab && nblock == |l| <= tt.Length
    requires forall i :: 0 <= i < |l| ==> tt[i] == l[i]
    requires cftab.Length == 257 && cftab[0] == 0
    requires forall b :: 1 <= b <= 256 ==> cftab[b] == CountEq(l, b - 1)
    modifies tt, cftab
    ensures Packed(tt[..], l, |l|)
  {
    Accumulate(cftab, l);
    var i := 0;
    assert Packed(tt[..], l, 0);
    while i < nblock
      invariant 0 <= i <= nblock
      invariant Positions(cftab[..], l, i)
      invariant Packed(tt[..], l, i)
    {
      PlaceOne(tt, cftab, l, i);
      i := i + 1;
    }
  }

  /** Unpack one entry: the byte, and where the walk goes next. */
  method Fetch(tt: array<nat>, ghost l: seq<Byte>, tpos: nat) returns (b: Byte, next: nat)
    requires tpos < |l| <= tt.Length && Packed(tt[..], l, |l|)
    ensures next == Links(l)[tpos] < |l| && b == l[tpos]
    ensures forall m: nat :: m > 0 ==> Walk(l, tpos, m) == [b] + Walk(l, next, m - 1)
  {
    LinksBelow(l, |l|, tpos);
    assert tt[..][tpos] == l[tpos] + 256 * Links(l)[tpos];
    b := tt[tpos] % 256;
    next := tt[tpos] / 256;
  }

  /** The fused walk and run-length decoding loop of `decode_block`. */
  method Unwind(tt: array<nat>, ghost l: seq<Byte>, nblock: nat, origPtr: nat) returns (blk: seq<Byte>)
    requires nblock == |l| <= tt.Length && origPtr < nblock
    requires Packed(tt[..], l, |l|)
    ensures blk == BzRle1.Decode(UnBwt(l, origPtr), -1, 0)
  {
    var first, tpos := Fetch(tt, l, origPtr);
    blk := [];
    var prev: int, rl, i := -1, 0, 0;
    ghost var want := BzRle1.Decode(UnBwt(l, origPtr), -1, 0);
    while i < nblock
      invariant 0 <= i <= nblock && 0 <= tpos < |l|
      invariant blk + BzRle1.Decode(Walk(l, tpos, nblock - i), prev, rl) == want
    {
      ghost var rest := Walk(l, tpos, nblock - i);
      var b: Byte;
      b, tpos := Fetch(tt, l, tpos);
      assert rest[1..] == Walk(l, tpos, nblock - i - 1);
      if b == prev {
        rl := rl + 1;
        if rl == 4 {
          var cnt: Byte := 0;
          if i + 1 < nblock {
            cnt, tpos := Fetch(tt, l, tpos);
            assert rest[2..] == Walk(l, tpos, nblock - i - 2);
            i := i + 1;
          }
          Assoc(blk, [b] + Repeat(b, cnt), BzRle1.Decode(Walk(l, tpos, nblock - i - 1), -1, 0));
          blk := blk + ([b] + Repeat(b, cnt));
          rl := 0;
          prev := -1;
        } else {
          Assoc(blk, [b], BzRle1.Decode(Walk(l, tpos, nblock - i - 1), prev, rl));
          blk := blk + [b];
        }
      } else {
        Assoc(blk, [b], BzRle1.Decode(Walk(l, tpos, nblock - i - 1), b, 1));
        blk := blk + [b];
        rl := 1;
        prev := b;
      }
      i := i + 1;
    }
  }
}
