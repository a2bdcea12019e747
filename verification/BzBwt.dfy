/** The Burrows-Wheeler transform by rotation sort, and its inverse by counting. */
module BzBwt {
  import opened Bits
  import opened Pigeonhole

  // ---------------------------------------------------------------- rotations

  /** The rotation of `s` that starts at `a`. */
  function Rot(s: seq<Byte>, a: nat): (r: seq<Byte>)
    requires a <= |s|
    ensures |r| == |s|
  {
    s[a..] + s[..a]
  }

  lemma {:induction false} RotIndex(s: seq<Byte>, a: nat, i: nat)
    requires a < |s| && i < |s|
    ensures Rot(s, a)[i] == s[(a + i) % |s|]
  {
    if a + i < |s| {
      DivUnique(a + i, |s|, 0, a + i);
    } else {
      DivUnique(a + i, |s|, 1, a + i - |s|);
    }
  }

  function Succ(n: nat, a: nat): (r: nat)
    requires a < n
    ensures r < n
  {
    if a + 1 == n then 0 else a + 1
  }

  function Pred(n: nat, a: nat): (r: nat)
    requires a < n
    ensures r < n && Succ(n, r) == a
  {
    if a == 0 then n - 1 else a - 1
  }

  /** Advancing the start by one moves the first byte to the end. */
  lemma {:induction false} RotSucc(s: seq<Byte>, a: nat)
    requires a < |s|
    ensures Rot(s, Succ(|s|, a)) == Rot(s, a)[1..] + [Rot(s, a)[0]]
  {
    if a + 1 == |s| {
      assert s[a..] + s[..a] == [s[a]] + s[..a];
      assert Rot(s, 0) == s;
      assert s == s[..a] + [s[a]];
    } else {
      assert s[a..][1..] == s[a + 1..] && s[..a + 1] == s[..a] + [s[a]];
    }
  }

  /** The byte before the start of a rotation is its last. */
  lemma {:induction false} RotLast(s: seq<Byte>, a: nat)
    requires a < |s|
    ensures Rot(s, a)[|s| - 1] == s[Pred(|s|, a)]
    ensures Rot(s, Pred(|s|, a)) == [s[Pred(|s|, a)]] + Rot(s, a)[..|s| - 1]
  {
    var q := Pred(|s|, a);
    RotSucc(s, q);
    var r := Rot(s, q);
    assert Rot(s, a) == r[1..] + [r[0]];
    assert r[0] == s[q];
    assert r == [r[0]] + r[1..];
    assert Rot(s, a)[..|s| - 1] == r[1..];
  }

  // ---------------------------------------------------------- lexicographic order

  predicate Less(x: seq<Byte>, y: seq<Byte>)
    requires |x| == |y|
  {
    x != [] && (x[0] < y[0] || (x[0] == y[0] && Less(x[1..], y[1..])))
  }

  lemma {:induction false} LessTrans(x: seq<Byte>, y: seq<Byte>, z: seq<Byte>)
    requires |x| == |y| == |z|
    requires Less(x, y) && Less(y, z)
    ensures Less(x, z)
  {
    if x[0] == y[0] == z[0] { LessTrans(x[1..], y[1..], z[1..]); }
  }

  lemma {:induction false} LessIrreflexive(x: seq<Byte>)
    ensures !Less(x, x)
  {
    if x != [] { LessIrreflexive(x[1..]); }
  }

  lemma {:induction false} LessTotal(x: seq<Byte>, y: seq<Byte>)
    requires |x| == |y|
    ensures Less(x, y) || x == y || Less(y, x)
  {
    if x != [] {
      LessTotal(x[1..], y[1..]);
      if x[0] == y[0] && x[1..] == y[1..] {
        assert x == [x[0]] + x[1..] && y == [y[0]] + y[1..];
      }
    }
  }

  /** The first difference decides. */
  lemma {:induction false} LessAt(x: seq<Byte>, y: seq<Byte>, i: nat)
    requires |x| == |y| && i < |x|
    requires x[..i] == y[..i] && x[i] < y[i]
    ensures Less(x, y)
  {
    if i > 0 {
      assert x[0] == x[..i][0] == y[0];
      assert x[1..][..i - 1] == x[..i][1..] == y[1..][..i - 1];
      LessAt(x[1..], y[1..], i - 1);
    }
  }

  /** A common last byte never decides. */
  lemma {:induction false} LessDropLast(x: seq<Byte>, y: seq<Byte>, c: Byte)
    requires |x| == |y|
    ensures Less(x + [c], y + [c]) <==> Less(x, y)
  {
    if x != [] {
      LessDropLast(x[1..], y[1..], c);
      assert (x + [c])[1..] == x[1..] + [c] && (y + [c])[1..] == y[1..] + [c];
    }
  }

  lemma {:induction false} LessConsSame(x: seq<Byte>, y: seq<Byte>, c: Byte)
    requires |x| == |y|
    ensures Less([c] + x, [c] + y) <==> Less(x, y)
  {
    assert ([c] + x)[1..] == x && ([c] + y)[1..] == y;
  }

  // ------------------------------------------------------------- sorting the rows

  /** The order of `bwt_cmp`: by rotation, ties by starting index. */
  predicate RowBefore(s: seq<Byte>, a: nat, b: nat)
    requires a < |s| && b < |s|
  {
    Less(Rot(s, a), Rot(s, b)) || (Rot(s, a) == Rot(s, b) && a < b)
  }

  lemma {:induction false} RowTrans(s: seq<Byte>, a: nat, b: nat, c: nat)
    requires a < |s| && b < |s| && c < |s|
    requires RowBefore(s, a, b) && RowBefore(s, b, c)
    ensures RowBefore(s, a, c)
  {
    if Less(Rot(s, a), Rot(s, b)) && Less(Rot(s, b), Rot(s, c)) {
      LessTrans(Rot(s, a), Rot(s, b), Rot(s, c));
    }
  }

  /** Row numbers of `s` in strictly increasing `bwt_cmp` order. */
  ghost predicate Ascending(s: seq<Byte>, idx: seq<nat>)
  {
    && (forall i :: 0 <= i < |idx| ==> idx[i] < |s|)
    && (forall i, j :: 0 <= i < j < |idx| ==> RowBefore(s, idx[i], idx[j]))
  }

  /** All rows, sorted: what `qsort` with `bwt_cmp` leaves in `idx`. */
  ghost predicate SortedRows(s: seq<Byte>, idx: seq<nat>)
  {
    |idx| == |s| && Ascending(s, idx)
  }

  lemma {:induction false} AscendingInjective(s: seq<Byte>, idx: seq<nat>)
    requires Ascending(s, idx)
    ensures Injective(idx)
  {
    forall i, j | 0 <= i < j < |idx| ensures idx[i] != idx[j] {
      assert RowBefore(s, idx[i], idx[j]);
      LessIrreflexive(Rot(s, idx[i]));
    }
  }

  function Insert(s: seq<Byte>, idx: seq<nat>, a: nat): (r: seq<nat>)
    requires a < |s| && Ascending(s, idx) && a !in idx
    ensures |r| == |idx| + 1 && Ascending(s, r)
    ensures forall x :: x in r <==> x == a || x in idx
  {
    if idx == [] then [a]
    else if RowBefore(s, a, idx[0]) then
      InsertFront(s, idx, a);
      [a] + idx
    else
      var rest := Insert(s, idx[1..], a);
      InsertAfter(s, idx, a, rest);
      [idx[0]] + rest
  }

  lemma {:induction false} InsertFront(s: seq<Byte>, idx: seq<nat>, a: nat)
    requires a < |s| && Ascending(s, idx) && idx != [] && RowBefore(s, a, idx[0])
    ensures Ascending(s, [a] + idx)
    ensures forall x :: x in [a] + idx <==> x == a || x in idx
  {
    var r := [a] + idx;
    forall j | 0 <= j < |idx| ensures RowBefore(s, a, idx[j]) {
      if j > 0 { RowTrans(s, a, idx[0], idx[j]); }
    }
    forall i, j | 0 <= i < j < |r| ensures RowBefore(s, r[i], r[j]) {
      assert r[j] == idx[j - 1];
      if i > 0 { assert r[i] == idx[i - 1]; }
    }
  }

  lemma {:induction false} InsertAfter(s: seq<Byte>, idx: seq<nat>, a: nat, rest: seq<nat>)
    requires a < |s| && Ascending(s, idx) && idx != [] && a !in idx && !RowBefore(s, a, idx[0])
    requires Ascending(s, rest) && forall x :: x in rest <==> x == a || x in idx[1..]
    ensures Ascending(s, [idx[0]] + rest)
    ensures forall x :: x in [idx[0]] + rest <==> x == a || x in idx
  {
    var r := [idx[0]] + rest;
    LessTotal(Rot(s, a), Rot(s, idx[0]));
    assert idx[0] in idx;
    forall j | 0 <= j < |rest| ensures RowBefore(s, idx[0], rest[j]) {
      assert rest[j] in rest;
      if rest[j] != a {
        var k :| 0 <= k < |idx[1..]| && idx[1..][k] == rest[j];
        assert idx[k + 1] == rest[j];
      }
    }
    forall i, j | 0 <= i < j < |r| ensures RowBefore(s, r[i], r[j]) {
      assert r[j] == rest[j - 1];
      if i > 0 { assert r[i] == rest[i - 1]; }
    }
    assert idx == [idx[0]] + idx[1..];
  }

  function SortFirst(s: seq<Byte>, k: nat): (r: seq<nat>)
    requires k <= |s|
    ensures |r| == k && Ascending(s, r)
    ensures forall x :: x in r <==> 0 <= x < k
  {
    if k == 0 then [] else Insert(s, SortFirst(s, k - 1), k - 1)
  }

  /** Stands for the library `qsort` call on the identity permutation. */
  function SortRotations(s: seq<Byte>): (idx: seq<nat>)
    ensures SortedRows(s, idx)
  {
    SortFirst(s, |s|)
  }

  /** `bwt_cmp`: negative, zero or positive exactly as row `a` sorts before, is, or sorts after row `b`. */
  method BwtCmp(s: seq<Byte>, a: nat, b: nat) returns (r: int)
    requires a < |s| && b < |s|
    ensures r < 0 <==> RowBefore(s, a, b)
    ensures r > 0 <==> RowBefore(s, b, a)
    ensures r == 0 <==> a == b
  {
    var i := 0;
    while i < |s|
      invariant 0 <= i <= |s|
      invariant forall k :: 0 <= k < i ==> Rot(s, a)[k] == Rot(s, b)[k]
    {
      RotIndex(s, a, i);
      RotIndex(s, b, i);
      var ca: int, cb: int := s[(a + i) % |s|], s[(b + i) % |s|];
      if ca != cb {
        assert Rot(s, a)[..i] == Rot(s, b)[..i];
        Differ(s, a, b, i);
        return ca - cb;
      }
      i := i + 1;
    }
    SameRotation(s, a, b);
    return a - b;
  }

  lemma {:induction false} SameRotation(s: seq<Byte>, a: nat, b: nat)
    requires a < |s| && b < |s|
    requires forall k :: 0 <= k < |s| ==> Rot(s, a)[k] == Rot(s, b)[k]
    ensures RowBefore(s, a, b) <==> a < b
    ensures RowBefore(s, b, a) <==> b < a
  {
    assert Rot(s, a) == Rot(s, b);
    LessIrreflexive(Rot(s, a));
  }

  lemma {:induction false} Differ(s: seq<Byte>, a: nat, b: nat, i: nat)
    requires a < |s| && b < |s| && i < |s|
    requires Rot(s, a)[..i] == Rot(s, b)[..i]
    requires Rot(s, a)[i] != Rot(s, b)[i]
    ensures Rot(s, a)[i] < Rot(s, b)[i] <==> RowBefore(s, a, b)
    ensures Rot(s, a)[i] > Rot(s, b)[i] <==> RowBefore(s, b, a)
    ensures a != b
  {
    var x, y := Rot(s, a), Rot(s, b);
    if x[i] < y[i] {
      LessAt(x, y, i);
      if Less(y, x) { LessTrans(x, y, x); LessIrreflexive(x); }
    } else {
      LessAt(y, x, i);
      if Less(x, y) { LessTrans(x, y, x); LessIrreflexive(x); }
    }
  }

  // ---------------------------------------------------------- the forward transform

  /** The last column for a given row order. */
  function LastColumn(s: seq<Byte>, idx: seq<nat>): (l: seq<Byte>)
    requires |idx| == |s| && forall i :: 0 <= i < |idx| ==> idx[i] < |s|
    ensures |l| == |s|
    ensures forall i :: 0 <= i < |s| ==> l[i] == s[Pred(|s|, idx[i])]
  {
    seq(|s|, i requires 0 <= i < |s| => s[Pred(|s|, idx[i])])
  }

  function Bwt(s: seq<Byte>): (l: seq<Byte>)
    ensures |l| == |s|
  {
    LastColumn(s, SortRotations(s))
  }

  /** Where the unrotated row ended up. */
  function IndexOf(idx: seq<nat>, a: nat): (i: nat)
    requires a in idx
    ensures i < |idx| && idx[i] == a
  {
    if idx[0] == a then 0 else 1 + IndexOf(idx[1..], a)
  }

  lemma {:induction false} ZeroIsSorted(s: seq<Byte>)
    requires s != []
    ensures 0 in SortRotations(s)
  {
  }

  function OrigPtr(s: seq<Byte>): (i: nat)
    requires s != []
    ensures i < |s| && SortRotations(s)[i] == 0
  {
    ZeroIsSorted(s);
    IndexOf(SortRotations(s), 0)
  }

  lemma {:induction false} PredIsModular(n: nat, a: nat)
    requires a < n
    ensures (a + n - 1) % n == Pred(n, a)
  {
    if a == 0 {
      DivUnique(n - 1, n, 0, n - 1);
    } else {
      DivUnique(a + n - 1, n, 1, a - 1);
    }
  }

  /** Row numbers, each once. */
  lemma {:induction false} RowsAre(s: seq<Byte>, idx: seq<nat>)
    requires SortedRows(s, idx)
    ensures |idx| == |s| && (forall i :: 0 <= i < |idx| ==> idx[i] < |s|)
    ensures forall i, j :: 0 <= i < |idx| && 0 <= j < |idx| && idx[i] == idx[j] ==> i == j
  {
    hide RowBefore;
    AscendingInjective(s, idx);
  }

  /** The last column and the row of the original, as `compress_block` computes them. */
  method Transform(s: seq<Byte>) returns (l: seq<Byte>, origPtr: nat)
    requires s != []
    ensures l == Bwt(s) && origPtr == OrigPtr(s)
  {
    hide SortedRows, Ascending, SortRotations, LastColumn;
    var idx := SortRotations(s);
    RowsAre(s, idx);
    ghost var orig := OrigPtr(s);
    ghost var want := LastColumn(s, idx);
    l, origPtr := [], 0;
    var n := |s|;
    var i := 0;
    while i < n
      invariant 0 <= i <= n && |l| == i
      invariant forall k :: 0 <= k < i ==> l[k] == want[k]
      invariant orig < i ==> origPtr == orig
    {
      var from := (idx[i] + n - 1) % n;
      assert from == Pred(n, idx[i]) by { PredIsModular(n, idx[i]); }
      l := l + [s[from]];
      if idx[i] == 0 {
        origPtr := i;
      }
      i := i + 1;
    }
    assert l == want;
  }
}
