/** How often a symbol comes out of the move-to-front stage when the column goes round in cycles. */
module BzHits {
  import opened Bits
  import opened Seqs
  import opened BzMtf
  import opened BzBlock

  // --------------------------------------------------------------- counting a symbol

  lemma {:induction false} CountAppend(a: seq<nat>, b: seq<nat>, s: nat)
    ensures CountSym(a + b, s) == CountSym(a, s) + CountSym(b, s)
  {
    if b == [] {
      assert a + b == a;
    } else {
      var n := |b| - 1;
      CountAppend(a, b[..n], s);
      assert (a + b)[..|a + b| - 1] == a + b[..n];
    }
  }

  lemma {:induction false} CountNone(a: seq<nat>, s: nat)
    requires s !in a
    ensures CountSym(a, s) == 0
  {
    if a != [] { CountNone(a[..|a| - 1], s); }
  }

  /** How many of `vs` are found at index `s - 1` of the list, which each moves to the front of. */
  ghost function Hits(vs: seq<nat>, m: seq<nat>, s: nat): nat
    requires AllIn(vs, m)
    decreases |vs|
  {
    if vs == [] then 0
    else
      var j := Find(m, vs[0]);
      EncodePre(vs, m, j);
      (if j + 1 == s then 1 else 0) + Hits(vs[1..], MoveToFront(m, j), s)
  }

  /** The list afterwards. */
  ghost function Moved(vs: seq<nat>, m: seq<nat>): (r: seq<nat>)
    requires AllIn(vs, m)
    decreases |vs|
  {
    if vs == [] then m
    else
      var j := Find(m, vs[0]);
      EncodePre(vs, m, j);
      Moved(vs[1..], MoveToFront(m, j))
  }

  lemma {:induction false} MovedKeeps(vs: seq<nat>, m: seq<nat>, v: nat)
    requires AllIn(vs, m)
    ensures v in Moved(vs, m) <==> v in m
    decreases |vs|
  {
    if vs != [] {
      var j := Find(m, vs[0]);
      EncodePre(vs, m, j);
      MovedKeeps(vs[1..], MoveToFront(m, j), v);
      MoveToFrontKeeps(m, j, v);
    }
  }

  /** Symbols from 2 on are coded once for each time they are hit. */
  lemma {:induction false} HitsEncode(vs: seq<nat>, m: seq<nat>, z: nat, s: nat)
    requires AllIn(vs, m) && s >= 2
    ensures CountSym(Encode(vs, m, z), s) == Hits(vs, m, s)
    decreases |vs|
  {
    CountNone(RunSyms(z), s);
    if vs != [] {
      var j := Find(m, vs[0]);
      EncodePre(vs, m, j);
      if j == 0 {
        assert MoveToFront(m, 0) == m;
        HitsEncode(vs[1..], m, z + 1, s);
      } else {
        var rest := Encode(vs[1..], MoveToFront(m, j), 0);
        HitsEncode(vs[1..], MoveToFront(m, j), 0, s);
        CountAppend(RunSyms(z) + [j + 1], rest, s);
        CountAppend(RunSyms(z), [j + 1], s);
        assert CountSym([j + 1], s) == CountSym([], s) + if j + 1 == s then 1 else 0;
      }
    }
  }

  lemma {:induction false} HitsAppend(a: seq<nat>, b: seq<nat>, m: seq<nat>, s: nat)
    requires AllIn(a + b, m)
    ensures AllIn(a, m) && AllIn(b, Moved(a, m)) && Hits(a + b, m, s) == Hits(a, m, s) + Hits(b, Moved(a, m), s)
    decreases |a|
  {
    assert forall i :: 0 <= i < |a| ==> a[i] == (a + b)[i];
    assert forall i :: 0 <= i < |b| ==> b[i] == (a + b)[|a| + i];
    if a == [] {
      assert a + b == b;
    } else {
      var j := Find(m, a[0]);
      EncodePre(a + b, m, j);
      assert (a + b)[1..] == a[1..] + b;
      HitsAppend(a[1..], b, MoveToFront(m, j), s);
    }
  }

  // ------------------------------------------------------------------------- cycles

  /** The letters `base`, ..., `base + x - 1` over and over, from the `r`-th on. */
  function Cycle(base: nat, x: nat, r: nat, n: nat): (c: seq<nat>)
    requires x > 0
    ensures |c| == n && forall i :: 0 <= i < n ==> c[i] == base + (r + i) % x
  {
    seq(n, i requires 0 <= i => base + (r + i) % x)
  }

  /** The list begins with the last `t` letters before the `r`-th, the latest first. */
  ghost predicate Latest(m: seq<nat>, base: nat, x: nat, r: nat, t: nat)
    requires x > 0
  {
    t <= r && t <= |m| && forall u :: 0 <= u < t ==> m[u] == base + (r - 1 - u) % x
  }

  lemma {:induction false} ModApart(a: nat, b: nat, x: nat)
    requires a < b < a + x
    ensures a % x != b % x
  {
    var p, d, k := a / x, a % x, b - a;
    assert a == x * p + d;
    if d + k < x {
      DivUnique(b, x, p, d + k);
    } else {
      assert x * (p + 1) == x * p + x;
      DivUnique(b, x, p + 1, d + k - x);
    }
  }

  lemma {:induction false} ModBack(a: nat, x: nat)
    requires 0 < x <= a
    ensures (a - x) % x == a % x
  {
    var p := a / x;
    assert a == x * p + a % x;
    assert a - x == x * (p - 1) + a % x;
    DivUnique(a - x, x, p - 1, a % x);
  }

  /** A letter of the cycle is found behind all later ones, and at the end of a full round. */
  lemma {:induction false} CycleStep(m: seq<nat>, base: nat, x: nat, r: nat, t: nat)
    requires x > 0 && t <= x && Latest(m, base, x, r, t) && base + r % x in m
    ensures var j := Find(m, base + r % x);
            (t == x ==> j + 1 == x) && Latest(MoveToFront(m, j), base, x, r + 1, if t < x then t + 1 else x)
  {
    var c := base + r % x;
    var j := Find(m, c);
    forall u | 0 <= u < t && u + 1 < x ensures m[u] != c { ModApart(r - 1 - u, r, x); }
    if t == x {
      ModBack(r, x);
      assert m[x - 1] == c;
    }
    var m' := MoveToFront(m, j);
    var t' := if t < x then t + 1 else x;
    assert j + 1 >= t';
    forall u | 0 <= u < t' ensures m'[u] == base + (r + 1 - 1 - u) % x {
      if u > 0 { assert m'[u] == m[u - 1]; }
    }
  }

  /** So all but the first round of a cycle hits the same index. */
  lemma {:induction false} CycleHits(m: seq<nat>, base: nat, x: nat, r: nat, t: nat, n: nat)
    requires x > 0 && t <= x && Latest(m, base, x, r, t) && AllIn(Cycle(base, x, r, n), m)
    ensures Hits(Cycle(base, x, r, n), m, x) + (x - t) >= n
    decreases n
  {
    if n > 0 {
      var c := Cycle(base, x, r, n);
      assert c[0] == base + r % x;
      var j := Find(m, c[0]);
      CycleStep(m, base, x, r, t);
      EncodePre(c, m, j);
      assert c[1..] == Cycle(base, x, r + 1, n - 1);
      CycleHits(MoveToFront(m, j), base, x, r + 1, if t < x then t + 1 else x, n - 1);
    }
  }
}
