/** When Huffman trees grow deep: symbols so much heavier than the rest that they are merged last,
    one by one. */
module BzDeep {
  import opened Bits
  import opened BzTree

  // ------------------------------------------------------------ sums over a forest

  /** The sum of a measure over the trees of a forest. */
  ghost function Score(h: seq<Tree>, f: Tree -> nat): nat
  {
    if h == [] then 0 else Score(h[..|h| - 1], f) + f(h[|h| - 1])
  }

  lemma {:induction false} ScoreUpdate(h: seq<Tree>, a: nat, t: Tree, f: Tree -> nat)
    requires a < |h|
    ensures Score(h[a := t], f) + f(h[a]) == Score(h, f) + f(t)
  {
    var n := |h| - 1;
    if a < n {
      ScoreUpdate(h[..n], a, t, f);
      assert h[a := t][..n] == h[..n][a := t];
    } else {
      assert h[a := t][..n] == h[..n];
    }
  }

  lemma {:induction false} ScoreRemove(h: seq<Tree>, a: nat, f: Tree -> nat)
    requires a < |h|
    ensures Score(RemoveAt(h, a), f) + f(h[a]) == Score(h, f)
  {
    var n := |h| - 1;
    if a < n {
      ScoreUpdate(h[..n], a, h[n], f);
      assert RemoveAt(h, a) == h[..n][a := h[n]];
    } else {
      assert RemoveAt(h, a) == h[..n];
    }
  }

  /** Merging two trees. */
  lemma {:induction false} ScoreMerge(h: seq<Tree>, w: seq<nat>, f: Tree -> nat, a: nat, h1: seq<Tree>, b: nat)
    requires |h| >= 2 && a == MinIndex(h, w) && h1 == RemoveAt(h, a) && b == MinIndex(h1, w)
    ensures Score(Merge(h, w), f) + f(h[a]) + f(h1[b]) == Score(h, f) + f(Node(h[a], h1[b]))
  {
    ScoreRemove(h, a, f);
    ScoreRemove(h1, b, f);
    assert Merge(h, w)[..|h| - 2] == RemoveAt(h1, b);
  }

  lemma {:induction false} ScoreHas(h: seq<Tree>, f: Tree -> nat) returns (i: nat)
    requires Score(h, f) > 0
    ensures i < |h| && f(h[i]) > 0
  {
    var n := |h| - 1;
    if f(h[n]) > 0 { return n; }
    i := ScoreHas(h[..n], f);
  }

  lemma {:induction false} ScoreAtLeast(h: seq<Tree>, f: Tree -> nat, i: nat)
    requires i < |h|
    ensures f(h[i]) <= Score(h, f)
  {
    var n := |h| - 1;
    if i < n { ScoreAtLeast(h[..n], f, i); }
  }

  // ------------------------------------------------------------- light and heavy trees

  /** Everything but a leaf of one of the heavy symbols. */
  ghost predicate Light(t: Tree, hs: seq<nat>)
  {
    !(t.Leaf? && t.sym in hs)
  }

  lemma {:induction false} LeavesAtMost(t: Tree)
    ensures LeafCount(t) <= Pow2(Height(t))
  {
    match t
    case Leaf(_) =>
    case Node(l, r) =>
      LeavesAtMost(l);
      LeavesAtMost(r);
      Pow2Mono(Height(l), Height(t) - 1);
      Pow2Mono(Height(r), Height(t) - 1);
  }

  ghost function OneIf(hs: seq<nat>): Tree -> nat
  {
    (t: Tree) => if Light(t, hs) then 1 else 0
  }

  ghost function LeavesIf(hs: seq<nat>): Tree -> nat
  {
    (t: Tree) => if Light(t, hs) then LeafCount(t) else 0
  }

  ghost function WeightIf(hs: seq<nat>, w: seq<nat>): Tree -> nat
  {
    (t: Tree) => if Light(t, hs) then SumOver(t, w) else 0
  }

  ghost predicate Apart(h: seq<Tree>, hs: seq<nat>)
  {
    forall i, j :: 0 <= i < j < |h| && !Light(h[i], hs) ==> h[i] != h[j]
  }

  lemma {:induction false} RemoveApart(h: seq<Tree>, hs: seq<nat>, a: nat)
    requires a < |h| && Apart(h, hs)
    ensures Apart(RemoveAt(h, a), hs)
  {
    var r := RemoveAt(h, a);
    forall i, j | 0 <= i < j < |r| && !Light(r[i], hs) ensures r[i] != r[j] {
      var k, l := if i == a then |h| - 1 else i, if j == a then |h| - 1 else j;
      assert r[i] == h[k] && r[j] == h[l];
      if k < l { assert h[k] != h[l]; }
    }
  }

  lemma {:induction false} NodeApart(h: seq<Tree>, hs: seq<nat>, x: Tree, y: Tree)
    requires Apart(h, hs)
    ensures Apart(h + [Node(x, y)], hs)
  {
  }

  /** Heavy leaves are different, and each heavier than all the light trees together. */
  ghost predicate Sorted2(h: seq<Tree>, w: seq<nat>, hs: seq<nat>, low: nat)
  {
    && Apart(h, hs)
    && (forall s :: s in hs ==> s < |w| && low < w[s])
    && Score(h, WeightIf(hs, w)) <= low
    && |h| == Score(h, OneIf(hs)) + |hs|
  }

  /** With a light tree left, the lightest is light. */
  lemma {:induction false} LightFirst(h: seq<Tree>, w: seq<nat>, hs: seq<nat>, low: nat)
    requires h != [] && Score(h, OneIf(hs)) > 0 && Score(h, WeightIf(hs, w)) <= low
    requires forall s :: s in hs ==> s < |w| && low < w[s]
    ensures Light(h[MinIndex(h, w)], hs)
  {
    var i := ScoreHas(h, OneIf(hs));
    ScoreAtLeast(h, WeightIf(hs, w), i);
    var a := MinIndex(h, w);
    assert SumOver(h[a], w) <= SumOver(h[i], w);
  }

  /** While two light trees are left, two of them are merged. */
  lemma {:induction false} LightMerge(h: seq<Tree>, w: seq<nat>, hs: seq<nat>, low: nat)
    requires Score(h, OneIf(hs)) >= 2 && Sorted2(h, w, hs, low)
    ensures |h| >= 2 && Sorted2(Merge(h, w), w, hs, low)
    ensures Score(Merge(h, w), OneIf(hs)) + 1 == Score(h, OneIf(hs))
    ensures Score(Merge(h, w), LeavesIf(hs)) == Score(h, LeavesIf(hs))
  {
    var a := MinIndex(h, w);
    var h1 := RemoveAt(h, a);
    LightFirst(h, w, hs, low);
    ScoreRemove(h, a, OneIf(hs));
    ScoreRemove(h, a, WeightIf(hs, w));
    LightFirst(h1, w, hs, low);
    var b := MinIndex(h1, w);
    ScoreMerge(h, w, OneIf(hs), a, h1, b);
    ScoreMerge(h, w, LeavesIf(hs), a, h1, b);
    ScoreMerge(h, w, WeightIf(hs, w), a, h1, b);
    RemoveApart(h, hs, a);
    RemoveApart(h1, hs, b);
    NodeApart(RemoveAt(h1, b), hs, h[a], h1[b]);
  }

  /** So they become one tree, before any heavy leaf is touched. */
  lemma {:induction false} LightsJoin(h: seq<Tree>, w: seq<nat>, hs: seq<nat>, low: nat) returns (h': seq<Tree>, a: nat)
    requires Score(h, OneIf(hs)) >= 1 && Sorted2(h, w, hs, low)
    ensures h' != [] && h != [] && Build(h', w) == Build(h, w) && |h'| == |hs| + 1 && Apart(h', hs)
    ensures a < |h'| && Light(h'[a], hs) && SumOver(h'[a], w) <= low && LeafCount(h'[a]) == Score(h, LeavesIf(hs))
    ensures forall i :: 0 <= i < |h'| && i != a ==> !Light(h'[i], hs)
    decreases |h|
  {
    if Score(h, OneIf(hs)) >= 2 {
      LightMerge(h, w, hs, low);
      h', a := LightsJoin(Merge(h, w), w, hs, low);
    } else {
      h' := h;
      a := ScoreHas(h, OneIf(hs));
      ScoreRemove(h, a, OneIf(hs));
      ScoreRemove(h, a, LeavesIf(hs));
      ScoreAtLeast(h, WeightIf(hs, w), a);
      OnlyOne(h, hs, a);
    }
  }

  lemma {:induction false} OnlyOne(h: seq<Tree>, hs: seq<nat>, a: nat)
    requires a < |h| && Light(h[a], hs) && Score(h, OneIf(hs)) == 1
    ensures forall i :: 0 <= i < |h| && i != a ==> !Light(h[i], hs)
    ensures LeafCount(h[a]) == Score(h, LeavesIf(hs))
  {
    ScoreRemove(h, a, OneIf(hs));
    ScoreRemove(h, a, LeavesIf(hs));
    var r := RemoveAt(h, a);
    forall i | 0 <= i < |h| && i != a ensures !Light(h[i], hs) {
      var k := if i == |h| - 1 then a else i;
      assert r[k] == h[i];
      ScoreAtLeast(r, OneIf(hs), k);
    }
    if Score(r, LeavesIf(hs)) > 0 {
      var k := ScoreHas(r, LeavesIf(hs));
      ScoreAtLeast(r, OneIf(hs), k);
    }
  }

  // -------------------------------------------------------------- the heavy ones, one by one

  /** The heavy symbols from lightest to heaviest, each but the first heavier than all that comes two
      before it and earlier: `up[k]` bounds what is lighter than `hs[k]`. */
  ghost predicate Growing(w: seq<nat>, hs: seq<nat>, up: seq<nat>)
  {
    && |up| == |hs| + 1
    && (forall l :: 0 <= l < |hs| ==> hs[l] < |w| && up[l] + w[hs[l]] <= up[l + 1])
    && (forall l, m :: 0 <= l < m < |hs| ==> up[l] < w[hs[m]] && w[hs[l]] < w[hs[m]])
  }

  /** One tree, and otherwise different heavy leaves from the `k`-th on. */
  ghost predicate Chain(h: seq<Tree>, w: seq<nat>, hs: seq<nat>, up: seq<nat>, a: nat, k: nat)
  {
    && a < |h| && k <= |hs| && Growing(w, hs, up) && SumOver(h[a], w) <= up[k]
    && (forall i :: 0 <= i < |h| && i != a ==> HeavyFrom(h[i], hs, k))
    && (forall i, j :: 0 <= i < j < |h| && i != a && j != a ==> h[i] != h[j])
  }

  ghost predicate HeavyFrom(t: Tree, hs: seq<nat>, k: nat)
  {
    t.Leaf? && exists l :: k <= l < |hs| && hs[l] == t.sym
  }

  lemma {:induction false} UpMono(w: seq<nat>, hs: seq<nat>, up: seq<nat>, k: nat, l: nat)
    requires Growing(w, hs, up) && k <= l <= |hs|
    ensures up[k] <= up[l]
    decreases l
  {
    if k < l { UpMono(w, hs, up, k, l - 1); }
  }

  /** The index an element had before another was taken out. */
  function Before(n: nat, a: nat, i: nat): (k: nat)
    requires a < n && i < n - 1
    ensures k < n && k != a
  {
    if i == a then n - 1 else i
  }

  lemma {:induction false} RemoveIs(h: seq<Tree>, a: nat)
    requires a < |h|
    ensures forall i :: 0 <= i < |h| - 1 ==> RemoveAt(h, a)[i] == h[Before(|h|, a, i)]
  {
  }

  /** The lightest of the heavy leaves up to an index. */
  lemma {:induction false} Lightest(h: seq<Tree>, hs: seq<nat>, a: nat, k: nat, from: nat) returns (c: nat, l: nat)
    requires from < |h| && !(from == 0 && a == 0)
    requires forall i :: 0 <= i < |h| && i != a ==> HeavyFrom(h[i], hs, k)
    requires forall i, j :: 0 <= i < j < |h| && i != a && j != a ==> h[i] != h[j]
    ensures c <= from && c != a && k <= l < |hs| && h[c] == Leaf(hs[l])
    ensures forall i :: 0 <= i <= from && i != a && i != c ==> HeavyFrom(h[i], hs, l + 1)
    decreases from
  {
    if from == a {
      c, l := Lightest(h, hs, a, k, from - 1);
    } else {
      assert HeavyFrom(h[from], hs, k);
      var m :| k <= m < |hs| && hs[m] == h[from].sym;
      if from == 0 || (from == 1 && a == 0) {
        c, l := from, m;
      } else {
        c, l := Lightest(h, hs, a, k, from - 1);
        assert h[c] != h[from];
        assert h[from] == Leaf(hs[m]);
        if m < l {
          forall i | 0 <= i <= from && i != a && i != from ensures HeavyFrom(h[i], hs, m + 1) {
            if i == c { assert hs[l] == h[c].sym; } else { assert HeavyFrom(h[i], hs, l + 1); }
          }
          c, l := from, m;
        } else {
          assert HeavyFrom(h[from], hs, l + 1);
        }
      }
    }
  }

  /** A heavy leaf from the `k`-th on weighs at least as much as that. */
  lemma {:induction false} HeavierThan(t: Tree, w: seq<nat>, hs: seq<nat>, up: seq<nat>, k: nat, l: nat)
    requires Growing(w, hs, up) && l < |hs| && k <= l && HeavyFrom(t, hs, l + 1)
    ensures up[k] < SumOver(t, w) && w[hs[l]] < SumOver(t, w)
  {
    var m :| l + 1 <= m < |hs| && hs[m] == t.sym;
    UpMono(w, hs, up, k, l);
  }

  /** The two lightest are the tree and the lightest heavy leaf. */
  lemma {:induction false} ChainTwo(h: seq<Tree>, w: seq<nat>, hs: seq<nat>, up: seq<nat>, a: nat, k: nat, c: nat,
      l: nat)
    requires Chain(h, w, hs, up, a, k) && |h| >= 2 && c < |h| && c != a && k <= l < |hs| && h[c] == Leaf(hs[l])
    requires forall i :: 0 <= i < |h| && i != a && i != c ==> HeavyFrom(h[i], hs, l + 1)
    ensures var m := MinIndex(h, w);
            var n := Before(|h|, m, MinIndex(RemoveAt(h, m), w)); (m == a && n == c) || (m == c && n == a)
  {
    hide Growing;
    GrowingLeaf(w, hs, up, l);
    var m := MinIndex(h, w);
    if m != a && m != c { HeavierThan(h[m], w, hs, up, k, l); assert false; }
    var h1 := RemoveAt(h, m);
    var b := MinIndex(h1, w);
    RemoveIs(h, m);
    var n, o := Before(|h|, m, b), if m == a then c else a;
    var i := if o == |h| - 1 then m else o;
    assert Before(|h|, m, i) == o && h1[i] == h[o];
    assert SumOver(h1[b], w) <= SumOver(h1[i], w);
    if n != o { HeavierThan(h[n], w, hs, up, k, l); }
  }

  lemma {:induction false} GrowingLeaf(w: seq<nat>, hs: seq<nat>, up: seq<nat>, l: nat)
    requires Growing(w, hs, up) && l < |hs|
    ensures hs[l] < |w| && SumOver(Leaf(hs[l]), w) == w[hs[l]]
  {
  }

  /** What is left when the tree and one heavy leaf have been taken out. */
  lemma {:induction false} ChainRest(h: seq<Tree>, hs: seq<nat>, a: nat, c: nat, l: nat, m: nat, b: nat)
    requires |h| >= 2 && a < |h| && c < |h| && m < |h| && b < |h| - 1
    requires (m == a && Before(|h|, m, b) == c) || (m == c && Before(|h|, m, b) == a)
    requires forall i :: 0 <= i < |h| && i != a && i != c ==> HeavyFrom(h[i], hs, l)
    requires forall i, j :: 0 <= i < j < |h| && i != a && j != a ==> h[i] != h[j]
    ensures var r := RemoveAt(RemoveAt(h, m), b);
            (forall i :: 0 <= i < |r| ==> HeavyFrom(r[i], hs, l)) && (forall i, j :: 0 <= i < j < |r| ==> r[i] != r[j])
  {
    hide HeavyFrom;
    var n := |h|;
    RemoveIs(h, m);
    RemoveIs(RemoveAt(h, m), b);
    var r := RemoveAt(RemoveAt(h, m), b);
    forall i | 0 <= i < n - 2 ensures HeavyFrom(r[i], hs, l) {
      var p := Before(n, m, Before(n - 1, b, i));
      assert r[i] == h[p] && p != a && p != c;
    }
    forall i, j | 0 <= i < j < n - 2 ensures r[i] != r[j] {
      var p, q := Before(n, m, Before(n - 1, b, i)), Before(n, m, Before(n - 1, b, j));
      assert r[i] == h[p] && r[j] == h[q] && p != q && p != a && q != a;
      if p < q { assert h[p] != h[q]; } else { assert h[q] != h[p]; }
    }
  }

  lemma {:induction false} ChainMerge(h: seq<Tree>, w: seq<nat>, hs: seq<nat>, up: seq<nat>, a: nat, k: nat)
      returns (k': nat)
    requires |h| >= 2 && Chain(h, w, hs, up, a, k)
    ensures Chain(Merge(h, w), w, hs, up, |h| - 2, k')
    ensures Height(Merge(h, w)[|h| - 2]) >= Height(h[a]) + 1
  {
    hide Growing, HeavyFrom, RemoveAt, MinIndex;
    var c, l := Lightest(h, hs, a, k, |h| - 1);
    ChainTwo(h, w, hs, up, a, k, c, l);
    GrowingLeaf(w, hs, up, l);
    UpStep(w, hs, up, k, l);
    k' := l + 1;
    var m := MinIndex(h, w);
    RemoveIs(h, m);
    ChainRest(h, hs, a, c, l + 1, m, MinIndex(RemoveAt(h, m), w));
  }

  lemma {:induction false} UpStep(w: seq<nat>, hs: seq<nat>, up: seq<nat>, k: nat, l: nat)
    requires Growing(w, hs, up) && k <= l < |hs|
    ensures up[k] + w[hs[l]] <= up[l + 1]
  {
    UpMono(w, hs, up, k, l);
  }

  lemma {:induction false} ChainHeight(h: seq<Tree>, w: seq<nat>, hs: seq<nat>, up: seq<nat>, a: nat, k: nat)
    requires Chain(h, w, hs, up, a, k)
    ensures Height(Build(h, w)) >= Height(h[a]) + |h| - 1
    decreases |h|
  {
    if |h| > 1 {
      var k' := ChainMerge(h, w, hs, up, a, k);
      ChainHeight(Merge(h, w), w, hs, up, |h| - 2, k');
    }
  }

  // ------------------------------------------------------------------- the whole tree

  /** The weights of the listed symbols together. */
  function SumAt(w: seq<nat>, hs: seq<nat>): nat
    requires forall i :: 0 <= i < |hs| ==> hs[i] < |w|
  {
    if hs == [] then 0 else SumAt(w, hs[..|hs| - 1]) + w[hs[|hs| - 1]]
  }

  lemma {:induction false} ScoreAll(n: nat, w: seq<nat>)
    requires n <= |w|
    ensures Score(LeafForest(n), OneIf([])) == n && Score(LeafForest(n), LeavesIf([])) == n
    ensures Score(LeafForest(n), WeightIf([], w)) == Sum(w[..n])
  {
    if n > 0 {
      ScoreAll(n - 1, w);
      assert LeafForest(n)[..n - 1] == LeafForest(n - 1);
      assert w[..n][..n - 1] == w[..n - 1];
    }
  }

  /** Measures that differ on one leaf. */
  lemma {:induction false} ScoreBut(n: nat, f: Tree -> nat, g: Tree -> nat, s: nat)
    requires forall i: nat :: i < n && i != s ==> f(Leaf(i)) == g(Leaf(i))
    ensures Score(LeafForest(n), f) + (if s < n then g(Leaf(s)) else 0)
        == Score(LeafForest(n), g) + (if s < n then f(Leaf(s)) else 0)
  {
    if n > 0 {
      ScoreBut(n - 1, f, g, s);
      assert LeafForest(n)[..n - 1] == LeafForest(n - 1);
    }
  }

  lemma {:induction false} LightBut(hs: seq<nat>, rest: seq<nat>, s: nat)
    requires hs == rest + [s] && s !in rest
    ensures forall i: nat :: i != s ==> (Light(Leaf(i), hs) <==> Light(Leaf(i), rest))
    ensures !Light(Leaf(s), hs) && Light(Leaf(s), rest)
  {
  }

  lemma {:induction false} ScoreHeavy(w: seq<nat>, hs: seq<nat>)
    requires (forall i :: 0 <= i < |hs| ==> hs[i] < |w|) && forall i, j :: 0 <= i < j < |hs| ==> hs[i] != hs[j]
    ensures Score(LeafForest(|w|), OneIf(hs)) + |hs| == |w| && Score(LeafForest(|w|), LeavesIf(hs)) + |hs| == |w|
    ensures Score(LeafForest(|w|), WeightIf(hs, w)) + SumAt(w, hs) == Sum(w)
  {
    hide Light, Score;
    var n := |w|;
    if hs == [] {
      ScoreAll(n, w);
      assert w[..n] == w;
    } else {
      var k := |hs| - 1;
      var rest, s := hs[..k], hs[k];
      ScoreHeavy(w, rest);
      assert hs == rest + [s] && s !in rest;
      LightBut(hs, rest, s);
      ScoreBut(n, OneIf(hs), OneIf(rest), s);
      ScoreBut(n, LeavesIf(hs), LeavesIf(rest), s);
      ScoreBut(n, WeightIf(hs, w), WeightIf(rest, w), s);
    }
  }

  /** Symbols each heavier than all lighter ones together but the one before it lie above the rest of
      the tree, one above the other. */
  lemma {:induction false} DeepTree(w: seq<nat>, hs: seq<nat>, up: seq<nat>, d: nat)
    requires (forall i, j :: 0 <= i < j < |hs| ==> hs[i] != hs[j]) && Growing(w, hs, up)
    requires (forall i :: 0 <= i < |hs| ==> hs[i] < |w|) && SumAt(w, hs) + up[0] >= Sum(w)
    requires (forall l :: 0 <= l < |hs| ==> up[0] < w[hs[l]]) && |w| - |hs| > Pow2(d)
    ensures w != [] && Height(HuffmanTree(w)) >= d + 1 + |hs|
  {
    hide Growing, Score;
    GrowingInside(w, hs, up);
    ScoreHeavy(w, hs);
    var h := LeafForest(|w|);
    assert Sorted2(h, w, hs, up[0]);
    Pow2Positive(d);
    var h', a := LightsJoin(h, w, hs, up[0]);
    LeavesAtMost(h'[a]);
    if Height(h'[a]) <= d { Pow2Mono(Height(h'[a]), d); }
    forall i | 0 <= i < |h'| && i != a ensures HeavyFrom(h'[i], hs, 0) { assert !Light(h'[i], hs); }
    ChainHeight(h', w, hs, up, a, 0);
  }

  lemma {:induction false} Pow2Positive(d: nat)
    ensures Pow2(d) >= 1
  {
  }

  lemma {:induction false} GrowingInside(w: seq<nat>, hs: seq<nat>, up: seq<nat>)
    requires Growing(w, hs, up)
    ensures |up| == |hs| + 1 && forall i :: 0 <= i < |hs| ==> hs[i] < |w|
  {
  }

  // --------------------------------------------------------- from bounds on the weights

  /** Lower bounds that grow fast enough to make up for `slack` of weight unaccounted for. */
  predicate Steep(lo: seq<nat>, slack: nat)
  {
    && (lo != [] ==> slack < lo[0])
    && forall m :: 1 <= m < |lo| ==> slack + Sum(lo[..m - 1]) < lo[m] && lo[m - 1] + slack < lo[m]
  }

  lemma {:induction false} SumStep(f: seq<nat>, n: nat)
    requires n < |f|
    ensures Sum(f[..n + 1]) == Sum(f[..n]) + f[n]
  {
    assert f[..n + 1][..n] == f[..n];
  }

  lemma {:induction false} SumAtStep(w: seq<nat>, hs: seq<nat>, n: nat)
    requires n < |hs| && forall i :: 0 <= i < |hs| ==> hs[i] < |w|
    ensures SumAt(w, hs[..n + 1]) == SumAt(w, hs[..n]) + w[hs[n]]
  {
    assert hs[..n + 1][..n] == hs[..n];
  }

  lemma {:induction false} SumGrows(f: seq<nat>, l: nat, n: nat)
    requires l <= n <= |f|
    ensures Sum(f[..l]) <= Sum(f[..n])
    decreases n
  {
    if l < n { SumStep(f, n - 1); SumGrows(f, l, n - 1); }
  }

  /** What lies between two places weighs at least its bounds. */
  lemma {:induction false} AtLeast(w: seq<nat>, hs: seq<nat>, lo: seq<nat>, l: nat, n: nat)
    requires (forall i :: 0 <= i < |hs| ==> hs[i] < |w|) && |lo| == |hs|
    requires (forall i :: 0 <= i < |hs| ==> lo[i] <= w[hs[i]]) && l <= n <= |hs|
    ensures SumAt(w, hs[..n]) + Sum(lo[..l]) >= SumAt(w, hs[..l]) + Sum(lo[..n])
    decreases n
  {
    if l < n {
      AtLeast(w, hs, lo, l, n - 1);
      SumStep(lo, n - 1);
      SumAtStep(w, hs, n - 1);
    }
  }

  lemma {:induction false} LoMono(lo: seq<nat>, slack: nat, l: nat, m: nat)
    requires Steep(lo, slack) && l < m < |lo|
    ensures lo[l] + slack < lo[m] && slack < lo[l]
    decreases m
  {
    if l + 1 < m { LoMono(lo, slack, l, m - 1); }
    else if l > 0 { LoMono(lo, slack, l - 1, l); }
  }

  /** The listed symbols weigh at least `lo`, and everything at most `slack` more than that. */
  lemma {:induction false} SteepDeep(w: seq<nat>, hs: seq<nat>, lo: seq<nat>, slack: nat, d: nat)
    requires (forall i :: 0 <= i < |hs| ==> hs[i] < |w|) && (forall i, j :: 0 <= i < j < |hs| ==> hs[i] != hs[j])
    requires |lo| == |hs| && (forall i :: 0 <= i < |hs| ==> lo[i] <= w[hs[i]]) && Sum(w) <= Sum(lo) + slack
    requires Steep(lo, slack)
    requires |w| - |hs| > Pow2(d)
    ensures w != [] && Height(HuffmanTree(w)) >= d + 1 + |hs|
  {
    hide Score, Sum, SumAt, Steep, HuffmanTree;
    var n := |hs|;
    ScoreHeavy(w, hs);
    var up0 := Sum(w) - SumAt(w, hs);
    var up := seq(n + 1, k requires 0 <= k <= n => up0 + SumAt(w, hs[..k]));
    assert hs[..n] == hs && lo[..n] == lo && hs[..0] == [] && lo[..0] == [];
    SumNone(w);
    forall l | 0 <= l < n
      ensures up[l] + w[hs[l]] <= up[l + 1] && up[l] <= slack + Sum(lo[..l]) && w[hs[l]] <= lo[l] + slack
          && up[0] < w[hs[l]] {
      SumAtStep(w, hs, l);
      SumStep(lo, l);
      AtLeast(w, hs, lo, l, n);
      AtLeast(w, hs, lo, l + 1, n);
      AtLeast(w, hs, lo, 0, l);
      AtLeast(w, hs, lo, 0, n);
      FirstLo(lo, slack, l);
    }
    forall l, m | 0 <= l < m < n ensures up[l] < w[hs[m]] && w[hs[l]] < w[hs[m]] {
      LoMono(lo, slack, l, m);
      SumGrows(lo, l, m - 1);
      SteepAt(lo, slack, m);
    }
    DeepTree(w, hs, up, d);
  }

  lemma {:induction false} SumNone(w: seq<nat>)
    ensures Sum([]) == 0 && SumAt(w, []) == 0
  {
  }

  lemma {:induction false} SteepAt(lo: seq<nat>, slack: nat, m: nat)
    requires Steep(lo, slack) && 1 <= m < |lo|
    ensures slack + Sum(lo[..m - 1]) < lo[m]
  {
  }

  lemma {:induction false} FirstLo(lo: seq<nat>, slack: nat, l: nat)
    requires Steep(lo, slack) && l < |lo|
    ensures slack < lo[l]
  {
    if l > 0 { LoMono(lo, slack, 0, l); }
  }
}
