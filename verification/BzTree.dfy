/** Huffman trees as `mk_lengths` builds them: by merging the two lightest, lowest index first. */
module BzTree {
  import opened Bits

  datatype Tree = Leaf(sym: nat) | Node(left: Tree, right: Tree)

  function Height(t: Tree): nat
  {
    match t
    case Leaf(_) => 0
    case Node(l, r) => 1 + if Height(l) > Height(r) then Height(l) else Height(r)
  }

  function LeafCount(t: Tree): (n: nat)
    ensures n >= 1
  {
    match t
    case Leaf(_) => 1
    case Node(l, r) => LeafCount(l) + LeafCount(r)
  }

  /** How often symbol `s` is a leaf of `t`. */
  function Occurs(t: Tree, s: nat): nat
  {
    match t
    case Leaf(x) => if x == s then 1 else 0
    case Node(l, r) => Occurs(l, s) + Occurs(r, s)
  }

  /** The sum of `f` over the leaves of `t`; leaves outside `f` count nothing. */
  function SumOver(t: Tree, f: seq<nat>): nat
  {
    match t
    case Leaf(x) => if x < |f| then f[x] else 0
    case Node(l, r) => SumOver(l, f) + SumOver(r, f)
  }

  function Sum(f: seq<nat>): nat
  {
    if f == [] then 0 else Sum(f[..|f| - 1]) + f[|f| - 1]
  }

  // ------------------------------------------------- sums over a tree and over the alphabet

  /** The sum of `f` over the first `n` symbols, each taken as often as it is a leaf of `t`. */
  function Weighted(t: Tree, f: seq<nat>, n: nat): nat
    requires n <= |f|
  {
    if n == 0 then 0 else Weighted(t, f, n - 1) + Occurs(t, n - 1) * f[n - 1]
  }

  lemma {:induction false} Distribute(a: nat, b: nat, x: nat)
    ensures (a + b) * x == a * x + b * x
  {
  }

  lemma {:induction false} WeightedNode(l: Tree, r: Tree, f: seq<nat>, n: nat)
    requires n <= |f|
    ensures Weighted(Node(l, r), f, n) == Weighted(l, f, n) + Weighted(r, f, n)
  {
    if n > 0 {
      WeightedNode(l, r, f, n - 1);
      Distribute(Occurs(l, n - 1), Occurs(r, n - 1), f[n - 1]);
    }
  }

  lemma {:induction false} WeightedLeaf(s: nat, f: seq<nat>, n: nat)
    requires n <= |f|
    ensures Weighted(Leaf(s), f, n) == if s < n then f[s] else 0
  {
    if n > 0 {
      WeightedLeaf(s, f, n - 1);
      assert 0 * f[n - 1] == 0 && 1 * f[n - 1] == f[n - 1];
    }
  }

  lemma {:induction false} SumOverIsWeighted(t: Tree, f: seq<nat>)
    ensures SumOver(t, f) == Weighted(t, f, |f|)
  {
    match t
    case Leaf(s) => WeightedLeaf(s, f, |f|);
    case Node(l, r) =>
      SumOverIsWeighted(l, f);
      SumOverIsWeighted(r, f);
      WeightedNode(l, r, f, |f|);
  }

  /** Every symbol below `n` is a leaf exactly once, and nothing else is. */
  ghost predicate Covers(t: Tree, n: nat)
  {
    forall s: nat :: Occurs(t, s) == if s < n then 1 else 0
  }

  lemma {:induction false} WeightedCover(t: Tree, f: seq<nat>, n: nat)
    requires n <= |f| && Covers(t, |f|)
    ensures Weighted(t, f, n) == Sum(f[..n])
  {
    if n > 0 {
      WeightedCover(t, f, n - 1);
      assert f[..n][..n - 1] == f[..n - 1];
      assert Occurs(t, n - 1) == 1;
      assert 1 * f[n - 1] == f[n - 1];
    }
  }

  lemma {:induction false} SumOverCover(t: Tree, f: seq<nat>)
    requires Covers(t, |f|)
    ensures SumOver(t, f) == Sum(f)
  {
    SumOverIsWeighted(t, f);
    WeightedCover(t, f, |f|);
    assert f[..|f|] == f;
  }

  // ----------------------------------------------------------------------- depths

  /** Every leaf of `t`, whose root lies at depth `d`, has its depth recorded in `dep`. */
  ghost predicate HasDepths(t: Tree, d: nat, dep: seq<nat>)
  {
    match t
    case Leaf(s) => s < |dep| && dep[s] == d
    case Node(l, r) => HasDepths(l, d + 1, dep) && HasDepths(r, d + 1, dep)
  }

  /** `acc` with the depth of every leaf of `t` written in. */
  function Depths(t: Tree, d: nat, acc: seq<nat>): (dep: seq<nat>)
    ensures |dep| == |acc|
    decreases t
  {
    match t
    case Leaf(s) => if s < |acc| then acc[s := d] else acc
    case Node(l, r) => Depths(r, d + 1, Depths(l, d + 1, acc))
  }

  lemma {:induction false} DepthsElsewhere(t: Tree, d: nat, acc: seq<nat>, s: nat)
    requires s < |acc| && Occurs(t, s) == 0
    ensures Depths(t, d, acc)[s] == acc[s]
    decreases t
  {
    match t
    case Leaf(_) =>
    case Node(l, r) =>
      DepthsElsewhere(l, d + 1, acc, s);
      DepthsElsewhere(r, d + 1, Depths(l, d + 1, acc), s);
  }

  lemma {:induction false} HasDepthsFrame(t: Tree, d: nat, a: seq<nat>, b: seq<nat>)
    requires HasDepths(t, d, a) && |a| == |b|
    requires forall s :: 0 <= s < |a| && Occurs(t, s) > 0 ==> a[s] == b[s]
    ensures HasDepths(t, d, b)
    decreases t
  {
    match t
    case Leaf(s) => assert Occurs(t, s) == 1;
    case Node(l, r) =>
      HasDepthsFrame(l, d + 1, a, b);
      HasDepthsFrame(r, d + 1, a, b);
  }

  lemma {:induction false} DepthsRecorded(t: Tree, d: nat, acc: seq<nat>)
    requires forall s: nat :: Occurs(t, s) <= 1
    requires forall s: nat :: Occurs(t, s) > 0 ==> s < |acc|
    ensures HasDepths(t, d, Depths(t, d, acc))
    decreases t
  {
    match t
    case Leaf(s) => assert Occurs(t, s) == 1;
    case Node(l, r) =>
      assert forall s: nat :: Occurs(t, s) == Occurs(l, s) + Occurs(r, s);
      var mid := Depths(l, d + 1, acc);
      DepthsRecorded(l, d + 1, acc);
      DepthsRecorded(r, d + 1, mid);
      var dep := Depths(r, d + 1, mid);
      forall s | 0 <= s < |acc| && Occurs(l, s) > 0 ensures mid[s] == dep[s] {
        DepthsElsewhere(r, d + 1, mid, s);
      }
      HasDepthsFrame(l, d + 1, mid, dep);
  }

  lemma {:induction false} DepthsBounded(t: Tree, d: nat, dep: seq<nat>, s: nat)
    requires HasDepths(t, d, dep) && Occurs(t, s) > 0
    ensures s < |dep| && d <= dep[s] <= d + Height(t)
    ensures t.Node? ==> d < dep[s]
    decreases t
  {
    match t
    case Leaf(_) =>
    case Node(l, r) =>
      if Occurs(l, s) > 0 {
        DepthsBounded(l, d + 1, dep, s);
      } else {
        DepthsBounded(r, d + 1, dep, s);
      }
  }

  /** Some leaf lies at the full height. */
  lemma {:induction false} DeepestLeaf(t: Tree, d: nat, dep: seq<nat>) returns (s: nat)
    requires HasDepths(t, d, dep)
    ensures Occurs(t, s) > 0 && s < |dep| && dep[s] == d + Height(t)
    decreases t
  {
    match t
    case Leaf(x) => s := x;
    case Node(l, r) =>
      if Height(l) > Height(r) {
        s := DeepestLeaf(l, d + 1, dep);
      } else {
        s := DeepestLeaf(r, d + 1, dep);
      }
  }

  function Powers(h: nat, dep: seq<nat>): (f: seq<nat>)
    requires forall s :: 0 <= s < |dep| ==> dep[s] <= h
    ensures |f| == |dep|
    ensures forall s :: 0 <= s < |dep| ==> f[s] == Pow2(h - dep[s])
  {
    seq(|dep|, s requires 0 <= s < |dep| => Pow2(h - dep[s]))
  }

  /** A full binary tree meets Kraft's inequality with equality. */
  lemma {:induction false} TreeKraft(t: Tree, d: nat, dep: seq<nat>, h: nat)
    requires HasDepths(t, d, dep) && d + Height(t) <= h
    requires forall s :: 0 <= s < |dep| ==> dep[s] <= h
    ensures SumOver(t, Powers(h, dep)) == Pow2(h - d)
    decreases t
  {
    match t
    case Leaf(_) =>
    case Node(l, r) =>
      TreeKraft(l, d + 1, dep, h);
      TreeKraft(r, d + 1, dep, h);
  }

  // -------------------------------------------------------------- merging a forest

  /** The first index of least weight. */
  function MinIndex(h: seq<Tree>, w: seq<nat>): (a: nat)
    requires h != []
    ensures a < |h|
    ensures forall i :: 0 <= i < |h| ==> SumOver(h[a], w) <= SumOver(h[i], w)
    ensures forall i :: 0 <= i < a ==> SumOver(h[a], w) < SumOver(h[i], w)
  {
    var n := |h| - 1;
    if n == 0 then 0
    else
      var a := MinIndex(h[..n], w);
      assert forall i :: 0 <= i < n ==> h[..n][i] == h[i];
      if SumOver(h[n], w) < SumOver(h[a], w) then n else a
  }

  /** `heap[a] = heap[--nh]`. */
  function RemoveAt(h: seq<Tree>, a: nat): (r: seq<Tree>)
    requires a < |h|
    ensures |r| == |h| - 1
  {
    h[a := h[|h| - 1]][..|h| - 1]
  }

  function Merge(h: seq<Tree>, w: seq<nat>): (r: seq<Tree>)
    requires |h| >= 2
    ensures |r| == |h| - 1
  {
    var a := MinIndex(h, w);
    var h1 := RemoveAt(h, a);
    var b := MinIndex(h1, w);
    RemoveAt(h1, b) + [Node(h[a], h1[b])]
  }

  function Build(h: seq<Tree>, w: seq<nat>): Tree
    requires h != []
    decreases |h|
  {
    if |h| == 1 then h[0] else Build(Merge(h, w), w)
  }

  function LeafForest(n: nat): (h: seq<Tree>)
    ensures |h| == n && forall i :: 0 <= i < n ==> h[i] == Leaf(i)
  {
    seq(n, i requires 0 <= i => Leaf(i))
  }

  /** The tree for weights `w`. */
  function HuffmanTree(w: seq<nat>): Tree
    requires w != []
  {
    Build(LeafForest(|w|), w)
  }

  // ------------------------------------------------------------- what merging conserves

  function ForestOccurs(h: seq<Tree>, s: nat): nat
  {
    if h == [] then 0 else ForestOccurs(h[..|h| - 1], s) + Occurs(h[|h| - 1], s)
  }

  lemma {:induction false} ForestUpdate(h: seq<Tree>, a: nat, t: Tree, s: nat)
    requires a < |h|
    ensures ForestOccurs(h[a := t], s) + Occurs(h[a], s) == ForestOccurs(h, s) + Occurs(t, s)
  {
    var n := |h| - 1;
    if a < n {
      ForestUpdate(h[..n], a, t, s);
      assert h[a := t][..n] == h[..n][a := t];
    } else {
      assert h[a := t][..n] == h[..n];
    }
  }

  lemma {:induction false} RemoveOccurs(h: seq<Tree>, a: nat, s: nat)
    requires a < |h|
    ensures ForestOccurs(RemoveAt(h, a), s) + Occurs(h[a], s) == ForestOccurs(h, s)
  {
    var n := |h| - 1;
    if a < n {
      ForestUpdate(h[..n], a, h[n], s);
      assert RemoveAt(h, a) == h[..n][a := h[n]];
    } else {
      assert RemoveAt(h, a) == h[..n];
    }
  }

  lemma {:induction false} MergeOccurs(h: seq<Tree>, w: seq<nat>, s: nat)
    requires |h| >= 2
    ensures ForestOccurs(Merge(h, w), s) == ForestOccurs(h, s)
  {
    var a := MinIndex(h, w);
    var h1 := RemoveAt(h, a);
    var b := MinIndex(h1, w);
    RemoveOccurs(h, a, s);
    RemoveOccurs(h1, b, s);
    assert Merge(h, w)[..|h| - 2] == RemoveAt(h1, b);
  }

  lemma {:induction false} BuildOccurs(h: seq<Tree>, w: seq<nat>, s: nat)
    requires h != []
    ensures Occurs(Build(h, w), s) == ForestOccurs(h, s)
    decreases |h|
  {
    if |h| == 1 {
      assert h[..0] == [];
    } else {
      MergeOccurs(h, w, s);
      BuildOccurs(Merge(h, w), w, s);
    }
  }

  lemma {:induction false} LeafForestOccurs(n: nat, s: nat)
    ensures ForestOccurs(LeafForest(n), s) == if s < n then 1 else 0
  {
    if n > 0 {
      LeafForestOccurs(n - 1, s);
      assert LeafForest(n)[..n - 1] == LeafForest(n - 1);
    }
  }

  /** The finished tree has every symbol as a leaf exactly once. */
  lemma {:induction false} HuffmanCovers(w: seq<nat>)
    requires w != []
    ensures Covers(HuffmanTree(w), |w|)
  {
    forall s: nat ensures Occurs(HuffmanTree(w), s) == if s < |w| then 1 else 0 {
      BuildOccurs(LeafForest(|w|), w, s);
      LeafForestOccurs(|w|, s);
    }
  }

  lemma {:induction false} BuildNode(h: seq<Tree>, w: seq<nat>)
    requires |h| >= 2
    ensures Build(h, w).Node?
    decreases |h|
  {
    if |h| > 2 { BuildNode(Merge(h, w), w); }
  }

  // ------------------------------------------------------- heights and Fibonacci weights

  /** Consecutive Fibonacci numbers Fib(n), Fib(n+1). */
  function FibPair(n: nat): (nat, nat)
  {
    if n == 0 then (0, 1) else var (a, b) := FibPair(n - 1); (b, a + b)
  }

  function Fib(n: nat): nat
  {
    FibPair(n).0
  }

  lemma {:induction false} FibStep(n: nat)
    ensures Fib(n + 2) == Fib(n + 1) + Fib(n)
  {
    var (a, b) := FibPair(n);
    assert FibPair(n + 1) == (b, a + b);
  }

  lemma {:induction false} FibMono(n: nat)
    ensures Fib(n) <= Fib(n + 1)
  {
    if n > 0 { FibStep(n - 1); }
  }

  /** A tree of height k weighs at least Fib(k+2), and everything still waiting to be merged weighs
      at least `low`, which is at least Fib(k+1): it was no lighter than what went into that tree. */
  ghost predicate FibTree(t: Tree, w: seq<nat>, low: nat)
  {
    SumOver(t, w) >= Fib(Height(t) + 2) && Fib(Height(t) + 1) <= low <= SumOver(t, w)
  }

  ghost predicate FibForest(h: seq<Tree>, w: seq<nat>, low: nat)
  {
    forall i :: 0 <= i < |h| ==> FibTree(h[i], w, low)
  }

  lemma {:induction false} RemoveElement(h: seq<Tree>, a: nat, i: nat) returns (k: nat)
    requires a < |h| && i < |h| - 1
    ensures k < |h| && RemoveAt(h, a)[i] == h[k]
  {
    k := if i == a then |h| - 1 else i;
  }

  lemma {:induction false} RemoveKeepsFib(h: seq<Tree>, a: nat, w: seq<nat>, low: nat)
    requires a < |h| && FibForest(h, w, low)
    ensures FibForest(RemoveAt(h, a), w, low)
  {
    var r := RemoveAt(h, a);
    forall i | 0 <= i < |r| ensures FibTree(r[i], w, low) {
      var k := RemoveElement(h, a, i);
    }
  }

  lemma {:induction false} MergedNumbers(wx: nat, wy: nat, hx: nat, hy: nat, low: nat, h: nat)
    requires wx <= wy && h == 1 + if hx > hy then hx else hy
    requires wx >= Fib(hx + 2) && wy >= Fib(hy + 2) && Fib(hy + 1) <= low <= wx
    ensures wx + wy >= Fib(h + 2) && wy >= Fib(h + 1)
  {
    FibStep(h);
    FibMono(h);
  }

  /** Merging the lighter `x` with `y` gives a tree heavy enough for its height. */
  lemma {:induction false} MergedWeight(x: Tree, y: Tree, w: seq<nat>, low: nat)
    requires SumOver(x, w) <= SumOver(y, w) && FibTree(x, w, low) && FibTree(y, w, low)
    ensures FibTree(Node(x, y), w, SumOver(y, w))
  {
    MergedNumbers(SumOver(x, w), SumOver(y, w), Height(x), Height(y), low, Height(Node(x, y)));
  }

  lemma {:induction false} RemainingWeight(h1: seq<Tree>, b: nat, j: nat, w: seq<nat>, low: nat)
    requires b < |h1| && j < |h1| - 1 && FibForest(h1, w, low)
    requires forall i :: 0 <= i < |h1| ==> SumOver(h1[b], w) <= SumOver(h1[i], w)
    ensures FibTree(RemoveAt(h1, b)[j], w, SumOver(h1[b], w))
  {
    var k := RemoveElement(h1, b, j);
    assert FibTree(h1[k], w, low) && FibTree(h1[b], w, low);
  }

  /** One round of merging keeps the invariant, with the heavier of the two merged as new threshold. */
  lemma {:induction false} MergeKeepsFib(h: seq<Tree>, w: seq<nat>, low: nat) returns (low': nat)
    requires |h| >= 2 && FibForest(h, w, low)
    ensures FibForest(Merge(h, w), w, low')
  {
    var a := MinIndex(h, w);
    var h1 := RemoveAt(h, a);
    var b := MinIndex(h1, w);
    RemoveKeepsFib(h, a, w, low);
    low' := SumOver(h1[b], w);
    var kb := RemoveElement(h, a, b);
    MergedWeight(h[a], h1[b], w, low);
    forall j | 0 <= j < |h| - 2 ensures FibTree(RemoveAt(h1, b)[j], w, low') {
      RemainingWeight(h1, b, j, w, low);
    }
  }

  lemma {:induction false} BuildKeepsFib(h: seq<Tree>, w: seq<nat>, low: nat)
    requires h != [] && FibForest(h, w, low)
    ensures SumOver(Build(h, w), w) >= Fib(Height(Build(h, w)) + 2)
    decreases |h|
  {
    hide Fib, FibPair, Merge, SumOver, Height;
    if |h| == 1 {
      assert FibTree(h[0], w, low);
    } else {
      var low' := MergeKeepsFib(h, w, low);
      BuildKeepsFib(Merge(h, w), w, low');
    }
  }

  lemma {:induction false} LeafIsFib(i: nat, w: seq<nat>)
    requires i < |w| && w[i] >= 1
    ensures FibTree(Leaf(i), w, 1)
  {
    assert Fib(2) == 1 && Fib(1) == 1;
  }

  lemma {:induction false} LeafForestIsFib(w: seq<nat>)
    requires forall i :: 0 <= i < |w| ==> w[i] >= 1
    ensures FibForest(LeafForest(|w|), w, 1)
  {
    forall i | 0 <= i < |w| ensures FibTree(LeafForest(|w|)[i], w, 1) {
      LeafIsFib(i, w);
    }
  }

  lemma {:induction false} HuffmanWeight(w: seq<nat>)
    requires w != []
    ensures SumOver(HuffmanTree(w), w) == Sum(w)
  {
    HuffmanCovers(w);
    SumOverCover(HuffmanTree(w), w);
  }

  /** A Huffman tree of height k over positive weights needs total weight at least Fib(k+2). */
  lemma {:induction false} HuffmanHeight(w: seq<nat>)
    requires w != [] && forall i :: 0 <= i < |w| ==> w[i] >= 1
    ensures Sum(w) >= Fib(Height(HuffmanTree(w)) + 2)
  {
    hide Build, Fib, SumOver, Sum, Height, LeafForest;
    LeafForestIsFib(w);
    BuildKeepsFib(LeafForest(|w|), w, 1);
    HuffmanWeight(w);
  }
}
