/** In a Huffman tree a lighter node never lies higher than a heavier one, so a leaf of least weight
    lies at most one level above the deepest. */
module BzLightest {
  import opened BzTree

  /** Where an element other than the `a`-th goes when the `a`-th is taken out. */
  function Kept(n: nat, a: nat, i: nat): (k: nat)
    requires a < n && i < n && i != a
    ensures k < n - 1
  {
    if i == n - 1 then a else i
  }

  lemma {:induction false} KeptIs(h: seq<Tree>, a: nat, i: nat)
    requires a < |h| && i < |h| && i != a
    ensures RemoveAt(h, a)[Kept(|h|, a, i)] == h[i]
  {
  }

  /** Where element `i` of a forest is after a merge, the merged tree being the last. */
  ghost function Place(h: seq<Tree>, w: seq<nat>, i: nat): (k: nat)
    requires |h| >= 2 && i < |h|
    ensures k < |h| - 1
  {
    var a := MinIndex(h, w);
    var h1 := RemoveAt(h, a);
    var b := MinIndex(h1, w);
    if i == a || Kept(|h|, a, i) == b then |h| - 2 else Kept(|h1|, b, Kept(|h|, a, i))
  }

  /** One of the two lightest. */
  ghost predicate Taken(h: seq<Tree>, w: seq<nat>, i: nat)
    requires |h| >= 2 && i < |h|
  {
    Place(h, w, i) == |h| - 2
  }

  /** The elements of a forest in terms of the merge. */
  lemma {:induction false} MergeIs(h: seq<Tree>, w: seq<nat>, i: nat)
    requires |h| >= 2 && i < |h|
    ensures var m := Merge(h, w); var k := Place(h, w, i); var n := m[|h| - 2];
            n.Node? && if Taken(h, w, i) then h[i] == n.left || h[i] == n.right else m[k] == h[i]
  {
    var a := MinIndex(h, w);
    var h1 := RemoveAt(h, a);
    var b := MinIndex(h1, w);
    if i != a {
      KeptIs(h, a, i);
      if Kept(|h|, a, i) != b { KeptIs(h1, b, Kept(|h|, a, i)); }
    }
  }

  /** The weights of the two that are merged, and that the rest weighs no less. */
  lemma {:induction false} MergeWeights(h: seq<Tree>, w: seq<nat>, low: nat) returns (x: nat, y: nat)
    requires |h| >= 2 && forall i :: 0 <= i < |h| ==> low <= SumOver(h[i], w)
    ensures low <= x <= y && SumOver(Merge(h, w)[|h| - 2], w) == x + y
    ensures forall i :: 0 <= i < |h| ==>
        if Taken(h, w, i) then SumOver(h[i], w) == x || SumOver(h[i], w) == y else y <= SumOver(h[i], w)
    ensures forall i :: 0 <= i < |h| - 1 ==> y <= SumOver(Merge(h, w)[i], w)
  {
    var a := MinIndex(h, w);
    var h1 := RemoveAt(h, a);
    var b := MinIndex(h1, w);
    x, y := SumOver(h[a], w), SumOver(h1[b], w);
    var c := RemoveElement(h, a, b);
    forall i | 0 <= i < |h|
      ensures if Taken(h, w, i) then SumOver(h[i], w) == x || SumOver(h[i], w) == y else y <= SumOver(h[i], w) {
      if i != a { KeptIs(h, a, i); }
    }
    var m := Merge(h, w);
    forall i | 0 <= i < |h| - 1 ensures y <= SumOver(m[i], w) {
      if i < |h| - 2 {
        var k := RemoveElement(h1, b, i);
        assert m[i] == h1[k];
      }
    }
  }

  // ------------------------------------------------------------------------ depths

  /** The depth of element `i` of the forest in the finished tree. */
  ghost function DepthOf(h: seq<Tree>, w: seq<nat>, i: nat): nat
    requires i < |h|
    decreases |h|
  {
    if |h| == 1 then 0
    else DepthOf(Merge(h, w), w, Place(h, w, i)) + if Taken(h, w, i) then 1 else 0
  }

  /** The nodes of the finished tree that are not inside an element, by weight and depth. */
  ghost function Upper(h: seq<Tree>, w: seq<nat>): set<(nat, nat)>
    requires h != []
    decreases |h|
  {
    if |h| == 1 then {(SumOver(h[0], w), 0)}
    else Upper(Merge(h, w), w) + set i | 0 <= i < |h| && Taken(h, w, i) :: (SumOver(h[i], w), DepthOf(h, w, i))
  }

  lemma {:induction false} DepthUnfold(h: seq<Tree>, w: seq<nat>, i: nat)
    requires |h| >= 2 && i < |h|
    ensures DepthOf(h, w, i) == if Taken(h, w, i) then DepthOf(Merge(h, w), w, |h| - 2) + 1
        else DepthOf(Merge(h, w), w, Place(h, w, i))
  {
    hide Place, Merge;
  }

  /** A node of the upper part is one of the two lightest, or in the upper part after the merge. */
  lemma {:induction false} UpperUnfold(h: seq<Tree>, w: seq<nat>)
    requires |h| >= 2
    ensures forall i :: 0 <= i < |h| && Taken(h, w, i) ==> (SumOver(h[i], w), DepthOf(h, w, i)) in Upper(h, w)
    ensures forall p :: p in Upper(Merge(h, w), w) ==> p in Upper(h, w)
  {
    hide Place, Merge, DepthOf, SumOver, Taken;
  }

  lemma {:induction false} UpperCase(h: seq<Tree>, w: seq<nat>, v: nat, d: nat) returns (i: nat)
    requires |h| >= 2 && (v, d) in Upper(h, w) && (v, d) !in Upper(Merge(h, w), w)
    ensures i < |h| && Taken(h, w, i) && v == SumOver(h[i], w) && d == DepthOf(Merge(h, w), w, |h| - 2) + 1
  {
    hide Place, Merge, DepthOf, SumOver, Taken;
    i :| 0 <= i < |h| && Taken(h, w, i) && (v, d) == (SumOver(h[i], w), DepthOf(h, w, i));
    DepthUnfold(h, w, i);
  }

  lemma {:induction false} InUpper(h: seq<Tree>, w: seq<nat>, i: nat)
    requires i < |h|
    ensures (SumOver(h[i], w), DepthOf(h, w, i)) in Upper(h, w)
    decreases |h|
  {
    hide Place, Merge, SumOver, Taken;
    if |h| > 1 {
      UpperUnfold(h, w);
      DepthUnfold(h, w, i);
      if !Taken(h, w, i) {
        MergeIs(h, w, i);
        InUpper(Merge(h, w), w, Place(h, w, i));
      }
    }
  }

  /** Every node but the root has a parent, heavier by at least what everything weighs. */
  lemma {:induction false} Parent(h: seq<Tree>, w: seq<nat>, low: nat, v: nat, d: nat) returns (u: nat)
    requires h != [] && (v, d) in Upper(h, w) && d > 0 && forall i :: 0 <= i < |h| ==> low <= SumOver(h[i], w)
    ensures (u, d - 1) in Upper(h, w) && u >= v + low
    decreases |h|
  {
    hide Place, Merge, SumOver, Taken, DepthOf, Upper;
    if |h| == 1 { OneUpper(h, w, v, d); assert false; }
    var m := Merge(h, w);
    var x, y := MergeWeights(h, w, low);
    UpperUnfold(h, w);
    if (v, d) in Upper(m, w) {
      u := Parent(m, w, low, v, d);
    } else {
      var i := UpperCase(h, w, v, d);
      u := SumOver(m[|h| - 2], w);
      InUpper(m, w, |h| - 2);
    }
  }

  lemma {:induction false} OneUpper(h: seq<Tree>, w: seq<nat>, v: nat, d: nat)
    requires |h| == 1 && (v, d) in Upper(h, w)
    ensures d == 0 && v == SumOver(h[0], w)
  {
  }

  /** What is lighter lies no higher. */
  lemma {:induction false} LighterDeeper(h: seq<Tree>, w: seq<nat>, i: nat, v: nat, d: nat)
    requires i < |h| && (v, d) in Upper(h, w) && SumOver(h[i], w) < v
    ensures DepthOf(h, w, i) >= d
    decreases |h|
  {
    hide Place, Merge, SumOver, Taken, DepthOf, Upper;
    if |h| == 1 {
      OneUpper(h, w, v, d);
    } else {
      var m := Merge(h, w);
      var x, y := MergeWeights(h, w, 0);
      MergeIs(h, w, i);
      DepthUnfold(h, w, i);
      if (v, d) !in Upper(m, w) {
        var k := UpperCase(h, w, v, d);
      } else if !Taken(h, w, i) {
        LighterDeeper(m, w, Place(h, w, i), v, d);
      } else if d > 0 {
        var u := Parent(m, w, y, v, d);
        LighterDeeper(m, w, |h| - 2, u, d - 1);
      }
    }
  }

  /** These are the depths in the tree. */
  lemma {:induction false} DepthsAre(h: seq<Tree>, w: seq<nat>, dep: seq<nat>, i: nat)
    requires i < |h| && HasDepths(Build(h, w), 0, dep)
    ensures HasDepths(h[i], DepthOf(h, w, i), dep)
    decreases |h|
  {
    hide Place, Merge, SumOver;
    if |h| > 1 {
      MergeIs(h, w, i);
      DepthUnfold(h, w, i);
      DepthsAre(Merge(h, w), w, dep, Place(h, w, i));
    }
  }

  /** A leaf of weight one, where everything weighs at least that, is at most one level above the
      deepest. */
  lemma {:induction false} LightestDeep(w: seq<nat>, dep: seq<nat>, s: nat)
    requires |w| >= 2 && (forall i :: 0 <= i < |w| ==> w[i] >= 1) && s < |w| && w[s] == 1
    requires HasDepths(HuffmanTree(w), 0, dep)
    ensures s < |dep| && dep[s] + 1 >= Height(HuffmanTree(w))
  {
    hide Upper, DepthOf, Build;
    var t, h := HuffmanTree(w), LeafForest(|w|);
    DepthsAre(h, w, dep, s);
    var z := DeepestLeaf(t, 0, dep);
    HuffmanCovers(w);
    if Height(t) > 0 {
      DepthsAre(h, w, dep, z);
      InUpper(h, w, z);
      assert forall i :: 0 <= i < |h| ==> SumOver(h[i], w) == w[i];
      var u := Parent(h, w, 1, w[z], dep[z]);
      LighterDeeper(h, w, s, u, dep[z] - 1);
    }
  }
}
