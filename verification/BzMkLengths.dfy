/** The loops of `mk_lengths`. Its local C arrays are sequences of the same fixed sizes, so every
    index below is checked against those sizes. */
module BzMkLengths {
  import opened Bits
  import opened BzTree
  import opened BzLengths

  datatype Nd = Nd(w: nat, id: nat)

  const HEAP_SIZE: nat := 520
  const STACK_SIZE: nat := 1040

  /** Children come before their parents; a negative left child marks a leaf. */
  ghost predicate Linked(lft: seq<int>, rgt: seq<int>, n: nat)
  {
    && n <= |lft| && |lft| == |rgt|
    && forall id :: 0 <= id < n ==> lft[id] < 0 || (lft[id] < id && 0 <= rgt[id] < id)
  }

  /** The tree stored under node `id`. */
  ghost function TreeAt(lft: seq<int>, rgt: seq<int>, n: nat, id: nat): Tree
    requires Linked(lft, rgt, n) && id < n
    decreases id
  {
    if lft[id] < 0 then Leaf(id)
    else Node(TreeAt(lft, rgt, n, lft[id]), TreeAt(lft, rgt, n, rgt[id]))
  }

  lemma {:induction false} TreeAtFrame(lft: seq<int>, rgt: seq<int>, n: nat, lft': seq<int>, rgt': seq<int>, n': nat,
      id: nat)
    requires Linked(lft, rgt, n) && Linked(lft', rgt', n') && id < n <= n'
    requires forall k :: 0 <= k < n ==> lft[k] == lft'[k] && rgt[k] == rgt'[k]
    ensures TreeAt(lft, rgt, n, id) == TreeAt(lft', rgt', n', id)
    decreases id
  {
    if lft[id] >= 0 {
      TreeAtFrame(lft, rgt, n, lft', rgt', n', lft[id]);
      TreeAtFrame(lft, rgt, n, lft', rgt', n', rgt[id]);
    }
  }

  /** A heap entry names a stored tree and its weight. */
  ghost predicate Entry(nd: Nd, t: Tree, lft: seq<int>, rgt: seq<int>, n: nat, w: seq<nat>)
    requires Linked(lft, rgt, n)
  {
    nd.id < n && TreeAt(lft, rgt, n, nd.id) == t && nd.w == SumOver(t, w)
  }

  /** The first `|h|` heap entries stand for the forest `h`. */
  ghost predicate Stands(heap: seq<Nd>, h: seq<Tree>, lft: seq<int>, rgt: seq<int>, n: nat, w: seq<nat>)
  {
    && Linked(lft, rgt, n) && |h| <= |heap|
    && forall i :: 0 <= i < |h| ==> Entry(heap[i], h[i], lft, rgt, n, w)
  }

  lemma {:induction false} MinIndexUnique(h: seq<Tree>, w: seq<nat>, a: nat)
    requires a < |h|
    requires forall i :: 0 <= i < |h| ==> SumOver(h[a], w) <= SumOver(h[i], w)
    requires forall i :: 0 <= i < a ==> SumOver(h[a], w) < SumOver(h[i], w)
    ensures a == MinIndex(h, w)
  {
    var m := MinIndex(h, w);
    assert SumOver(h[m], w) <= SumOver(h[a], w) <= SumOver(h[m], w);
  }

  /** Select the lightest entry, lowest index first, and close the gap with the last one. */
  method TakeLightest(heap: seq<Nd>, nh: nat, ghost h: seq<Tree>,
                      ghost lft: seq<int>, ghost rgt: seq<int>, ghost n: nat, ghost w: seq<nat>)
    returns (nd: Nd, rest: seq<Nd>)
    requires nh == |h| > 0 && Stands(heap, h, lft, rgt, n, w)
    ensures |rest| == |heap|
    ensures var a := MinIndex(h, w);
      && Entry(nd, h[a], lft, rgt, n, w)
      && Stands(rest, RemoveAt(h, a), lft, rgt, n, w)
  {
    var a := 0;
    var i := 1;
    while i < nh
      invariant 0 <= a < i <= nh
      invariant forall k :: 0 <= k < i ==> heap[a].w <= heap[k].w
      invariant forall k :: 0 <= k < a ==> heap[a].w < heap[k].w
    {
      if heap[i].w < heap[a].w { a := i; }
      i := i + 1;
    }
    forall i | 0 <= i < nh ensures heap[i].w == SumOver(h[i], w) {
      assert Entry(heap[i], h[i], lft, rgt, n, w);
    }
    MinIndexUnique(h, w, a);
    nd := heap[a];
    rest := heap[a := heap[nh - 1]];
  }

  /** One turn of the combining loop: two lightest out, their parent in. */
  method CombineTwo(heap: seq<Nd>, nh: nat, lft: seq<int>, rgt: seq<int>, nodes: nat,
                    ghost h: seq<Tree>, ghost w: seq<nat>)
    returns (heap': seq<Nd>, lft': seq<int>, rgt': seq<int>, nodes': nat, ghost h': seq<Tree>)
    requires 2 <= nh == |h| && nodes < |lft| && Stands(heap, h, lft, rgt, nodes, w)
    ensures |heap'| == |heap| && |lft'| == |lft|
    ensures nodes' == nodes + 1 && h' == Merge(h, w)
    ensures Stands(heap', h', lft', rgt', nodes', w)
  {
    ghost var a := MinIndex(h, w);
    ghost var h1 := RemoveAt(h, a);
    var na, heap1 := TakeLightest(heap, nh, h, lft, rgt, nodes, w);
    ghost var b := MinIndex(h1, w);
    var nb, heap2 := TakeLightest(heap1, nh - 1, h1, lft, rgt, nodes, w);
    lft' := lft[nodes := na.id];
    rgt' := rgt[nodes := nb.id];
    heap' := heap2[nh - 2 := Nd(na.w + nb.w, nodes)];
    ParentStands(heap2, RemoveAt(h1, b), lft, rgt, nodes, w, na, nb, h[a], h1[b]);
    nodes', h' := nodes + 1, RemoveAt(h1, b) + [Node(h[a], h1[b])];
  }

  /** Recording a parent for two trees and putting it behind the forest. */
  lemma {:induction false} ParentStands(heap: seq<Nd>, h: seq<Tree>, lft: seq<int>, rgt: seq<int>, nodes: nat,
                                        w: seq<nat>, na: Nd, nb: Nd, x: Tree, y: Tree)
    requires Stands(heap, h, lft, rgt, nodes, w) && nodes < |lft| && |h| < |heap|
    requires Entry(na, x, lft, rgt, nodes, w) && Entry(nb, y, lft, rgt, nodes, w)
    ensures Stands(heap[|h| := Nd(na.w + nb.w, nodes)], h + [Node(x, y)],
                   lft[nodes := na.id], rgt[nodes := nb.id], nodes + 1, w)
  {
    var lft', rgt' := lft[nodes := na.id], rgt[nodes := nb.id];
    var heap', h' := heap[|h| := Nd(na.w + nb.w, nodes)], h + [Node(x, y)];
    assert Linked(lft', rgt', nodes + 1);
    TreeAtFrame(lft, rgt, nodes, lft', rgt', nodes + 1, na.id);
    TreeAtFrame(lft, rgt, nodes, lft', rgt', nodes + 1, nb.id);
    forall i | 0 <= i < |h'| ensures Entry(heap'[i], h'[i], lft', rgt', nodes + 1, w) {
      if i < |h| {
        assert Entry(heap[i], h[i], lft, rgt, nodes, w);
        TreeAtFrame(lft, rgt, nodes, lft', rgt', nodes + 1, heap[i].id);
      }
    }
  }

  // -------------------------------------------------------------------- the depth stack

  /** A subtree waiting on the stack, with the depth of its root. */
  datatype Item = Item(tree: Tree, depth: nat)

  ghost function Pending(st: seq<Item>): (n: nat)
    ensures n >= |st|
  {
    if st == [] then 0 else Pending(st[..|st| - 1]) + LeafCount(st[|st| - 1].tree)
  }

  /** Every waiting subtree starts at its recorded depth. */
  ghost predicate Waiting(st: seq<Item>, dep: seq<nat>)
  {
    forall i :: 0 <= i < |st| ==> HasDepths(st[i].tree, st[i].depth, dep)
  }

  ghost predicate OnStack(st: seq<Item>, s: nat)
  {
    exists i :: 0 <= i < |st| && Occurs(st[i].tree, s) > 0
  }

  /** Symbol lengths are final except below subtrees still waiting. */
  ghost predicate Settled(st: seq<Item>, dep: seq<nat>, len: seq<Byte>, maxlen: nat)
    requires 1 <= maxlen
  {
    |len| == |dep| && forall s :: 0 <= s < |dep| ==> len[s] == Clamp(dep[s], maxlen) || OnStack(st, s)
  }

  lemma {:induction false} SettleLeaf(st: seq<Item>, dep: seq<nat>, len: seq<Byte>, maxlen: nat)
    requires 1 <= maxlen < 256 && st != [] && st[|st| - 1].tree.Leaf?
    requires Waiting(st, dep) && Settled(st, dep, len, maxlen)
    ensures var id := st[|st| - 1].tree.sym; var d := st[|st| - 1].depth;
      id < |len| && Settled(st[..|st| - 1], dep, len[id := Clamp(d, maxlen)], maxlen)
  {
    var n := |st| - 1;
    var t, d := st[n].tree, st[n].depth;
    assert HasDepths(t, d, dep);
    var len' := len[t.sym := Clamp(d, maxlen)];
    forall s | 0 <= s < |dep| ensures len'[s] == Clamp(dep[s], maxlen) || OnStack(st[..n], s) {
      if s != t.sym && OnStack(st, s) {
        var i :| 0 <= i < |st| && Occurs(st[i].tree, s) > 0;
        assert st[..n][i] == st[i];
      }
    }
  }

  lemma {:induction false} SettleNode(st: seq<Item>, dep: seq<nat>, len: seq<Byte>, maxlen: nat)
    requires 1 <= maxlen < 256 && st != [] && st[|st| - 1].tree.Node?
    requires Waiting(st, dep) && Settled(st, dep, len, maxlen)
    ensures var Node(l, r) := st[|st| - 1].tree; var d := st[|st| - 1].depth;
      var st' := st[..|st| - 1] + [Item(l, d + 1), Item(r, d + 1)];
      Waiting(st', dep) && Settled(st', dep, len, maxlen) && Pending(st') == Pending(st)
  {
    var n := |st| - 1;
    var Node(l, r) := st[n].tree;
    var d := st[n].depth;
    assert HasDepths(st[n].tree, d, dep);
    var st' := st[..n] + [Item(l, d + 1), Item(r, d + 1)];
    assert st'[..n + 1][..n] == st[..n] && st'[..n + 1] == st[..n] + [Item(l, d + 1)];
    forall s | 0 <= s < |dep| ensures len[s] == Clamp(dep[s], maxlen) || OnStack(st', s) {
      if OnStack(st, s) {
        var i :| 0 <= i < |st| && Occurs(st[i].tree, s) > 0;
        if i < n {
          assert st'[i] == st[i];
        } else if Occurs(l, s) > 0 {
          assert st'[n] == Item(l, d + 1);
        } else {
          assert st'[n + 1] == Item(r, d + 1);
        }
      }
    }
  }

  ghost function Size(t: Tree): nat
  {
    match t
    case Leaf(_) => 1
    case Node(l, r) => 1 + Size(l) + Size(r)
  }

  ghost function Work(st: seq<Item>): nat
  {
    if st == [] then 0 else Work(st[..|st| - 1]) + Size(st[|st| - 1].tree)
  }

  lemma {:induction false} WorkNode(st: seq<Item>, l: Tree, r: Tree, d: nat, e: nat)
    ensures Work(st + [Item(l, d), Item(r, e)]) == Work(st) + Size(l) + Size(r)
  {
    var a := st + [Item(l, d), Item(r, e)];
    assert a[..|a| - 1] == st + [Item(l, d)];
    assert (st + [Item(l, d)])[..|st|] == st;
  }

  /** The arrays `stackn` and `stackd`, below `sp`, stand for the waiting subtrees. */
  ghost predicate StackStands(stackn: seq<nat>, stackd: seq<nat>, st: seq<Item>,
                              lft: seq<int>, rgt: seq<int>, n: nat)
  {
    && Linked(lft, rgt, n) && |stackn| == |stackd| == STACK_SIZE && |st| <= STACK_SIZE
    && forall i :: 0 <= i < |st| ==> stackn[i] < n && st[i] == Item(TreeAt(lft, rgt, n, stackn[i]), stackd[i])
  }

  /** Popping a node and pushing its two children. */
  lemma {:induction false} PushStands(stackn: seq<nat>, stackd: seq<nat>, st: seq<Item>, lft: seq<int>, rgt: seq<int>,
      n: nat)
    requires StackStands(stackn, stackd, st, lft, rgt, n) && st != []
    requires lft[stackn[|st| - 1]] >= 0 && |st| < STACK_SIZE
    ensures var sp := |st| - 1; var id := stackn[sp]; var d := stackd[sp];
      var l, r := TreeAt(lft, rgt, n, lft[id]), TreeAt(lft, rgt, n, rgt[id]);
      && st[sp] == Item(Node(l, r), d)
      && StackStands(stackn[sp := lft[id]][sp + 1 := rgt[id]], stackd[sp := d + 1][sp + 1 := d + 1],
                     st[..sp] + [Item(l, d + 1), Item(r, d + 1)], lft, rgt, n)
  {
  }

  /** `len[id] = depth`, clamped, for every leaf, by an explicit stack that cannot overflow. */
  method AssignDepths(lft: seq<int>, rgt: seq<int>, ghost n: nat, root: nat, alpha: nat, maxlen: nat,
                      ghost dep: seq<nat>) returns (len: seq<Byte>)
    requires Linked(lft, rgt, n) && root < n && 1 <= maxlen < 256
    requires |dep| == alpha && HasDepths(TreeAt(lft, rgt, n, root), 0, dep)
    requires Covers(TreeAt(lft, rgt, n, root), alpha)
    requires LeafCount(TreeAt(lft, rgt, n, root)) <= STACK_SIZE
    ensures |len| == alpha && forall s :: 0 <= s < alpha ==> len[s] == Clamp(dep[s], maxlen)
  {
    len := seq(alpha, _ => 0);
    var stackn: seq<nat> := seq(STACK_SIZE, _ => 0);
    var stackd: seq<nat> := seq(STACK_SIZE, _ => 0);
    stackn, stackd := stackn[0 := root], stackd[0 := 0];
    var sp := 1;
    ghost var t := TreeAt(lft, rgt, n, root);
    ghost var st := [Item(t, 0)];
    assert st[..0] == [];
    assert Settled(st, dep, len, maxlen) by {
      forall s | 0 <= s < alpha ensures OnStack(st, s) { assert Occurs(st[0].tree, s) == 1; }
    }
    while sp > 0
      invariant sp == |st| && StackStands(stackn, stackd, st, lft, rgt, n)
      invariant Waiting(st, dep) && Settled(st, dep, len, maxlen)
      invariant Pending(st) <= STACK_SIZE
      decreases Work(st)
    {
      sp := sp - 1;
      var id, d := stackn[sp], stackd[sp];
      ghost var prev := st;
      assert prev[sp] == Item(TreeAt(lft, rgt, n, id), d);
      if lft[id] < 0 {
        SettleLeaf(prev, dep, len, maxlen);
        len := len[id := if d < 1 then 1 else if d > maxlen then maxlen else d];
        st := prev[..sp];
      } else {
        SettleNode(prev, dep, len, maxlen);
        ghost var l, r := TreeAt(lft, rgt, n, lft[id]), TreeAt(lft, rgt, n, rgt[id]);
        st := prev[..sp] + [Item(l, d + 1), Item(r, d + 1)];
        WorkNode(prev[..sp], l, r, d + 1, d + 1);
        assert |st| <= Pending(st);
        PushStands(stackn, stackd, prev, lft, rgt, n);
        stackn, stackd := stackn[sp := lft[id]], stackd[sp := d + 1];
        sp := sp + 1;
        stackn, stackd := stackn[sp := rgt[id]], stackd[sp := d + 1];
        sp := sp + 1;
      }
    }
  }

  // ---------------------------------------------------------------------- the whole function

  ghost function Ones(n: nat): (f: seq<nat>)
    ensures |f| == n && forall i :: 0 <= i < n ==> f[i] == 1
  {
    seq(n, _ => 1)
  }

  lemma {:induction false} SumOnes(n: nat)
    ensures Sum(Ones(n)) == n
  {
    if n > 0 {
      SumOnes(n - 1);
      assert Ones(n)[..n - 1] == Ones(n - 1);
    }
  }

  lemma {:induction false} LeafCountIsSum(t: Tree, n: nat)
    requires forall s: nat :: Occurs(t, s) > 0 ==> s < n
    ensures SumOver(t, Ones(n)) == LeafCount(t)
  {
    match t
    case Leaf(x) => assert Occurs(t, x) == 1;
    case Node(l, r) =>
      assert forall s: nat :: Occurs(t, s) == Occurs(l, s) + Occurs(r, s);
      LeafCountIsSum(l, n);
      LeafCountIsSum(r, n);
  }

  lemma {:induction false} LeafCountCover(t: Tree, n: nat)
    requires Covers(t, n)
    ensures LeafCount(t) == n
  {
    LeafCountIsSum(t, n);
    SumOverCover(t, Ones(n));
    SumOnes(n);
  }

  lemma {:induction false} LeavesStand(heap: seq<Nd>, lft: seq<int>, rgt: seq<int>, w: seq<nat>)
    requires |w| <= |heap| && |w| <= |lft| == |rgt|
    requires forall i :: 0 <= i < |w| ==> heap[i] == Nd(w[i], i) && lft[i] < 0
    ensures Stands(heap, LeafForest(|w|), lft, rgt, |w|, w)
  {
  }

  /** The combining loop: the arrays end up holding the Huffman tree for the weights. */
  method BuildTree(w: seq<nat>) returns (lft: seq<int>, rgt: seq<int>, root: nat, ghost n: nat)
    requires 1 <= |w| <= 258
    ensures Linked(lft, rgt, n) && root < n
    ensures TreeAt(lft, rgt, n, root) == HuffmanTree(w)
  {
    var alpha := |w|;
    var heap := seq(HEAP_SIZE, i requires 0 <= i => if i < alpha then Nd(w[i], i) else Nd(0, 0));
    lft := seq(HEAP_SIZE, _ => -1);
    rgt := seq(HEAP_SIZE, _ => -1);
    var nh, nodes := alpha, alpha;
    ghost var h := LeafForest(alpha);
    LeavesStand(heap, lft, rgt, w);
    ghost var want := Build(h, w);
    while nh > 1
      invariant 1 <= nh == |h| && nodes + nh == 2 * alpha
      invariant |heap| == |lft| == HEAP_SIZE && Stands(heap, h, lft, rgt, nodes, w)
      invariant Build(h, w) == want
    {
      heap, lft, rgt, nodes, h := CombineTwo(heap, nh, lft, rgt, nodes, h, w);
      nh := nh - 1;
    }
    root := heap[0].id;
    n := nodes;
    assert Entry(heap[0], h[0], lft, rgt, n, w);
  }

  lemma {:induction false} TreeFacts(freq: seq<nat>)
    requires freq != []
    ensures Covers(TreeOf(freq), |freq|)
    ensures HasDepths(TreeOf(freq), 0, DepthVector(freq))
    ensures LeafCount(TreeOf(freq)) == |freq|
  {
    HuffmanCovers(Weights(freq));
    DepthsRecorded(TreeOf(freq), 0, Blank(|freq|));
    LeafCountCover(TreeOf(freq), |freq|);
  }

  /** `mk_lengths`. An alphabet has at most 258 symbols, which is what the array sizes allow for. */
  method MkLengths(freq: seq<nat>, maxlen: nat) returns (len: seq<Byte>)
    requires 1 <= |freq| <= 258 && 1 <= maxlen < 256
    ensures len == Lengths(freq, maxlen)
  {
    var lft, rgt, root, n := BuildTree(Weights(freq));
    TreeFacts(freq);
    len := AssignDepths(lft, rgt, n, root, |freq|, maxlen, DepthVector(freq));
  }
}
