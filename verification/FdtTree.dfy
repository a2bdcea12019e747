/** Trees, their tokens, and that the reader visits the nodes of a written tree in preorder, each with
    its depth, its name and its own properties. */
module FdtTree {
  import opened Bits
  import opened FdtFormat
  import opened FdtReader

  datatype Prop = Prop(name: seq<Byte>, val: seq<Byte>)
  datatype Tree = Tree(name: seq<Byte>, props: seq<Prop>, kids: seq<Tree>)

  function PropTokens(ps: seq<Prop>): (ts: seq<Token>)
    ensures |ts| == |ps| && forall i :: 0 <= i < |ps| ==> ts[i] == Property(ps[i].name, ps[i].val)
  {
    seq(|ps|, i requires 0 <= i < |ps| => Property(ps[i].name, ps[i].val))
  }

  /** Properties before children. */
  function Flat(t: Tree): (ts: seq<Token>)
    ensures |ts| >= 2
    decreases t, 0
  {
    [Begin(t.name)] + (PropTokens(t.props) + (Flats(t.kids) + [EndNode]))
  }

  function Flats(ns: seq<Tree>): seq<Token>
    decreases ns, 1
  {
    if ns == [] then [] else Flat(ns[0]) + Flats(ns[1..])
  }

  lemma {:induction false} FlatUnfold(t: Tree)
    ensures Flat(t) == [Begin(t.name)] + (PropTokens(t.props) + (Flats(t.kids) + [EndNode]))
  {
  }

  /** A node, where its first token is, and how deep it lies. */
  datatype Visit = Visit(at: nat, depth: nat, node: Tree)

  function Preorder(t: Tree, k: nat, d: nat): seq<Visit>
    decreases t, 0
  {
    [Visit(k, d, t)] + Preorders(t.kids, k + 1 + |t.props|, d + 1)
  }

  function Preorders(ns: seq<Tree>, k: nat, d: nat): seq<Visit>
    decreases ns, 1
  {
    if ns == [] then [] else Preorder(ns[0], k, d) + Preorders(ns[1..], k + |Flat(ns[0])|, d)
  }

  // ----------------------------------------------------------- the walk over tokens

  /** The nodes that repeated calls find from the `k`-th token on. */
  function Visits(ts: seq<Token>, k: nat, depth: int): seq<(nat, int)>
    requires k <= |ts|
    decreases |ts| - k
  {
    var w := NextBegin(ts, k, depth);
    if w.Found? then [(w.pos, w.depth)] + Visits(ts, w.pos + 1, w.depth) else []
  }

  function Spots(vs: seq<Visit>): (r: seq<(nat, int)>)
    ensures |r| == |vs| && forall i :: 0 <= i < |vs| ==> r[i] == (vs[i].at, vs[i].depth as int)
  {
    seq(|vs|, i requires 0 <= i < |vs| => (vs[i].at, vs[i].depth as int))
  }

  lemma {:induction false} SpotsAppend(a: seq<Visit>, b: seq<Visit>)
    ensures Spots(a + b) == Spots(a) + Spots(b)
  {
  }

  ghost predicate Has(ts: seq<Token>, k: nat, part: seq<Token>)
  {
    k + |part| <= |ts| && ts[k..k + |part|] == part
  }

  lemma {:induction false} HasSplit(ts: seq<Token>, k: nat, a: seq<Token>, b: seq<Token>)
    requires Has(ts, k, a + b)
    ensures Has(ts, k, a) && Has(ts, k + |a|, b)
  {
    var c := a + b;
    assert ts[k..k + |a|] == ts[k..k + |c|][..|a|] == c[..|a|];
    assert ts[k + |a|..k + |a| + |b|] == ts[k..k + |c|][|a|..] == c[|a|..];
  }

  lemma {:induction false} SkipProps(ts: seq<Token>, k: nat, ps: seq<Prop>, d: int)
    requires Has(ts, k, PropTokens(ps))
    ensures Visits(ts, k, d) == Visits(ts, k + |ps|, d)
    decreases |ps|
  {
    if ps != [] {
      assert PropTokens(ps) == [Property(ps[0].name, ps[0].val)] + PropTokens(ps[1..]);
      HasSplit(ts, k, [Property(ps[0].name, ps[0].val)], PropTokens(ps[1..]));
      assert ts[k] == ts[k..k + 1][0];
      assert NextBegin(ts, k, d) == NextBegin(ts, k + 1, d);
      SkipProps(ts, k + 1, ps[1..], d);
    }
  }

  lemma {:induction false} VisitsTree(ts: seq<Token>, k: nat, t: Tree, d: nat)
    requires Has(ts, k, Flat(t))
    ensures Visits(ts, k, d) == Spots(Preorder(t, k, d + 1)) + Visits(ts, k + |Flat(t)|, d)
    decreases t, 0
  {
    hide Visits, Flat, Flats, Has, Spots, Preorders;
    FlatUnfold(t);
    var p, q := PropTokens(t.props), Flats(t.kids);
    HasSplit(ts, k, [Begin(t.name)], p + (q + [EndNode]));
    HasSplit(ts, k + 1, p, q + [EndNode]);
    HasSplit(ts, k + 1 + |p|, q, [EndNode]);
    var i, e := k + 1 + |p|, k + 1 + |p| + |q|;
    HasOne(ts, k, Begin(t.name));
    HasOne(ts, e, EndNode);
    VisitBegin(ts, k, d);
    SkipProps(ts, k + 1, t.props, d + 1);
    VisitsTrees(ts, i, t.kids, d + 1);
    VisitEnd(ts, e, d + 1);
    SpotsAppend([Visit(k, d + 1, t)], Preorders(t.kids, i, d + 2));
    OneSpot(Visit(k, d + 1, t));
  }

  lemma {:induction false} HasAt(ts: seq<Token>, k: nat, part: seq<Token>, i: nat)
    requires Has(ts, k, part) && i < |part|
    ensures k + i < |ts| && ts[k + i] == part[i]
  {
    assert ts[k + i] == ts[k..k + |part|][i];
  }

  lemma {:induction false} HasOne(ts: seq<Token>, k: nat, t: Token)
    requires Has(ts, k, [t])
    ensures k < |ts| && ts[k] == t
  {
    assert ts[k] == ts[k..k + 1][0];
  }

  lemma {:induction false} OneSpot(v: Visit)
    ensures Spots([v]) == [(v.at, v.depth as int)]
  {
  }

  lemma {:induction false} VisitBegin(ts: seq<Token>, k: nat, d: int)
    requires k < |ts| && ts[k].Begin?
    ensures Visits(ts, k, d) == [(k, d + 1)] + Visits(ts, k + 1, d + 1)
  {
  }

  lemma {:induction false} VisitEnd(ts: seq<Token>, k: nat, d: int)
    requires k < |ts| && ts[k] == EndNode
    ensures Visits(ts, k, d) == if d - 1 < 0 then [] else Visits(ts, k + 1, d - 1)
  {
  }

  lemma {:induction false} VisitsTrees(ts: seq<Token>, k: nat, ns: seq<Tree>, d: nat)
    requires Has(ts, k, Flats(ns))
    ensures Visits(ts, k, d) == Spots(Preorders(ns, k, d + 1)) + Visits(ts, k + |Flats(ns)|, d)
    decreases ns, 1
  {
    hide Visits;
    if ns != [] {
      var a, b := Flat(ns[0]), Flats(ns[1..]);
      HasSplit(ts, k, a, b);
      VisitsTree(ts, k, ns[0], d);
      VisitsTrees(ts, k + |a|, ns[1..], d);
      SpotsAppend(Preorder(ns[0], k, d + 1), Preorders(ns[1..], k + |a|, d + 1));
    }
  }

  /** From the root's first token the walk finds every other node, and then no more. */
  lemma {:induction false} WalkTokens(t: Tree)
    ensures Visits(Flat(t), 1, 0) == Spots(Preorders(t.kids, 1 + |t.props|, 1))
  {
    hide Visits;
    var ts := Flat(t);
    var p, q := PropTokens(t.props), Flats(t.kids);
    assert ts[0..|ts|] == ts;
    HasSplit(ts, 0, [Begin(t.name)], p + (q + [EndNode]));
    HasSplit(ts, 1, p, q + [EndNode]);
    HasSplit(ts, 1 + |p|, q, [EndNode]);
    var e := 1 + |p| + |q|;
    assert ts[e] == ts[e..e + 1][0];
    SkipProps(ts, 1, t.props, 0);
    VisitsTrees(ts, 1 + |p|, t.kids, 0);
    VisitEnd(ts, e, 0);
  }

  // -------------------------------------------------------------- what is at a visit

  /** The first property of that name, as an index. */
  function FirstProp(ps: seq<Prop>, i: nat, name: seq<Byte>): (r: int)
    requires i <= |ps|
    ensures r >= 0 ==> i <= r < |ps| && ps[r].name == name && forall j :: i <= j < r ==> ps[j].name != name
    ensures r < 0 ==> r == -1 && forall j :: i <= j < |ps| ==> ps[j].name != name
    decreases |ps| - i
  {
    if i == |ps| then -1 else if ps[i].name == name then i else FirstProp(ps, i + 1, name)
  }

  lemma {:induction false} LookupProps(ts: seq<Token>, k: nat, ps: seq<Prop>, i: nat, name: seq<Byte>)
    requires Has(ts, k, PropTokens(ps)) && i <= |ps| && (k + |ps| < |ts| ==> !ts[k + |ps|].Property?)
    ensures Lookup(ts, k + i, name) == if FirstProp(ps, i, name) < 0 then -1 else k + FirstProp(ps, i, name)
    decreases |ps| - i
  {
    if i < |ps| {
      HasAt(ts, k, PropTokens(ps), i);
      LookupProps(ts, k, ps, i + 1, name);
    }
  }

  /** A visit's tokens are those of its node. */
  lemma {:induction false} VisitHas(ts: seq<Token>, k: nat, t: Tree, d: nat, v: Visit)
    requires Has(ts, k, Flat(t)) && v in Preorder(t, k, d)
    ensures Has(ts, v.at, Flat(v.node))
    decreases t, 0
  {
    if v != Visit(k, d, t) {
      var p, q := PropTokens(t.props), Flats(t.kids);
      HasSplit(ts, k, [Begin(t.name)], p + (q + [EndNode]));
      HasSplit(ts, k + 1, p, q + [EndNode]);
      HasSplit(ts, k + 1 + |p|, q, [EndNode]);
      VisitsHave(ts, k + 1 + |p|, t.kids, d + 1, v);
    }
  }

  lemma {:induction false} VisitsHave(ts: seq<Token>, k: nat, ns: seq<Tree>, d: nat, v: Visit)
    requires Has(ts, k, Flats(ns)) && v in Preorders(ns, k, d)
    ensures Has(ts, v.at, Flat(v.node))
    decreases ns, 1
  {
    var a, b := Flat(ns[0]), Flats(ns[1..]);
    HasSplit(ts, k, a, b);
    if v in Preorder(ns[0], k, d) { VisitHas(ts, k, ns[0], d, v); } else { VisitsHave(ts, k + |a|, ns[1..], d, v); }
  }

  /** At a visit: the node's name, and its properties by name. */
  lemma {:induction false} VisitTokens(ts: seq<Token>, v: Visit, name: seq<Byte>)
    requires Has(ts, v.at, Flat(v.node))
    ensures v.at < |ts| && ts[v.at] == Begin(v.node.name)
    ensures var i := FirstProp(v.node.props, 0, name);
            Lookup(ts, v.at + 1, name) == (if i < 0 then -1 else v.at + 1 + i)
            && (i >= 0 ==> v.at + 1 + i < |ts| && ts[v.at + 1 + i] == Property(name, v.node.props[i].val))
  {
    hide Flat, Flats, FirstProp, Lookup, Has;
    var t, k := v.node, v.at;
    FlatUnfold(t);
    var p, q := PropTokens(t.props), Flats(t.kids);
    HasSplit(ts, k, [Begin(t.name)], p + (q + [EndNode]));
    HasSplit(ts, k + 1, p, q + [EndNode]);
    HasOne(ts, k, Begin(t.name));
    AfterProps(ts, k + 1 + |p|, t.kids);
    LookupProps(ts, k + 1, t.props, 0, name);
    var i := FirstProp(t.props, 0, name);
    if i >= 0 { HasAt(ts, k + 1, p, i); }
  }

  lemma {:induction false} AfterProps(ts: seq<Token>, k: nat, ns: seq<Tree>)
    requires Has(ts, k, Flats(ns) + [EndNode])
    ensures k < |ts| && !ts[k].Property?
  {
    var c := Flats(ns) + [EndNode];
    assert ts[k] == ts[k..k + |c|][0] == c[0];
    if ns != [] { assert c[0] == Flat(ns[0])[0] == Begin(ns[0].name); }
  }

  // ----------------------------------------------------------------- the walk over bytes

  /** What repeated calls of `fdt_next_node` return, from a node on. */
  function Walk(f: Fdt, off: nat, depth: int): seq<(nat, int)>
    decreases f.size - off
  {
    var w := NextNode(f, off, depth);
    if w.Found? && w.pos > off && off < f.size then [(w.pos, w.depth)] + Walk(f, w.pos, w.depth) else []
  }

  ghost predicate Inside(vs: seq<(nat, int)>, n: nat)
  {
    forall i :: 0 <= i < |vs| ==> vs[i].0 < n
  }

  ghost function InBlob(vs: seq<(nat, int)>, ts: seq<Token>, names: seq<seq<Byte>>): (r: seq<(nat, int)>)
    requires Known(ts, names) && Inside(vs, |ts|)
    ensures |r| == |vs| && forall i :: 0 <= i < |vs| ==> r[i] == (Off(ts, names, vs[i].0), vs[i].1)
  {
    seq(|vs|, i requires 0 <= i < |vs| => (Off(ts, names, vs[i].0), vs[i].1))
  }

  lemma {:induction false} VisitsInside(ts: seq<Token>, k: nat, d: int)
    requires k <= |ts|
    ensures Inside(Visits(ts, k, d), |ts|)
    decreases |ts| - k
  {
    var w := NextBegin(ts, k, d);
    if w.Found? { VisitsInside(ts, w.pos + 1, w.depth); }
  }

  lemma {:induction false} OffGrows(ts: seq<Token>, names: seq<seq<Byte>>, j: nat, k: nat)
    requires Known(ts, names) && j < k <= |ts|
    ensures Off(ts, names, j) < Off(ts, names, k) <= |Struct(ts, names)|
    decreases k
  {
    hide Struct, Code, Off;
    TokenAt(ts, names, k - 1);
    CodeSize(ts[k - 1], names);
    if j < k - 1 { OffGrows(ts, names, j, k - 1); }
  }

  lemma {:induction false} CodeSize(t: Token, names: seq<seq<Byte>>)
    requires t.Property? ==> t.name in names
    ensures |Code(t, names)| >= 4
  {
  }

  lemma {:induction false} WalkFollows(f: Fdt, ts: seq<Token>, names: seq<seq<Byte>>, k: nat, d: int)
    requires Holds(f, ts, names) && k < |ts|
    ensures Known(ts, names) && Inside(Visits(ts, k + 1, d), |ts|)
    ensures Walk(f, Off(ts, names, k), d) == InBlob(Visits(ts, k + 1, d), ts, names)
    decreases |ts| - k
  {
    hide Struct, Pool, NextNode, Off;
    VisitsInside(ts, k + 1, d);
    NextFollows(f, ts, names, k, d);
    OffGrows(ts, names, k, |ts|);
    OffEnd(ts, names);
    var w := NextBegin(ts, k + 1, d);
    if w.Found? {
      WalkFollows(f, ts, names, w.pos, w.depth);
      OffGrows(ts, names, k, w.pos);
    }
  }

  /** The reader undoes the writer: over a blob that holds a tree's tokens, the walk from the root visits
      the nodes in preorder, each with its depth; at each stands the node's name; and a property is found
      exactly if the node itself has it, with the value of the first of that name. */
  lemma {:induction false} TreeRead(f: Fdt, t: Tree, names: seq<seq<Byte>>)
    requires Holds(f, Flat(t), names)
    ensures Known(Flat(t), names) && Off(Flat(t), names, 0) == 0
    ensures forall v :: v in Preorder(t, 0, 0) ==> v.at < |Flat(t)|
    ensures |Walk(f, 0, 0)| + 1 == |Preorder(t, 0, 0)|
    ensures forall i :: 1 <= i < |Preorder(t, 0, 0)| ==>
        Walk(f, 0, 0)[i - 1] == (Off(Flat(t), names, Preorder(t, 0, 0)[i].at), Preorder(t, 0, 0)[i].depth as int)
  {
    hide Struct, Pool, Walk, Off, Visits, Flat;
    var ts := Flat(t);
    OffEnd(ts, names);
    WalkTokens(t);
    WalkFollows(f, ts, names, 0, 0);
    assert ts[0..|ts|] == ts;
    forall v | v in Preorder(t, 0, 0) ensures v.at < |ts| {
      VisitHas(ts, 0, t, 0, v);
      VisitTokens(ts, v, []);
    }
  }

  /** At a node's place: its name, and for a property name the value of its first property of that name, or
      none if it has none. */
  ghost predicate NodeHas(f: Fdt, off: nat, node: Tree, name: seq<Byte>)
  {
    var a := f.strukt + off + 4;
    var k, r := FirstProp(node.props, 0, name), GetProp(f, off, name);
    a + |node.name| < |f.blob| && f.blob[a..a + StrLen(f.blob, a)] == node.name
    && if k < 0 then r == Missing
        else r.Got? && r.at + r.len <= |f.blob| && f.blob[r.at..r.at + r.len] == node.props[k].val
  }

  lemma {:induction false} NodeRead(f: Fdt, t: Tree, names: seq<seq<Byte>>, v: Visit, name: seq<Byte>)
    requires Holds(f, Flat(t), names) && v in Preorder(t, 0, 0)
    ensures v.at < |Flat(t)| && Known(Flat(t), names) && NodeHas(f, Off(Flat(t), names, v.at), v.node, name)
  {
    hide Struct, Pool, Off, Flat, GetProp, StrLen, Holds, Align4, Preorder, FirstProp, Lookup;
    var ts := Flat(t);
    assert ts[0..|ts|] == ts;
    VisitHas(ts, 0, t, 0, v);
    VisitTokens(ts, v, name);
    PropFollows(f, ts, names, v.at, name);
    BeginAt(f, ts, names, v.at);
    HoldsSizes(f, ts, names);
  }
}
