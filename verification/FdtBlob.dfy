/** From a tree to a blob and back: the calls that write a tree, and what the reader makes of the result. */
module FdtBlob {
  import opened Bits
  import opened FdtFormat
  import opened FdtReader
  import opened FdtTree
  import opened FdtWriter

  // ------------------------------------------------------------------ writing a tree

  /** Names without zeros, and sizes that fit the writer's integers. */
  predicate Fine(t: Tree)
    decreases t
  {
    Plain(t.name) && |t.name| + 1 < LIMIT
    && (forall i :: 0 <= i < |t.props| ==>
        Plain(t.props[i].name) && |t.props[i].name| + 1 < LIMIT && |t.props[i].val| < LIMIT)
    && forall i :: 0 <= i < |t.kids| ==> Fine(t.kids[i])
  }

  lemma {:induction false} FlatsSnoc(ns: seq<Tree>, t: Tree)
    ensures Flats(ns + [t]) == Flats(ns) + Flat(t)
    decreases |ns|
  {
    if ns == [] {
      assert ns + [t] == [t] && [t][1..] == [];
    } else {
      assert (ns + [t])[1..] == ns[1..] + [t] && (ns + [t])[0] == ns[0];
      FlatsSnoc(ns[1..], t);
    }
  }

  lemma {:induction false} PropsSnoc(ps: seq<Prop>, i: nat)
    requires i < |ps|
    ensures PropTokens(ps[..i + 1]) == PropTokens(ps[..i]) + [Property(ps[i].name, ps[i].val)]
  {
  }

  method WriteProps(g: Generator, ps: seq<Prop>)
    requires g.Wrote()
    requires forall i :: 0 <= i < |ps| ==> Plain(ps[i].name) && |ps[i].name| + 1 < LIMIT && |ps[i].val| < LIMIT
    modifies g, g.buf
    ensures g.Wrote() && g.ts == old(g.ts) + PropTokens(ps)
  {
    hide Generator.Wrote;
    for i := 0 to |ps|
      invariant g.Wrote() && g.ts == old(g.ts) + PropTokens(ps[..i])
    {
      PropsSnoc(ps, i);
      g.Prop_(ps[i].name, ps[i].val);
    }
    assert ps[..|ps|] == ps;
  }

  method WriteTrees(g: Generator, ns: seq<Tree>)
    requires g.Wrote() && forall i :: 0 <= i < |ns| ==> Fine(ns[i])
    modifies g, g.buf
    ensures g.Wrote() && g.ts == old(g.ts) + Flats(ns)
    decreases ns, 1
  {
    hide Flat, Flats, Generator.Wrote, Fine;
    NoFlats();
    for i := 0 to |ns|
      invariant g.Wrote() && g.ts == old(g.ts) + Flats(ns[..i])
    {
      FlatsSnoc(ns[..i], ns[i]);
      assert ns[..i + 1] == ns[..i] + [ns[i]];
      WriteTree(g, ns[i]);
    }
    assert ns[..|ns|] == ns;
  }

  /** A node, its properties, its children, and its end. */
  method WriteTree(g: Generator, t: Tree)
    requires g.Wrote() && Fine(t)
    modifies g, g.buf
    ensures g.Wrote() && g.ts == old(g.ts) + Flat(t)
    decreases t, 0
  {
    hide Flat, Flats, Generator.Wrote;
    g.Node(t.name);
    WriteProps(g, t.props);
    WriteTrees(g, t.kids);
    g.EndNode_();
    FlatUnfold(t);
  }

  lemma {:induction false} NoFlats()
    ensures Flats([]) == []
  {
  }

  /** A tree does not fit a buffer. */
  ghost predicate TooLarge(t: Tree, cap: nat)
    requires Known(Flat(t), NamesIn(Flat(t)))
  {
    Exceeds(cap, |Struct(Flat(t), NamesIn(Flat(t)))| + 4, |Pool(NamesIn(Flat(t)))|)
  }

  /** A whole blob in the caller's buffer; 0 exactly when the tree does not fit. */
  method Generate(b: array<Byte>, t: Tree) returns (total: nat)
    requires b.Length < LIMIT && Fine(t)
    modifies b
    ensures Known(Flat(t), NamesIn(Flat(t))) && (total == 0 <==> TooLarge(t, b.Length))
    ensures total != 0 ==> Finished(b[..], total, Flat(t), NamesIn(Flat(t)))
  {
    hide Flat, Struct, Pool, Finished, Exceeds;
    var g := new Generator(b);
    WriteTree(g, t);
    assert g.ts == Flat(t);
    total := g.Finish();
  }

  // ------------------------------------------------------------------- opening a blob

  /** `fdt_init`: the structure and names a header points to. */
  datatype Opened = Opened(f: Fdt) | BadMagic | Beyond

  function Open(blob: seq<Byte>): Opened
  {
    if |blob| < 4 then Beyond
    else if Rd32(blob, 0) != MAGIC then BadMagic
    else if |blob| < 40 then Beyond
    else Opened(Fdt(blob, Rd32(blob, 8), Rd32(blob, 12), Rd32(blob, 36)))
  }

  /** `fdt_root`: the first word that begins a node. */
  function Root(f: Fdt, off: nat): Walked
    decreases f.size - off
  {
    if off + 4 > f.size then NoMore
    else if f.strukt + off + 4 > |f.blob| then Unknown
    else
      var tok := Rd32(f.blob, f.strukt + off);
      if tok == BEGIN_NODE then Found(off, 0) else if tok == END then NoMore else Root(f, off + 4)
  }

  method FindRoot(f: Fdt) returns (r: Walked)
    ensures r == Root(f, 0)
  {
    hide Rd32;
    var off := 0;
    while off + 4 <= f.size
      invariant Root(f, 0) == Root(f, off)
    {
      if f.strukt + off + 4 > |f.blob| { return Unknown; }
      var tok := Rd32(f.blob, f.strukt + off);
      if tok == BEGIN_NODE { return Found(off, 0); }
      if tok == END { return NoMore; }
      off := off + 4;
    }
    return NoMore;
  }

  lemma {:induction false} HeaderWords(b: seq<Byte>, total: nat, strings: nat, n: nat, size: nat)
    requires |b| >= 40 && b[..40] == Header(total, strings, n, size) && strings < WORD && size < WORD
    ensures Rd32(b, 0) == MAGIC && Rd32(b, 8) == HEADER && Rd32(b, 12) == strings && Rd32(b, 36) == size
  {
    hide Rd32, Be32;
    var h := Header(total, strings, n, size);
    assert h[0..4] == Be32(MAGIC) && h[8..12] == Be32(HEADER) && h[12..16] == Be32(strings) && h[36..40] == Be32(size);
    assert b[0..4] == b[..40][0..4] && b[8..12] == b[..40][8..12] && b[12..16] == b[..40][12..16]
        && b[36..40] == b[..40][36..40];
    WordAt(b, 0, MAGIC);
    WordAt(b, 8, HEADER);
    WordAt(b, 12, strings);
    WordAt(b, 36, size);
  }

  /** A finished blob opens to the tokens it was made of, and its root is the first. */
  lemma {:induction false} BlobOpens(b: seq<Byte>, total: nat, t: Tree, names: seq<seq<Byte>>)
    requires Finished(b, total, Flat(t), names)
    ensures Open(b).Opened? && Holds(Open(b).f, Flat(t), names) && Root(Open(b).f, 0) == Found(0, 0)
  {
    hide Rd32, Pool, Struct, Header, Flat;
    var ts := Flat(t);
    HeaderWords(b, total, HEADER + |Struct(ts, names)| + 4, |Pool(names)|, |Struct(ts, names)| + 4);
    var f := Open(b).f;
    FlatUnfold(t);
    CodeAt(f, ts, names, 0);
    OffEnd(ts, names);
    BeginParts(b, HEADER, t.name);
  }

  /** The reader undoes the writer. Over a finished blob of a tree, starting at the root, repeated calls of
      `fdt_next_node` return the other nodes in preorder with their depths, and then none. */
  lemma {:induction false} BlobWalks(b: seq<Byte>, total: nat, t: Tree, names: seq<seq<Byte>>)
    requires Finished(b, total, Flat(t), names)
    ensures Open(b).Opened? && Known(Flat(t), names) && Placed(t, |Flat(t)|)
    ensures |Walk(Open(b).f, 0, 0)| + 1 == |Preorder(t, 0, 0)|
    ensures forall i :: 1 <= i < |Preorder(t, 0, 0)| ==> Walk(Open(b).f, 0, 0)[i - 1] == Spot(t, names, i)
  {
    hide Flat, Walk, Preorder, Finished, Holds, Open;
    BlobOpens(b, total, t, names);
    TreeRead(Open(b).f, t, names);
  }

  /** Visits are at tokens. */
  ghost predicate Placed(t: Tree, n: nat)
  {
    forall v :: v in Preorder(t, 0, 0) ==> v.at < n
  }

  /** Offset and depth of the `i`-th node in preorder. */
  ghost function Spot(t: Tree, names: seq<seq<Byte>>, i: nat): (nat, int)
    requires Known(Flat(t), names) && Placed(t, |Flat(t)|) && i < |Preorder(t, 0, 0)|
  {
    (Off(Flat(t), names, Preorder(t, 0, 0)[i].at), Preorder(t, 0, 0)[i].depth as int)
  }

  /** And at each node its own name is found, and for each property name the value of its own first property
      of that name, or none if it has none. */
  lemma {:induction false} BlobNode(b: seq<Byte>, total: nat, t: Tree, names: seq<seq<Byte>>, i: nat, name: seq<Byte>)
    requires Finished(b, total, Flat(t), names) && i < |Preorder(t, 0, 0)|
    ensures Open(b).Opened? && Known(Flat(t), names) && Placed(t, |Flat(t)|)
    ensures NodeHas(Open(b).f, Spot(t, names, i).0, Preorder(t, 0, 0)[i].node, name)
  {
    hide Flat, Preorder, Finished, Holds, Open, NodeHas, Walk, Off;
    BlobWalks(b, total, t, names);
    BlobOpens(b, total, t, names);
    NodeRead(Open(b).f, t, names, Preorder(t, 0, 0)[i], name);
  }
}
