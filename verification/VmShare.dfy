/** What each change to a leaf entry keeps and what the programs see of it. */
module VmShare {
  import opened Options
  import opened VmWords
  import opened VmState
  import opened VmWalk
  import opened VmSteps
  import opened VmLinks
  import opened VmLeaves

  /** Page `vpn` of the space of `root` becomes `x`; nothing else is seen to change. */
  ghost predicate SpaceSet(s: S, t: S, r: nat, root: nat, vpn: nat, x: View)
  {
    Whole(s, r) ==> Whole(t, r) && forall v: nat :: v < VPNS ==>
        ViewAt(t.mem, r, v) == if r == root && v == vpn then x else ViewAt(s.mem, r, v)
  }

  ghost predicate ViewSet(s: S, t: S, root: nat, vpn: nat, x: View)
  {
    forall r: nat :: SpaceSet(s, t, r, root, vpn, x)
  }

  /** The state after a leaf entry and the bookkeeping of pages have changed. */
  ghost predicate LeafStep(s: S, t: S, l: nat, i: nat, w: nat)
  {
    Leaf(s, l, i) && Shape(s) && Shape(t)
    && t.mem == PutWord(s.mem, l, i, w)
    && t.head == s.head && t.next == s.next && t.base == s.base && t.top == s.top && t.free == s.free
    && (forall f :: 0 <= f < s.top && t.role[f] != s.role[f] ==>
        s.role[f] == Held && t.role[f] == Data(VpnOf(s, l, i)) && s.base <= f)
    && (w == 0 || (UserPage(w) && FrameOf(w) < s.top && t.role[FrameOf(w)] == Data(VpnOf(s, l, i))))
  }

  /** How entries, holders and words follow one leaf entry. */
  ghost predicate LeafFacts(s: S, t: S, l: nat, i: nat, w: nat)
  {
    (forall p: nat :: Holders(t, p) == if Linked(w) && FrameOf(w) == p then Holders(s, p) + {Slot(l, i)}
        else Holders(s, p) - {Slot(l, i)})
    && (forall g: nat, j: nat, p: nat :: Holds(t, g, j, p) <==>
        if g == l && j == i then Linked(w) && FrameOf(w) == p else Holds(s, g, j, p))
    && (forall g: nat, j: nat :: g != l || j != i ==> At(t.mem, g, j) == At(s.mem, g, j))
    && At(t.mem, l, i) == w
    && (forall p: nat :: Slot(l, i) in Holders(s, p) <==> Follow(s.mem, l, i) == Some(p))
  }

  lemma {:induction false} LeafStepOk(s: S, t: S, l: nat, i: nat, w: nat)
    requires LeafStep(s, t, l, i, w)
    ensures FreeOk(t) && Tables(t) && LeafFacts(s, t, l, i, w)
  {
    hide FreeOk, Counts, Soles, Tables, Holds, Holders;
    hide Linked, FrameOf, El0, Follow;
    FreeKept(s, t);
    LeafTables(s, l, i, w, t);
    forall p: nat
      ensures Holders(t, p) == if Linked(w) && FrameOf(w) == p then Holders(s, p) + {Slot(l, i)}
          else Holders(s, p) - {Slot(l, i)}
      ensures Slot(l, i) in Holders(s, p) <==> Follow(s.mem, l, i) == Some(p)
    {
      LeafHolders(s, l, i, w, t, p);
    }
    forall g: nat, j: nat, p: nat
      ensures Holds(t, g, j, p) <==> if g == l && j == i then Linked(w) && FrameOf(w) == p else Holds(s, g, j, p) {
      LeafHolds(s, l, i, w, t, g, j, p);
    }
    forall g: nat, j: nat ensures (g != l || j != i ==> At(t.mem, g, j) == At(s.mem, g, j)) && At(t.mem, l, i) == w {
      LeafHolds(s, l, i, w, t, g, j, 0);
    }
  }

  lemma {:induction false} LeafStepViews(s: S, t: S, l: nat, i: nat, w: nat)
    requires LeafStep(s, t, l, i, w)
    ensures ViewSet(s, t, s.role[l].root, VpnOf(s, l, i), Seen(t.mem, w))
  {
    hide FreeOk, Counts, Soles, Tables, Holds, Holders;
    hide Linked, FrameOf, El0, ViewAt, Seen;
    forall r: nat ensures SpaceSet(s, t, r, s.role[l].root, VpnOf(s, l, i), Seen(t.mem, w)) {
      if Whole(s, r) {
        forall v: nat | v < VPNS
          ensures ViewAt(t.mem, r, v) == if r == s.role[l].root && v == VpnOf(s, l, i) then Seen(t.mem, w)
              else ViewAt(s.mem, r, v) {
          LeafView(s, l, i, w, r, v);
        }
      }
    }
  }

  // ---- a new page goes into an empty entry ----

  ghost function MapNew(s: S, l: nat, i: nat, p: nat, attrs: nat): S
    requires Leaf(s, l, i) && Shape(s) && p < s.top
  {
    s.(mem := PutWord(s.mem, l, i, PageDesc(p, attrs)), role := s.role[p := Data(VpnOf(s, l, i))])
  }

  lemma {:induction false} NoHolders(s: S, p: nat)
    requires Inv(s) && p < s.top && !s.role[p].Data?
    ensures Holders(s, p) == {}
  {
    hide FreeOk, Counts, Soles, Tables;
    hide Linked, FrameOf, El0;
    forall f: nat, i: nat ensures !Holds(s, f, i, p) {
      if Holds(s, f, i, p) { StepOk(s, f, i); }
    }
    hide Holds;
  }

  lemma {:induction false} MapNewOk(s: S, l: nat, i: nat, p: nat, a: nat)
    requires Leaf(s, l, i) && At(s.mem, l, i) == 0 && s.base <= p < s.top && s.role[p] == Held
    requires UserPage(a) && Attrs(a) == a
    ensures var t := MapNew(s, l, i, p, a);
            Inv(t) && ViewSet(s, t, s.role[l].root, VpnOf(s, l, i), Mapped(s.mem[p], a))
  {
    hide FreeOk, Counts, Soles, Tables, Holds, Holders;
    var t := MapNew(s, l, i, p, a);
    var w := PageDesc(p, a);
    PageFields(a, p);
    ZeroWord();
    hide Linked, FrameOf, El0, PageDesc, Attrs, Ro;
    assert LeafStep(s, t, l, i, w);
    LeafStepOk(s, t, l, i, w);
    LeafStepViews(s, t, l, i, w);
    NoHolders(s, p);
    assert Holders(t, p) == {Slot(l, i)};
    MapNewCounts(s, t, l, i, p, w);
  }

  lemma {:induction false} MapNewCounts(s: S, t: S, l: nat, i: nat, p: nat, w: nat)
    requires LeafStep(s, t, l, i, w) && LeafFacts(s, t, l, i, w) && At(s.mem, l, i) == 0 && p < s.top
    requires s.role[p] == Held
    requires t.role == s.role[p := Data(VpnOf(s, l, i))] && t.refs == s.refs && t.slack == s.slack
    requires Linked(w) && FrameOf(w) == p
    requires Holders(t, p) == {Slot(l, i)}
    ensures Counts(t) && Soles(t)
  {
    hide FreeOk, Tables, Holds, Holders;
    ZeroWord();
    hide Linked, FrameOf, El0, Ro;
    assert forall q: nat :: q != p ==> Holders(t, q) == Holders(s, q);
    forall q | 0 <= q < t.top ensures CountOk(t, q) {
      assert CountOk(s, q);
    }
    forall g: nat, j: nat ensures SoleOk(t, g, j) {
      assert SoleOk(s, g, j);
      if (g != l || j != i) && Holds(t, g, j, p) { HolderIn(t, g, j, p); }
    }
  }

  // ---- an entry is overwritten ----

  /** The entry no longer holds its page, and the page's count does not hear of it. */
  ghost function Dropped(s: S, l: nat, i: nat): S
    requires Leaf(s, l, i) && Shape(s) && FrameOf(At(s.mem, l, i)) < s.top
  {
    var q := FrameOf(At(s.mem, l, i));
    s.(mem := PutWord(s.mem, l, i, 0), slack := s.slack[q := s.slack[q] + 1])
  }

  lemma {:induction false} DroppedOk(s: S, l: nat, i: nat)
    requires Leaf(s, l, i) && Linked(At(s.mem, l, i)) && FrameOf(At(s.mem, l, i)) < s.top
    ensures var t := Dropped(s, l, i);
            Inv(t) && ViewSet(s, t, s.role[l].root, VpnOf(s, l, i), Unmapped)
  {
    hide FreeOk, Counts, Soles, Tables, Holds, Holders;
    var t := Dropped(s, l, i);
    ZeroWord();
    hide Linked, FrameOf, El0, Attrs, Ro;
    LeafStepOk(s, t, l, i, 0);
    LeafStepViews(s, t, l, i, 0);
    StepOk(s, l, i);
    DroppedCounts(s, t, l, i);
  }

  lemma {:induction false} DroppedCounts(s: S, t: S, l: nat, i: nat)
    requires LeafStep(s, t, l, i, 0) && LeafFacts(s, t, l, i, 0)
    requires Linked(At(s.mem, l, i)) && FrameOf(At(s.mem, l, i)) < s.top && s.role[FrameOf(At(s.mem, l, i))].Data?
    requires t == Dropped(s, l, i)
    ensures Counts(t) && Soles(t)
  {
    hide FreeOk, Tables, Holds, Holders;
    ZeroWord();
    hide Linked, FrameOf, El0, Ro;
    var p := FrameOf(At(s.mem, l, i));
    forall q | 0 <= q < t.top ensures CountOk(t, q) {
      assert CountOk(s, q);
    }
    forall g: nat, j: nat ensures SoleOk(t, g, j) {
      assert SoleOk(s, g, j);
    }
  }

  // ---- sharing ----

  /** `cow_share`: the entry loses write permission and its page is counted once more. */
  ghost function Pinned(s: S, l: nat, i: nat): S
    requires Leaf(s, l, i) && Shape(s) && s.base <= FrameOf(At(s.mem, l, i)) < s.top
  {
    var w := At(s.mem, l, i);
    var p := FrameOf(w);
    s.(mem := PutWord(s.mem, l, i, SetRo(w)), refs := SetExtra(s, p, Extra(s, p) + 1),
        slack := s.slack[p := s.slack[p] + 1])
  }

  lemma {:induction false} LeafPage(s: S, l: nat, i: nat)
    requires Leaf(s, l, i) && Linked(At(s.mem, l, i))
    ensures var w := At(s.mem, l, i);
            UserPage(w) && s.base <= FrameOf(w) < s.top && s.role[FrameOf(w)] == Data(VpnOf(s, l, i))
            && Slot(l, i) in Holders(s, FrameOf(w)) && CountOk(s, FrameOf(w)) && w != 0
  {
    hide Counts, Soles, Tables, Threaded, Holders;
    ZeroWord();
    hide Linked, FrameOf, El0;
    StepOk(s, l, i);
    HolderIn(s, l, i, FrameOf(At(s.mem, l, i)));
    CountAt(s, FrameOf(At(s.mem, l, i)));
  }

  lemma {:induction false} PinnedOk(s: S, l: nat, i: nat)
    requires Leaf(s, l, i) && Linked(At(s.mem, l, i)) && s.base <= FrameOf(At(s.mem, l, i)) < s.top
    requires Extra(s, FrameOf(At(s.mem, l, i))) < 255
    ensures var t := Pinned(s, l, i);
            Inv(t) && SameViews(s, t) && AllRo(t, FrameOf(At(s.mem, l, i))) && t.slack[FrameOf(At(s.mem, l, i))] > 0
  {
    hide FreeOk, Counts, Soles, Tables, Holds, Holders;
    var w := At(s.mem, l, i);
    SetRoFields(w);
    ZeroWord();
    LeafPage(s, l, i);
    hide Linked, FrameOf, El0, Attrs, Ro, SetRo, AllRo;
    var t := Pinned(s, l, i);
    LeafStepOk(s, t, l, i, SetRo(w));
    LeafStepViews(s, t, l, i, SetRo(w));
    PinnedCounts(s, t, l, i);
    SeenSame(s, t, l, i, SetRo(w));
  }

  /** A word with the same frame and attributes is seen the same. */
  lemma {:induction false} SeenSame(s: S, t: S, l: nat, i: nat, w: nat)
    requires LeafStep(s, t, l, i, w) && ViewSet(s, t, s.role[l].root, VpnOf(s, l, i), Seen(t.mem, w))
    requires var d := At(s.mem, l, i); Linked(d) && UserPage(w) && FrameOf(w) == FrameOf(d) && Attrs(w) == Attrs(d)
    ensures SameViews(s, t)
  {
    hide FreeOk, Counts, Soles, Tables, Holds, Holders, LowAt;
    hide Linked, FrameOf, El0, Attrs, ViewAt, Seen;
    LeafPage(s, l, i);
    forall r: nat ensures SpaceSame(s, t, r) {
      assert SpaceSet(s, t, r, s.role[l].root, VpnOf(s, l, i), Seen(t.mem, w));
      if Whole(s, r) && r == s.role[l].root {
        LeafSeen(s, l, i);
        SeenAs(s.mem, t.mem, At(s.mem, l, i), w);
      }
    }
  }

  lemma {:induction false} SeenAs(m: seq<seq<nat>>, n: seq<seq<nat>>, d: nat, w: nat)
    requires |m| == |n| && UserPage(d) && UserPage(w) && FrameOf(w) == FrameOf(d) && Attrs(w) == Attrs(d)
    requires FrameOf(d) < |m| && m[FrameOf(d)] == n[FrameOf(d)]
    ensures Seen(m, d) == Seen(n, w) == Mapped(m[FrameOf(d)], Attrs(d))
  {
    hide Linked, FrameOf, El0, Attrs;
  }

  /** What a program sees through an entry. */
  lemma {:induction false} LeafSeen(s: S, l: nat, i: nat)
    requires Leaf(s, l, i)
    ensures VpnOf(s, l, i) < VPNS && ViewAt(s.mem, s.role[l].root, VpnOf(s, l, i)) == Seen(s.mem, At(s.mem, l, i))
    ensures EntryAt(s.mem, s.role[l].root, VpnOf(s, l, i)) == At(s.mem, l, i)
  {
    hide FreeOk, Counts, Soles, Tables, Holds, Holders, LowAt;
    hide Linked, FrameOf, El0, Attrs, Seen;
    LowFound(s, l);
    PathParts(s.role[l].path, i);
  }

  lemma {:induction false} PinnedCounts(s: S, t: S, l: nat, i: nat)
    requires var w := At(s.mem, l, i);
             LeafStep(s, t, l, i, SetRo(w)) && LeafFacts(s, t, l, i, SetRo(w))
             && Linked(SetRo(w)) && FrameOf(SetRo(w)) == FrameOf(w) && Ro(SetRo(w))
             && Linked(w) && s.base <= FrameOf(w) < s.top && s.role[FrameOf(w)].Data?
    requires t == Pinned(s, l, i)
    ensures Counts(t) && Soles(t) && AllRo(t, FrameOf(At(s.mem, l, i)))
  {
    hide FreeOk, Tables, Holds, Holders;
    hide Linked, FrameOf, El0, Ro, SetRo;
    var p := FrameOf(At(s.mem, l, i));
    assert forall q: nat :: Holders(t, q) == Holders(s, q);
    forall q | 0 <= q < t.top ensures CountOk(t, q) {
      assert CountOk(s, q);
    }
    forall g: nat, j: nat ensures SoleOk(t, g, j) {
      assert SoleOk(s, g, j);
    }
    forall g: nat, j: nat | Holds(t, g, j, p) ensures Ro(At(t.mem, g, j)) {
      assert SoleOk(s, g, j);
    }
  }

  /** A shared entry goes into an empty slot of another table: the page gains the holder
      it was counted for. */
  ghost function JoinedIn(s: S, l: nat, i: nat, w: nat): S
    requires Leaf(s, l, i) && Shape(s) && FrameOf(w) < s.top && s.slack[FrameOf(w)] > 0
  {
    var p := FrameOf(w);
    s.(mem := PutWord(s.mem, l, i, w), slack := s.slack[p := s.slack[p] - 1])
  }

  lemma {:induction false} JoinedOk(s: S, l: nat, i: nat, w: nat)
    requires Leaf(s, l, i) && At(s.mem, l, i) == 0 && UserPage(w) && Ro(w) && FrameOf(w) < s.top
    requires s.role[FrameOf(w)] == Data(VpnOf(s, l, i)) && AllRo(s, FrameOf(w)) && s.slack[FrameOf(w)] > 0
    ensures var t := JoinedIn(s, l, i, w);
            Inv(t) && ViewSet(s, t, s.role[l].root, VpnOf(s, l, i), Mapped(s.mem[FrameOf(w)], Attrs(w)))
  {
    hide FreeOk, Counts, Soles, Tables, Holds, Holders;
    var t := JoinedIn(s, l, i, w);
    ZeroWord();
    hide Linked, FrameOf, El0, Attrs, Ro;
    LeafStepOk(s, t, l, i, w);
    LeafStepViews(s, t, l, i, w);
    JoinedCounts(s, t, l, i, w);
  }

  lemma {:induction false} JoinedCounts(s: S, t: S, l: nat, i: nat, w: nat)
    requires LeafStep(s, t, l, i, w) && LeafFacts(s, t, l, i, w) && At(s.mem, l, i) == 0
    requires UserPage(w) && Ro(w) && FrameOf(w) < s.top
    requires s.role[FrameOf(w)].Data? && AllRo(s, FrameOf(w)) && s.slack[FrameOf(w)] > 0
    requires t == JoinedIn(s, l, i, w)
    ensures Counts(t) && Soles(t)
  {
    hide FreeOk, Tables, Holds, Holders;
    ZeroWord();
    hide Linked, FrameOf, El0, Ro;
    var p := FrameOf(w);
    assert forall q: nat :: q != p ==> Holders(t, q) == Holders(s, q);
    assert Slot(l, i) !in Holders(s, p);
    forall q | 0 <= q < t.top ensures CountOk(t, q) {
      assert CountOk(s, q);
    }
    forall g: nat, j: nat ensures SoleOk(t, g, j) {
      assert SoleOk(s, g, j);
    }
  }

  // ---- a write fault ----

  /** The last holder gets its permission back. */
  ghost function Reopened(s: S, l: nat, i: nat): S
    requires Leaf(s, l, i) && Shape(s)
  {
    s.(mem := PutWord(s.mem, l, i, ClearRo(At(s.mem, l, i))))
  }

  lemma {:induction false} ReopenedOk(s: S, l: nat, i: nat)
    requires Leaf(s, l, i) && Linked(At(s.mem, l, i)) && Extra(s, FrameOf(At(s.mem, l, i))) == 0
    ensures var t := Reopened(s, l, i); Inv(t) && SameViews(s, t)
  {
    hide FreeOk, Counts, Soles, Tables, Holds, Holders;
    var w := At(s.mem, l, i);
    ClearRoFields(w);
    ZeroWord();
    LeafPage(s, l, i);
    hide Linked, FrameOf, El0, Attrs, Ro, ClearRo;
    var t := Reopened(s, l, i);
    LeafStepOk(s, t, l, i, ClearRo(w));
    LeafStepViews(s, t, l, i, ClearRo(w));
    OneHolder(Holders(s, FrameOf(w)), Slot(l, i));
    ReopenedCounts(s, t, l, i);
    SeenSame(s, t, l, i, ClearRo(w));
  }

  lemma {:induction false} ReopenedCounts(s: S, t: S, l: nat, i: nat)
    requires var w := At(s.mem, l, i);
             LeafStep(s, t, l, i, ClearRo(w)) && LeafFacts(s, t, l, i, ClearRo(w))
             && Linked(ClearRo(w)) && FrameOf(ClearRo(w)) == FrameOf(w) && Linked(w)
                 && Holders(s, FrameOf(w)) == {Slot(l, i)}
    requires t == Reopened(s, l, i)
    ensures Counts(t) && Soles(t)
  {
    hide FreeOk, Tables, Holds, Holders;
    hide Linked, FrameOf, El0, Ro, ClearRo;
    assert forall q: nat :: Holders(t, q) == Holders(s, q);
    forall q | 0 <= q < t.top ensures CountOk(t, q) {
      assert CountOk(s, q);
    }
    forall g: nat, j: nat ensures SoleOk(t, g, j) {
      assert SoleOk(s, g, j);
    }
  }

  /** A holder that is not the last gets a copy of its own. */
  ghost function Copied(s: S, l: nat, i: nat, f: nat): S
    requires Leaf(s, l, i) && Shape(s) && f < s.top && s.base <= FrameOf(At(s.mem, l, i)) < s.top
    requires Extra(s, FrameOf(At(s.mem, l, i))) > 0
  {
    var w := At(s.mem, l, i);
    var p := FrameOf(w);
    s.(mem := PutWord(s.mem, l, i, PageDesc(f, Attrs(w))), refs := SetExtra(s, p, Extra(s, p) - 1),
        role := s.role[f := Data(VpnOf(s, l, i))])
  }

  lemma {:induction false} CopiedOk(s: S, l: nat, i: nat, f: nat)
    requires Leaf(s, l, i) && Linked(At(s.mem, l, i)) && s.base <= FrameOf(At(s.mem, l, i)) < s.top
    requires Extra(s, FrameOf(At(s.mem, l, i))) > 0
    requires s.base <= f < s.top && s.role[f] == Held && s.mem[f] == s.mem[FrameOf(At(s.mem, l, i))]
    ensures var t := Copied(s, l, i, f); Inv(t) && SameViews(s, t)
  {
    hide FreeOk, Counts, Soles, Tables, Holds, Holders;
    var w := At(s.mem, l, i);
    var d := PageDesc(f, Attrs(w));
    PageFields(w, f);
    ZeroWord();
    LeafPage(s, l, i);
    hide Linked, FrameOf, El0, Attrs, Ro, PageDesc;
    var t := Copied(s, l, i, f);
    assert LeafStep(s, t, l, i, d);
    LeafStepOk(s, t, l, i, d);
    LeafStepViews(s, t, l, i, d);
    NoHolders(s, f);
    CopiedCounts(s, t, l, i, f, d);
    CopiedViews(s, t, l, i, f, d);
  }

  lemma {:induction false} CopiedViews(s: S, t: S, l: nat, i: nat, f: nat, d: nat)
    requires LeafStep(s, t, l, i, d) && ViewSet(s, t, s.role[l].root, VpnOf(s, l, i), Seen(t.mem, d))
    requires var w := At(s.mem, l, i);
             Linked(w) && UserPage(d) && FrameOf(d) == f && Attrs(d) == Attrs(w) && f < s.top && s.role[f] == Held
             && FrameOf(w) < s.top && s.mem[f] == s.mem[FrameOf(w)]
    ensures SameViews(s, t)
  {
    hide FreeOk, Counts, Soles, Tables, Holds, Holders, LowAt;
    hide Linked, FrameOf, El0, Attrs, ViewAt;
    LeafPage(s, l, i);
    forall r: nat ensures SpaceSame(s, t, r) {
      assert SpaceSet(s, t, r, s.role[l].root, VpnOf(s, l, i), Seen(t.mem, d));
      if Whole(s, r) && r == s.role[l].root { LeafSeen(s, l, i); }
    }
  }

  lemma {:induction false} CopiedCounts(s: S, t: S, l: nat, i: nat, f: nat, d: nat)
    requires LeafStep(s, t, l, i, d) && LeafFacts(s, t, l, i, d)
    requires var w := At(s.mem, l, i);
             Linked(w) && s.base <= FrameOf(w) < s.top && s.role[FrameOf(w)].Data? && Extra(s, FrameOf(w)) > 0
             && Slot(l, i) in Holders(s, FrameOf(w))
    requires Linked(d) && FrameOf(d) == f && s.base <= f < s.top && s.role[f] == Held && Holders(s, f) == {}
    requires t == Copied(s, l, i, f)
    ensures Counts(t) && Soles(t)
  {
    hide FreeOk, Tables, Holds, Holders;
    hide Linked, FrameOf, El0, Ro, Attrs, PageDesc;
    var p := FrameOf(At(s.mem, l, i));
    assert Holders(t, f) == {Slot(l, i)};
    assert forall q: nat :: q != f && q != p ==> Holders(t, q) == Holders(s, q);
    forall q | 0 <= q < t.top ensures CountOk(t, q) {
      assert CountOk(s, q);
    }
    forall g: nat, j: nat ensures SoleOk(t, g, j) {
      assert SoleOk(s, g, j);
      if Holds(t, g, j, f) { HolderIn(t, g, j, f); }
    }
  }

  // ---- a program's store ----

  /** A word of the page behind an entry changes. */
  ghost function Stored(s: S, l: nat, i: nat, off: nat, x: nat): S
    requires Leaf(s, l, i) && Shape(s) && FrameOf(At(s.mem, l, i)) < s.top && off < WORDS
  {
    s.(mem := PutWord(s.mem, FrameOf(At(s.mem, l, i)), off, x))
  }

  lemma {:induction false} StoredTables(s: S, l: nat, i: nat, off: nat, x: nat)
    requires Leaf(s, l, i) && FrameOf(At(s.mem, l, i)) < s.top && s.role[FrameOf(At(s.mem, l, i))].Data? && off < WORDS
    ensures Inv(Stored(s, l, i, off, x))
  {
    hide Counts, Soles, FreeOk;
    hide Linked, FrameOf, El0, Ro;
    var t := Stored(s, l, i, off, x);
    FreeKept(s, t);
    forall g | 0 <= g < t.top ensures TableOk(t, g) {
      assert TableOk(s, g);
      if t.role[g].Table? {
        assert ParentOk(t, g);
        forall j | t.role[g].cut <= j < WORDS ensures EntryOk(t, g, j) {
          assert EntryOk(s, g, j);
        }
      }
    }
    hide Tables;
    CountsKept(s, t);
  }

  /** Nobody but the storing program sees a store through a writable entry. */
  lemma {:induction false} StoredOk(s: S, l: nat, i: nat, off: nat, x: nat)
    requires Leaf(s, l, i) && Linked(At(s.mem, l, i)) && !Ro(At(s.mem, l, i)) && FrameOf(At(s.mem, l, i)) < s.top
    requires off < WORDS
    ensures var t := Stored(s, l, i, off, x); var w := At(s.mem, l, i);
            Inv(t) && ViewSet(s, t, s.role[l].root, VpnOf(s, l, i), Mapped(s.mem[FrameOf(w)][off := x], Attrs(w)))
  {
    hide FreeOk, Counts, Tables, Holders, Attrs;
    ZeroWord();
    hide Linked, FrameOf, El0, Ro;
    var t := Stored(s, l, i, off, x);
    var w := At(s.mem, l, i);
    var p := FrameOf(w);
    LeafPage(s, l, i);
    StoredTables(s, l, i, off, x);
    assert SoleOk(s, l, i);
    hide Soles, SoleOk;
    var seen := Mapped(s.mem[p][off := x], Attrs(w));
    forall r: nat ensures SpaceSet(s, t, r, s.role[l].root, VpnOf(s, l, i), seen) {
      if Whole(s, r) {
        forall v: nat | v < VPNS
          ensures ViewAt(t.mem, r, v) == if r == s.role[l].root && v == VpnOf(s, l, i) then seen
              else ViewAt(s.mem, r, v) {
          StoredView(s, l, i, off, x, r, v);
        }
      }
    }
  }

  lemma {:induction false} StoredView(s: S, l: nat, i: nat, off: nat, x: nat, r: nat, v: nat)
    requires Leaf(s, l, i) && UserPage(At(s.mem, l, i)) && FrameOf(At(s.mem, l, i)) < s.top && off < WORDS
    requires s.role[FrameOf(At(s.mem, l, i))].Data?
    requires Holders(s, FrameOf(At(s.mem, l, i))) == {Slot(l, i)} && Whole(s, r) && v < VPNS
    ensures var t := Stored(s, l, i, off, x); var w := At(s.mem, l, i);
            ViewAt(t.mem, r, v) == if r == s.role[l].root && v == VpnOf(s, l, i) then
                Mapped(s.mem[FrameOf(w)][off := x], Attrs(w)) else ViewAt(s.mem, r, v)
  {
    hide FreeOk, Counts, Soles, Tables, Holders, LowAt, EntryAt;
    ZeroWord();
    hide Linked, FrameOf, El0, Attrs;
    var t := Stored(s, l, i, off, x);
    var p := FrameOf(At(s.mem, l, i));
    WalkSame(s, t.mem, r, v);
    LeafSeen(s, l, i);
    if r != s.role[l].root || v != VpnOf(s, l, i) {
      EntryHeld(s, r, v);
      var w := EntryAt(s.mem, r, v);
      if w != 0 && FrameOf(w) == p {
        var k := LowAt(s.mem, r, v / WORDS).value;
        HolderIn(s, k, v % WORDS, p);
        VpnPath(v);
        LowOk(s, r, v / WORDS);
        PathWhole(v);
        assert false;
      }
    }
  }
}
