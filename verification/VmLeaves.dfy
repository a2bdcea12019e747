/** Changes to one leaf entry: mapping a page, sharing it, copying it, writing to it. */
module VmLeaves {
  import opened Options
  import opened VmWords
  import opened VmState
  import opened VmWalk
  import opened VmSteps
  import opened VmLinks

  /** Entry `i` of the third-level table `l` is in force. */
  ghost predicate Leaf(s: S, l: nat, i: nat)
  {
    Inv(s) && IsTable(s, l, 3) && s.role[l].cut <= i < WORDS
  }

  /** The number of the page the entry is for. */
  ghost function VpnOf(s: S, l: nat, i: nat): nat
    requires IsTable(s, l, 3)
  {
    s.role[l].path * WORDS + i
  }

  ghost predicate AllRo(s: S, p: nat)
  {
    forall f: nat, i: nat :: Holds(s, f, i, p) ==> Ro(At(s.mem, f, i))
  }

  ghost function SetExtra(s: S, p: nat, n: nat): (r: seq<nat>)
    requires s.base <= p < s.base + |s.refs|
  {
    s.refs[p - s.base := n]
  }

  // ---- one word of one leaf table ----

  /** Only walks that end at the entry see its new word. */
  lemma {:induction false} LeafEntry(s: S, l: nat, i: nat, w: nat, root: nat, vpn: nat)
    requires Leaf(s, l, i) && Shape(s) && Whole(s, root) && vpn < VPNS
    ensures EntryAt(PutWord(s.mem, l, i, w), root, vpn) ==
            if root == s.role[l].root && vpn == VpnOf(s, l, i) then w else EntryAt(s.mem, root, vpn)
    ensures LowAt(PutWord(s.mem, l, i, w), root, vpn / WORDS) == LowAt(s.mem, root, vpn / WORDS)
  {
    hide FreeOk, Counts, Soles, Tables;
    hide Linked, FrameOf;
    VpnPath(vpn);
    var path := vpn / WORDS;
    LowOk(s, root, path);
    MidOk(s, root, path / WORDS);
    RootSelf(s, root);
    LowFound(s, l);
    PathParts(s.role[l].path, i);
    PathWhole(vpn);
  }

  lemma {:induction false} LeafLows(s: S, l: nat, i: nat, w: nat, t: S, root: nat)
    requires Leaf(s, l, i) && Shape(s) && Whole(s, root) && t.mem == PutWord(s.mem, l, i, w)
    ensures SameLows(s, t, root)
  {
    hide Inv, Whole, LowAt, EntryAt;
    forall p | 0 <= p < WORDS * WORDS ensures LowAt(t.mem, root, p) == LowAt(s.mem, root, p) {
      PathParts(p, 0);
      assert (p * WORDS) / WORDS == p && p * WORDS < VPNS;
      LeafEntry(s, l, i, w, root, p * WORDS);
    }
    LeafTop(s, l, i, w, root);
  }

  lemma {:induction false} LeafTop(s: S, l: nat, i: nat, w: nat, root: nat)
    requires Leaf(s, l, i) && Shape(s) && Whole(s, root)
    ensures forall j :: 0 <= j < WORDS ==> Follow(PutWord(s.mem, l, i, w), root, j) == Follow(s.mem, root, j)
  {
    hide Linked, FrameOf;
  }

  /** A leaf entry may become 0 or lead to a page that belongs there. */
  lemma {:induction false} LeafTables(s: S, l: nat, i: nat, w: nat, t: S)
    requires Leaf(s, l, i) && Shape(t) && t.top == s.top && t.mem == PutWord(s.mem, l, i, w)
    requires forall f :: 0 <= f < s.top && t.role[f] != s.role[f] ==> s.role[f] == Held && !t.role[f].Table?
    requires w == 0 || (UserPage(w) && FrameOf(w) < s.top && t.role[FrameOf(w)] == Data(VpnOf(s, l, i)))
    ensures Tables(t)
  {
    hide FreeOk, Counts, Soles;
    ZeroWord();
    hide Linked, FrameOf, El0;
    forall g | 0 <= g < t.top ensures TableOk(t, g) {
      assert TableOk(s, g);
      if t.role[g].Table? {
        assert ParentOk(t, g);
        forall j | t.role[g].cut <= j < WORDS ensures EntryOk(t, g, j) {
          assert EntryOk(s, g, j);
        }
      }
    }
  }

  lemma {:induction false} LeafHolds(s: S, l: nat, i: nat, w: nat, t: S, g: nat, j: nat, p: nat)
    requires Leaf(s, l, i) && Shape(s) && Shape(t) && t.top == s.top && t.mem == PutWord(s.mem, l, i, w)
    requires forall f :: 0 <= f < s.top && t.role[f] != s.role[f] ==> !s.role[f].Table? && !t.role[f].Table?
    ensures Holds(t, g, j, p) <==> if g == l && j == i then Linked(w) && FrameOf(w) == p else Holds(s, g, j, p)
    ensures g != l || j != i ==> At(t.mem, g, j) == At(s.mem, g, j)
    ensures At(t.mem, l, i) == w
  {
    hide FreeOk, Counts, Soles, Tables;
    hide Linked, FrameOf;
  }

  /** How the holders of a page follow one leaf entry. */
  lemma {:induction false} LeafHolders(s: S, l: nat, i: nat, w: nat, t: S, p: nat)
    requires Leaf(s, l, i) && Shape(s) && Shape(t) && t.top == s.top && t.mem == PutWord(s.mem, l, i, w)
    requires forall f :: 0 <= f < s.top && t.role[f] != s.role[f] ==> !s.role[f].Table? && !t.role[f].Table?
    ensures Holders(t, p) == if Linked(w) && FrameOf(w) == p then Holders(s, p) + {Slot(l, i)}
        else Holders(s, p) - {Slot(l, i)}
    ensures Slot(l, i) in Holders(s, p) <==> Follow(s.mem, l, i) == Some(p)
  {
    hide FreeOk, Counts, Soles, Tables, Inv;
    hide Linked, FrameOf;
    forall g: nat, j: nat
      ensures Holds(t, g, j, p) <==> if g == l && j == i then Linked(w) && FrameOf(w) == p else Holds(s, g, j, p) {
      LeafHolds(s, l, i, w, t, g, j, p);
    }
    HolderIn(s, l, i, p);
    forall x: Slot
      ensures x in Holders(t, p) <==>
          x in if Linked(w) && FrameOf(w) == p then Holders(s, p) + {Slot(l, i)} else Holders(s, p) - {Slot(l, i)} {
      HolderIn(t, x.table, x.index, p);
      HolderIn(s, x.table, x.index, p);
    }
  }

  /** The views of a state that differs in one leaf entry. */
  lemma {:induction false} LeafView(s: S, l: nat, i: nat, w: nat, root: nat, vpn: nat)
    requires Leaf(s, l, i) && Shape(s) && Whole(s, root) && vpn < VPNS
    ensures ViewAt(PutWord(s.mem, l, i, w), root, vpn) ==
            if root == s.role[l].root && vpn == VpnOf(s, l, i) then Seen(PutWord(s.mem, l, i, w), w)
                else ViewAt(s.mem, root, vpn)
  {
    hide FreeOk, Counts, Soles, Tables;
    hide Linked, FrameOf, El0, EntryAt, Attrs;
    LeafEntry(s, l, i, w, root, vpn);
    EntryHeld(s, root, vpn);
    ZeroWord();
    hide LowAt;
  }

  lemma {:induction false} CountAt(s: S, p: nat)
    requires Inv(s) && p < s.top
    ensures CountOk(s, p)
  {
    hide FreeOk, Soles, Tables, CountOk;
  }

  lemma {:induction false} CountsFrom(s: S)
    requires Shape(s) && forall p :: 0 <= p < s.top ==> CountOk(s, p)
    ensures Counts(s)
  {
    hide CountOk;
  }

  lemma {:induction false} OneHolder(a: set<Slot>, x: Slot)
    requires x in a && |a| == 1
    ensures a == {x}
  {
    assert |a - {x}| == 0;
    assert a == {x} + (a - {x});
  }
}
