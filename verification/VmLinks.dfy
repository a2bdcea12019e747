/** New tables: a root for a new space, and the tables `descend` puts below it. */
module VmLinks {
  import opened Options
  import opened VmWords
  import opened VmState
  import opened VmWalk
  import opened VmSteps

  function PutWord(mem: seq<seq<nat>>, f: nat, i: nat, w: nat): (r: seq<seq<nat>>)
    requires f < |mem| && i < |mem[f]|
    ensures |r| == |mem| && |r[f]| == |mem[f]|
  {
    var page: seq<nat> := mem[f][i := w];
    mem[f := page]
  }

  /** An empty table becomes the root of a space. */
  ghost function Rooted(s: S, c: nat): S
    requires c < |s.role|
  {
    s.(role := s.role[c := Table(1, c, c, 0, 0)])
  }

  /** An empty table goes into entry `i` of table `f`. */
  ghost function Attached(s: S, f: nat, i: nat, c: nat): S
    requires Shape(s) && f < s.top && s.role[f].Table? && i < WORDS && c < s.top
  {
    var t := s.role[f];
    s.(mem := PutWord(s.mem, f, i, TableDesc(c)),
       role := s.role[c := Table(t.level + 1, t.root, f, t.path * WORDS + i, 0)])
  }

  /** A frame outside every space whose words are all 0. */
  ghost predicate Blank(s: S, c: nat)
  {
    c < |s.role| && c < |s.mem| && s.base <= c && s.role[c] == Held && s.mem[c] == Zeros()
  }

  lemma {:induction false} RootedTables(s: S, c: nat)
    requires Inv(s) && Blank(s, c)
    ensures Tables(Rooted(s, c))
  {
    hide FreeOk, Counts, Soles;
    hide Linked, FrameOf, El0;
    var t := Rooted(s, c);
    forall f | 0 <= f < t.top ensures TableOk(t, f) {
      assert TableOk(s, f);
      if f != c && t.role[f].Table? {
        forall i | t.role[f].cut <= i < WORDS ensures EntryOk(t, f, i) {
          assert EntryOk(s, f, i);
        }
      }
    }
  }

  lemma {:induction false} RootedOk(s: S, c: nat)
    requires Inv(s) && Blank(s, c)
    ensures Inv(Rooted(s, c)) && SameViews(s, Rooted(s, c)) && Whole(Rooted(s, c), c)
    ensures forall v: nat :: v < VPNS ==> ViewAt(s.mem, c, v) == Unmapped
  {
    hide Tables, Counts, Soles, FreeOk;
    hide Linked, FrameOf, El0, Ro;
    var t := Rooted(s, c);
    ZeroWord();
    FreeKept(s, t);
    RootedTables(s, c);
    CountsKept(s, t);
    assert Inv(t);
    forall r: nat ensures SpaceSame(s, t, r) {
      hide Holds;
      if Whole(s, r) { SpaceKept(s, t, r); }
    }
    NoSpaceOf(s, c);
  }

  /** A frame that is no root is named by no table as its root. */
  lemma {:induction false} NoSpaceOf(s: S, c: nat)
    requires Inv(s) && c < s.top && !s.role[c].Table?
    ensures forall f :: 0 <= f < s.top && s.role[f].Table? ==> s.role[f].root != c
  {
    hide Counts, Soles, FreeOk, EntryOk;
    hide Follow;
    forall f | 0 <= f < s.top && s.role[f].Table? ensures s.role[f].root != c {
      assert TableOk(s, f);
      if s.role[f].level > 1 {
        var p := s.role[f].parent;
        assert TableOk(s, p);
        if s.role[p].level > 1 { assert TableOk(s, s.role[p].parent); }
      }
    }
  }

  lemma {:induction false} AttachedTables(s: S, f: nat, i: nat, c: nat)
    requires Inv(s) && f < s.top && s.role[f].Table? && s.role[f].level < 3 && s.role[f].cut <= i < WORDS
    requires At(s.mem, f, i) == 0 && Blank(s, c)
    ensures Tables(Attached(s, f, i, c))
  {
    hide FreeOk, Counts, Soles;
    var t := Attached(s, f, i, c);
    TableFields(c);
    ZeroWord();
    PathParts(s.role[f].path, i);
    hide Linked, FrameOf, El0;
    forall g | 0 <= g < t.top ensures TableOk(t, g) {
      assert TableOk(s, g);
      assert TableOk(s, f);
      if t.role[g].Table? {
        assert ParentOk(t, g);
        forall j | t.role[g].cut <= j < WORDS ensures EntryOk(t, g, j) {
          if g != c { assert EntryOk(s, g, j); }
        }
      }
    }
  }

  lemma {:induction false} AttachedHolds(s: S, f: nat, i: nat, c: nat, g: nat, j: nat, p: nat)
    requires Inv(s) && f < s.top && s.role[f].Table? && s.role[f].level < 3 && s.role[f].cut <= i < WORDS
    requires Blank(s, c)
    ensures var t := Attached(s, f, i, c);
            (Holds(t, g, j, p) <==> Holds(s, g, j, p)) && (Holds(s, g, j, p) ==> At(t.mem, g, j) == At(s.mem, g, j))
  {
    hide FreeOk, Counts, Soles, Tables;
    hide Linked, FrameOf;
    ZeroWord();
  }

  /** Every walk that went past the new table finds what it found before. */
  lemma {:induction false} AttachedEntry(s: S, f: nat, i: nat, c: nat, vpn: nat)
    requires Inv(s) && f < s.top && s.role[f].Table? && s.role[f].level < 3 && i < WORDS
    requires At(s.mem, f, i) == 0 && Blank(s, c) && vpn < VPNS && Whole(s, s.role[f].root)
    ensures EntryAt(Attached(s, f, i, c).mem, s.role[f].root, vpn) == EntryAt(s.mem, s.role[f].root, vpn)
  {
    hide FreeOk, Counts, Soles, Tables;
    var t := Attached(s, f, i, c);
    var r := s.role[f].root;
    TableFields(c);
    ZeroWord();
    hide Linked, FrameOf;
    VpnPath(vpn);
    var path := vpn / WORDS;
    LowOk(s, r, path);
    MidOk(s, r, path / WORDS);
    RootSelf(s, r);
    assert forall j: nat :: At(t.mem, c, j) == 0;
  }

  /** Putting in an empty table changes no view and loses no table. */
  lemma {:induction false} AttachedOk(s: S, f: nat, i: nat, c: nat)
    requires Inv(s) && f < s.top && s.role[f].Table? && s.role[f].level < 3 && s.role[f].cut <= i < WORDS
    requires At(s.mem, f, i) == 0 && Blank(s, c)
    ensures Inv(Attached(s, f, i, c))
    ensures Follow(Attached(s, f, i, c).mem, f, i) == Some(c)
  {
    hide Tables, Counts, Soles, FreeOk;
    var t := Attached(s, f, i, c);
    TableFields(c);
    hide Linked, FrameOf, El0, Ro, TableDesc;
    FreeKept(s, t);
    AttachedTables(s, f, i, c);
    forall g: nat, j: nat, p: nat
      ensures (Holds(t, g, j, p) <==> Holds(s, g, j, p)) && (Holds(s, g, j, p) ==> At(t.mem, g, j) == At(s.mem, g, j)) {
      AttachedHolds(s, f, i, c, g, j, p);
    }
    hide Holds;
    CountsKept(s, t);
  }

  lemma {:induction false} AttachedViews(s: S, f: nat, i: nat, c: nat)
    requires Inv(s) && f < s.top && s.role[f].Table? && s.role[f].level < 3 && s.role[f].cut <= i < WORDS
    requires At(s.mem, f, i) == 0 && Blank(s, c)
    ensures SameViews(s, Attached(s, f, i, c))
  {
    hide Tables, Counts, Soles, FreeOk, Holds;
    hide Linked, FrameOf, El0, TableDesc, EntryAt;
    var t := Attached(s, f, i, c);
    forall r: nat ensures SpaceSame(s, t, r) {
      if Whole(s, r) {
        forall v: nat | v < VPNS ensures ViewAt(t.mem, r, v) == ViewAt(s.mem, r, v) {
          ZeroWord();
          EntryHeld(s, r, v);
          if r == s.role[f].root { AttachedEntry(s, f, i, c, v); } else { ViewSame(s, t.mem, r, v); }
        }
      }
    }
  }
}
