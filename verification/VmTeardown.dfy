/** Giving an address space back, entry by entry. None of these steps touches memory:
    they say which part of a space the walk has let go of. */
module VmTeardown {
  import opened Options
  import opened VmWords
  import opened VmState
  import opened VmWalk
  import opened VmSteps
  import opened VmLeaves

  /** Every space but one is seen as before. */
  ghost predicate OthersSame(s: S, t: S, root: nat)
  {
    forall r: nat :: r != root ==> SpaceSame(s, t, r)
  }

  lemma {:induction false} OthersThen(s: S, t: S, u: S, root: nat)
    requires OthersSame(s, t, root) && OthersSame(t, u, root)
    ensures OthersSame(s, u, root)
  {
    hide Whole, ViewAt;
    forall r: nat | r != root ensures SpaceSame(s, u, r) {
      assert SpaceSame(s, t, r) && SpaceSame(t, u, r);
    }
  }

  /** A table whose entry at `cut` is next. */
  ghost predicate Next(s: S, f: nat)
  {
    Inv(s) && f < s.top && s.role[f].Table? && s.role[f].cut < WORDS
  }

  ghost function Advance(role: seq<Role>, f: nat): (r: seq<Role>)
    requires f < |role| && role[f].Table?
    ensures |r| == |role|
  {
    role[f := role[f].(cut := role[f].cut + 1)]
  }

  /** An empty entry is passed. */
  ghost function CutEmpty(s: S, f: nat): S
    requires f < |s.role| && s.role[f].Table?
  {
    s.(role := Advance(s.role, f))
  }

  /** A shared page loses a holder. */
  ghost function CutShared(s: S, l: nat, p: nat): S
    requires l < |s.role| && s.role[l].Table? && s.base <= p < s.base + |s.refs| && Extra(s, p) > 0
  {
    s.(role := Advance(s.role, l), refs := SetExtra(s, p, Extra(s, p) - 1))
  }

  /** A page loses its last holder and is nobody's. */
  ghost function CutLast(s: S, l: nat, p: nat): S
    requires l < |s.role| && s.role[l].Table? && p < |s.role|
  {
    s.(role := Advance(s.role, l)[p := Held])
  }

  /** A table that has been walked through is nobody's. */
  ghost function CutTable(s: S, f: nat, c: nat): S
    requires f < |s.role| && s.role[f].Table? && c < |s.role|
  {
    s.(role := Advance(s.role, f)[c := Held])
  }

  ghost function CutRoot(s: S, r: nat): S
    requires r < |s.role|
  {
    s.(role := s.role[r := Held])
  }

  /** Roles of one space may change as long as no free frame is involved. */
  lemma {:induction false} RolesViews(s: S, t: S, root: nat)
    requires Inv(s) && t.mem == s.mem && |t.role| == s.top
    requires forall f :: 0 <= f < s.top && t.role[f] != s.role[f] ==>
      (s.role[f].Data? || (s.role[f].Table? && s.role[f].root == root))
      && (t.role[f].Table? ==> s.role[f].Table? && t.role[f].root == root)
    ensures OthersSame(s, t, root)
  {
    hide FreeOk, Counts, Soles, Tables, ViewAt;
    forall r: nat | r != root ensures SpaceSame(s, t, r) {
      if Whole(s, r) { RootSelf(s, r); }
    }
  }

  /** The shape shared by the steps: roles and counts change, memory and free list do not. */
  ghost predicate CutStep(s: S, t: S, f: nat)
  {
    Next(s, f) && Shape(s) && Shape(t) && t.mem == s.mem && t.slack == s.slack
    && t.head == s.head && t.next == s.next && t.base == s.base && t.top == s.top && t.free == s.free
  }

  /** Only the entry being passed names what is let go of. */
  lemma {:induction false} NamedOnce(s: S, f: nat, c: nat, g: nat, j: nat)
    requires Next(s, f) && c < s.top
    requires s.role[f].level == 3 ==> s.role[c].Data? && Holders(s, c) == {Slot(f, s.role[f].cut)}
    requires s.role[f].level != 3 ==> Follow(s.mem, f, s.role[f].cut) == Some(c)
    requires g < s.top && s.role[g].Table? && s.role[g].cut <= j < WORDS && Follow(s.mem, g, j) == Some(c)
    ensures g == f && j == s.role[f].cut
  {
    hide FreeOk, Counts, Soles, Holders;
    assert TableOk(s, f) && TableOk(s, g);
    hide Tables;
    ZeroWord();
    hide Linked, FrameOf, El0;
    StepOk(s, g, j);
    StepOk(s, f, s.role[f].cut);
    if s.role[f].level == 3 { HolderIn(s, g, j, c); }
  }

  /** What may go when table `f` passes an entry: nothing, a page nobody else holds, or a
      table that has been walked through. */
  ghost predicate MayGo(s: S, f: nat, c: nat)
    requires Next(s, f)
  {
    c < s.top && c != f
    && if s.role[f].level == 3 then s.role[c].Data? && Holders(s, c) == {Slot(f, s.role[f].cut)}
       else Follow(s.mem, f, s.role[f].cut) == Some(c) && s.role[c].Table? && s.role[c].cut == WORDS
  }

  lemma {:induction false} CutParents(s: S, t: S, f: nat, c: nat, gone: bool, g: nat)
    requires CutStep(s, t, f) && c < s.top && t.role == if gone then Advance(s.role, f)[c := Held]
        else Advance(s.role, f)
    requires if gone then MayGo(s, f, c) else s.role[f].level == 3 || At(s.mem, f, s.role[f].cut) == 0
    requires g < s.top && t.role[g].Table?
    ensures ParentOk(t, g)
  {
    hide FreeOk, Counts, Soles, Holders, EntryOk;
    ZeroWord();
    hide Linked, FrameOf, El0;
    assert TableOk(s, g) && TableOk(s, f);
    if s.role[g].level > 1 { assert TableOk(s, s.role[g].parent); }
  }

  lemma {:induction false} CutEntry(s: S, t: S, f: nat, c: nat, gone: bool, g: nat, j: nat)
    requires CutStep(s, t, f) && c < s.top && t.role == if gone then Advance(s.role, f)[c := Held]
        else Advance(s.role, f)
    requires gone ==> MayGo(s, f, c)
    requires g < s.top && t.role[g].Table? && t.role[g].cut <= j < WORDS
    ensures EntryOk(t, g, j)
  {
    hide FreeOk, Counts, Soles, Holders, ParentOk;
    ZeroWord();
    assert TableOk(s, g);
    assert EntryOk(s, g, j);
    hide Tables;
    hide Linked, FrameOf, El0;
    if gone && Follow(s.mem, g, j) == Some(c) {
      NamedOnce(s, f, c, g, j);
    }
  }

  /** Tables stay well formed when one passes an entry. */
  lemma {:induction false} CutTables(s: S, t: S, f: nat, c: nat, gone: bool)
    requires CutStep(s, t, f) && c < s.top && t.role == if gone then Advance(s.role, f)[c := Held]
        else Advance(s.role, f)
    requires if gone then MayGo(s, f, c) else s.role[f].level == 3 || At(s.mem, f, s.role[f].cut) == 0
    ensures Tables(t)
  {
    hide FreeOk, Counts, Soles, Holders, ParentOk, EntryOk, Inv, MayGo;
    forall g | 0 <= g < |t.role| && t.role[g].Table? ensures TableOk(t, g) {
      CutParents(s, t, f, c, gone, g);
      forall j | t.role[g].cut <= j < WORDS ensures EntryOk(t, g, j) {
        CutEntry(s, t, f, c, gone, g, j);
      }
    }
  }

  lemma {:induction false} CutHolds(s: S, t: S, f: nat, c: nat, gone: bool, g: nat, j: nat, p: nat)
    requires CutStep(s, t, f) && c < s.top && t.role == if gone then Advance(s.role, f)[c := Held]
        else Advance(s.role, f)
    requires gone ==> MayGo(s, f, c)
    ensures Holds(t, g, j, p) <==> Holds(s, g, j, p) && (g != f || j != s.role[f].cut)
  {
    hide FreeOk, Counts, Soles, Tables, Holders;
    hide Linked, FrameOf, El0;
  }

  lemma {:induction false} CutHolders(s: S, t: S, f: nat, c: nat, gone: bool, p: nat)
    requires CutStep(s, t, f) && c < s.top && t.role == if gone then Advance(s.role, f)[c := Held]
        else Advance(s.role, f)
    requires gone ==> MayGo(s, f, c)
    ensures Holders(t, p) == Holders(s, p) - {Slot(f, s.role[f].cut)}
  {
    hide Inv, MayGo, Linked, FrameOf;
    forall x: Slot ensures x in Holders(t, p) <==> x in Holders(s, p) - {Slot(f, s.role[f].cut)} {
      HolderIn(t, x.table, x.index, p);
      HolderIn(s, x.table, x.index, p);
      CutHolds(s, t, f, c, gone, x.table, x.index, p);
    }
  }

  lemma {:induction false} CutSoles(s: S, t: S, f: nat, c: nat, gone: bool)
    requires CutStep(s, t, f) && c < s.top && t.role == if gone then Advance(s.role, f)[c := Held]
        else Advance(s.role, f)
    requires gone ==> MayGo(s, f, c)
    ensures Soles(t)
    ensures forall p: nat :: Holders(t, p) == Holders(s, p) - {Slot(f, s.role[f].cut)}
  {
    hide FreeOk, Counts, Tables, Holders, Holds;
    hide Linked, FrameOf, El0, Ro, MayGo;
    forall p: nat ensures Holders(t, p) == Holders(s, p) - {Slot(f, s.role[f].cut)} {
      CutHolders(s, t, f, c, gone, p);
    }
    forall g: nat, j: nat ensures SoleOk(t, g, j) {
      assert SoleOk(s, g, j);
      forall p | Holds(t, g, j, p) && !Ro(At(t.mem, g, j)) ensures Holders(t, p) == {Slot(g, j)} {
        CutHolds(s, t, f, c, gone, g, j, p);
      }
    }
  }

  /** The entry being passed, if it is a leaf that names a page, is one of its holders. */
  lemma {:induction false} PassedHolder(s: S, f: nat, p: nat)
    requires Next(s, f)
    ensures Slot(f, s.role[f].cut) in Holders(s, p) <==>
        s.role[f].level == 3 && Follow(s.mem, f, s.role[f].cut) == Some(p)
  {
    hide FreeOk, Counts, Soles, Tables, Holders;
    hide Linked, FrameOf;
    HolderIn(s, f, s.role[f].cut, p);
  }

  lemma {:induction false} CutEmptyOk(s: S, f: nat)
    requires Next(s, f) && At(s.mem, f, s.role[f].cut) == 0
    ensures Inv(CutEmpty(s, f)) && OthersSame(s, CutEmpty(s, f), s.role[f].root)
  {
    hide FreeOk, Counts, Soles, Tables, Holders, Holds;
    ZeroWord();
    hide Linked, FrameOf, El0;
    var t := CutEmpty(s, f);
    FreeKept(s, t);
    CutTables(s, t, f, f, false);
    CutSoles(s, t, f, f, false);
    forall p | 0 <= p < t.top ensures CountOk(t, p) {
      CountAt(s, p);
      PassedHolder(s, f, p);
      assert Holders(t, p) == Holders(s, p);
    }
    CountsFrom(t);
    RolesViews(s, t, s.role[f].root);
  }

  lemma {:induction false} CutSharedOk(s: S, l: nat, p: nat)
    requires Next(s, l) && s.role[l].level == 3 && Follow(s.mem, l, s.role[l].cut) == Some(p)
    requires s.base <= p < s.top && s.role[p].Data? && Extra(s, p) > 0
    ensures Inv(CutShared(s, l, p)) && OthersSame(s, CutShared(s, l, p), s.role[l].root)
  {
    hide FreeOk, Counts, Soles, Tables, Holders, Holds;
    hide Linked, FrameOf, El0;
    var t := CutShared(s, l, p);
    FreeKept(s, t);
    CutTables(s, t, l, l, false);
    CutSoles(s, t, l, l, false);
    forall q | 0 <= q < t.top ensures CountOk(t, q) {
      CountAt(s, q);
      PassedHolder(s, l, q);
      if q != p { assert Holders(t, q) == Holders(s, q); }
    }
    CountsFrom(t);
    RolesViews(s, t, s.role[l].root);
  }

  /** A page whose count is 0 has no other holder, so it may be freed. */
  lemma {:induction false} CutLastOk(s: S, l: nat, p: nat)
    requires Next(s, l) && s.role[l].level == 3 && Follow(s.mem, l, s.role[l].cut) == Some(p)
    requires s.base <= p < s.top && s.role[p].Data? && Extra(s, p) == 0
    ensures Inv(CutLast(s, l, p)) && OthersSame(s, CutLast(s, l, p), s.role[l].root)
  {
    hide FreeOk, Counts, Soles, Tables, Holders, Holds;
    hide Linked, FrameOf, El0;
    var t := CutLast(s, l, p);
    FreeKept(s, t);
    CountAt(s, p);
    PassedHolder(s, l, p);
    OneHolder(Holders(s, p), Slot(l, s.role[l].cut));
    CutTables(s, t, l, p, true);
    CutSoles(s, t, l, p, true);
    forall q | 0 <= q < t.top ensures CountOk(t, q) {
      CountAt(s, q);
      PassedHolder(s, l, q);
      if q != p { assert Holders(t, q) == Holders(s, q); }
    }
    CountsFrom(t);
    RolesViews(s, t, s.role[l].root);
  }

  lemma {:induction false} CutTableOk(s: S, f: nat, c: nat)
    requires Next(s, f) && s.role[f].level < 3 && Follow(s.mem, f, s.role[f].cut) == Some(c)
    requires c < s.top && s.role[c].Table? && s.role[c].cut == WORDS
    ensures Inv(CutTable(s, f, c)) && OthersSame(s, CutTable(s, f, c), s.role[f].root)
  {
    hide FreeOk, Counts, Soles, Tables, Holders, Holds;
    hide Linked, FrameOf, El0;
    var t := CutTable(s, f, c);
    StepOk(s, f, s.role[f].cut);
    FreeKept(s, t);
    CutTables(s, t, f, c, true);
    CutSoles(s, t, f, c, true);
    forall q | 0 <= q < t.top ensures CountOk(t, q) {
      CountAt(s, q);
      PassedHolder(s, f, q);
      assert Holders(t, q) == Holders(s, q);
    }
    CountsFrom(t);
    RolesViews(s, t, s.role[f].root);
  }

  lemma {:induction false} CutRootTables(s: S, r: nat)
    requires Inv(s) && IsTable(s, r, 1) && s.role[r].cut == WORDS
    ensures Tables(CutRoot(s, r))
  {
    hide FreeOk, Counts, Soles, Holders;
    ZeroWord();
    hide Linked, FrameOf, El0;
    var t := CutRoot(s, r);
    forall g | 0 <= g < t.top && t.role[g].Table? ensures TableOk(t, g) {
      assert TableOk(s, g);
      forall j | t.role[g].cut <= j < WORDS ensures EntryOk(t, g, j) {
        assert EntryOk(s, g, j);
      }
    }
  }

  lemma {:induction false} CutRootOk(s: S, r: nat)
    requires Inv(s) && IsTable(s, r, 1) && s.role[r].cut == WORDS
    ensures Inv(CutRoot(s, r)) && OthersSame(s, CutRoot(s, r), r)
  {
    hide FreeOk, Counts, Soles, Tables;
    hide Linked, FrameOf, El0, Ro;
    var t := CutRoot(s, r);
    RootSelf(s, r);
    FreeKept(s, t);
    CutRootTables(s, r);
    CountsKept(s, t);
    RolesViews(s, t, r);
  }
}
