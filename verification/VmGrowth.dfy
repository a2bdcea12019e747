/** How views and tables carry over from call to call: what a growing space leaves in
    place, and steps one after another. */
module VmGrowth {
  import opened Options
  import opened VmWords
  import opened VmState
  import opened VmWalk
  import opened VmSteps
  import opened VmLinks
  import opened VmLeaves
  import opened VmShare

  /** No space has come. */
  ghost predicate NoNewRoots(s: S, t: S)
  {
    |t.role| == |s.role| && forall f :: 0 <= f < |t.role| && IsTable(t, f, 1) ==> IsTable(s, f, 1)
  }

  lemma {:induction false} NoNewThen(s: S, t: S, u: S)
    requires NoNewRoots(s, t) && NoNewRoots(t, u)
    ensures NoNewRoots(s, u)
  {
  }

  /** A table below another is no root. */
  lemma {:induction false} AttachedRoots(s: S, f: nat, i: nat, c: nat)
    requires Inv(s) && f < s.top && s.role[f].Table? && i < WORDS && c < s.top
    ensures NoNewRoots(s, Attached(s, f, i, c))
  {
    hide FreeOk, Counts, Soles, EntryOk, Follow;
    assert TableOk(s, f);
  }

  /** No space is half given back. */
  ghost predicate Settled(s: S)
  {
    forall f :: 0 <= f < |s.role| && s.role[f].Table? ==> s.role[f].cut == 0
  }

  /** Tables and pages in use stay what they are, and the same entries hold the same pages. */
  ghost predicate Grown(s: S, t: S)
  {
    t.base == s.base && t.top == s.top && t.refs == s.refs && t.slack == s.slack && |t.role| == |s.role|
    && (forall f :: 0 <= f < |s.role| && InUse(s.role[f]) ==> t.role[f] == s.role[f])
    && (forall f: nat, i: nat, p: nat :: Holds(t, f, i, p) <==> Holds(s, f, i, p))
    && (forall f: nat, i: nat, p: nat :: Holds(s, f, i, p) ==> At(t.mem, f, i) == At(s.mem, f, i))
  }

  /** Nothing is left to hand out. */
  ghost predicate Exhausted(s: S)
  {
    forall f :: 0 <= f < |s.role| ==> s.role[f] != Free
  }

  lemma {:induction false} KeptGrown(s: S, t: S)
    requires Kept(s, t)
    ensures Grown(s, t)
  {
    hide Holds;
    forall f: nat, i: nat, p: nat
      ensures (Holds(t, f, i, p) <==> Holds(s, f, i, p)) && (Holds(s, f, i, p) ==> At(t.mem, f, i) == At(s.mem, f, i)) {
      KeptHolds(s, t, f, i, p);
    }
  }

  lemma {:induction false} RootedGrown(s: S, c: nat)
    requires Blank(s, c)
    ensures Grown(s, Rooted(s, c))
  {
    hide Linked, FrameOf;
  }

  lemma {:induction false} AttachedGrown(s: S, f: nat, i: nat, c: nat)
    requires Inv(s) && f < s.top && s.role[f].Table? && s.role[f].level < 3 && s.role[f].cut <= i < WORDS
    requires Blank(s, c)
    ensures Grown(s, Attached(s, f, i, c))
  {
    hide Holds, FreeOk, Tables, Counts, Soles;
    var t := Attached(s, f, i, c);
    forall g: nat, j: nat, p: nat
      ensures (Holds(t, g, j, p) <==> Holds(s, g, j, p)) && (Holds(s, g, j, p) ==> At(t.mem, g, j) == At(s.mem, g, j)) {
      AttachedHolds(s, f, i, c, g, j, p);
    }
  }

  lemma {:induction false} GrownTrans(s: S, t: S, u: S)
    requires Grown(s, t) && Grown(t, u)
    ensures Grown(s, u)
  {
    hide Holds, At;
  }

  lemma {:induction false} SameTrans(s: S, t: S, u: S)
    requires SameViews(s, t) && SameViews(t, u)
    ensures SameViews(s, u)
  {
    hide Whole, ViewAt;
    forall r: nat ensures SpaceSame(s, u, r) {
      assert SpaceSame(s, t, r) && SpaceSame(t, u, r);
    }
  }

  lemma {:induction false} SameSelf(s: S)
    ensures SameViews(s, s)
  {
  }

  /** The tables of every whole space but that of `root` are where they were. */
  ghost predicate OtherLows(s: S, t: S, root: nat)
  {
    forall r: nat :: r != root && Whole(s, r) ==> SameLows(s, t, r)
  }

  lemma {:induction false} KeptLows(s: S, t: S, root: nat)
    requires Inv(s) && Kept(s, t)
    ensures OtherLows(s, t, root)
  {
    hide FreeOk, Tables, Counts, Soles, SameLows, Whole;
    forall r: nat | r != root && Whole(s, r) ensures SameLows(s, t, r) {
      LowsKept(s, t, r);
    }
  }

  lemma {:induction false} AttachedLows(s: S, f: nat, i: nat, c: nat)
    requires Inv(s) && f < s.top && s.role[f].Table? && s.role[f].level < 3 && s.role[f].cut <= i < WORDS
    requires Blank(s, c)
    ensures OtherLows(s, Attached(s, f, i, c), s.role[f].root)
  {
    hide FreeOk, Tables, Counts, Soles, SameLows, Whole;
    var t := Attached(s, f, i, c);
    forall r: nat | r != s.role[f].root && Whole(s, r) ensures SameLows(s, t, r) {
      LowsKept(s, t, r);
    }
  }

  lemma {:induction false} LowsTrans(s: S, t: S, u: S, root: nat)
    requires SameViews(s, t) && OtherLows(s, t, root) && OtherLows(t, u, root)
    ensures OtherLows(s, u, root)
  {
    hide Whole, ViewAt, Follow, LowAt;
    forall r: nat | r != root && Whole(s, r) ensures SameLows(s, u, r) {
      assert SpaceSame(s, t, r);
      assert SameLows(s, t, r) && SameLows(t, u, r);
    }
  }

  /** What growing a space leaves in place. */
  ghost predicate Extended(s: S, t: S, root: nat)
  {
    Grown(s, t) && SameViews(s, t) && OtherLows(s, t, root) && (Settled(s) ==> Settled(t))
  }

  lemma {:induction false} ExtendedTrans(s: S, t: S, u: S, root: nat)
    requires Extended(s, t, root) && Extended(t, u, root)
    ensures Extended(s, u, root)
  {
    hide Grown, SameViews, OtherLows, Settled;
    GrownTrans(s, t, u);
    SameTrans(s, t, u);
    LowsTrans(s, t, u, root);
  }

  lemma {:induction false} ExtendedSelf(s: S, root: nat)
    ensures Extended(s, s, root)
  {
  }

  lemma {:induction false} TakenExtends(s: S, t: S, root: nat)
    requires Inv(s) && Kept(s, t) && SameViews(s, t)
    ensures Extended(s, t, root)
  {
    hide Grown, SameViews, OtherLows;
    hide FreeOk, Tables, Counts, Soles;
    KeptGrown(s, t);
    KeptLows(s, t, root);
  }

  lemma {:induction false} AttachedExtends(s: S, f: nat, i: nat, c: nat)
    requires Inv(s) && f < s.top && s.role[f].Table? && s.role[f].level < 3 && s.role[f].cut <= i < WORDS
    requires At(s.mem, f, i) == 0 && Blank(s, c)
    ensures Extended(s, Attached(s, f, i, c), s.role[f].root)
  {
    hide Grown, SameViews, OtherLows;
    hide FreeOk, Tables, Counts, Soles;
    AttachedGrown(s, f, i, c);
    AttachedLows(s, f, i, c);
    AttachedViews(s, f, i, c);
  }

  /** A frame below an entry is no null pointer. */
  lemma {:induction false} ChildFrame(s: S, f: nat, i: nat, c: nat)
    requires Inv(s) && f < s.top && s.role[f].Table? && s.role[f].level < 3 && ChildOk(s, f, i, c)
    ensures c != 0
  {
    hide Tables, Counts, Soles, Threaded;
  }

  /** A page just handed out goes below an empty entry. */
  lemma {:induction false} AttachTaken(s: S, t: S, f: nat, i: nat, c: nat)
    requires Inv(s) && Inv(t) && Kept(s, t) && f < s.top && s.role[f].Table? && s.role[f].level < 3
    requires s.role[f].cut <= i < WORDS
    requires At(s.mem, f, i) == 0 && Blank(t, c)
    ensures t.role[f] == s.role[f] && At(t.mem, f, i) == 0
    ensures var u := Attached(t, f, i, c);
            Inv(u) && Extended(t, u, s.role[f].root) && Follow(u.mem, f, i) == Some(c)
  {
    hide Tables, Counts, Soles, FreeOk, Extended;
    hide Linked, FrameOf;
    AttachedOk(t, f, i, c);
    AttachedExtends(t, f, i, c);
  }

  /** The page number in an address: bits 12 to 38. */
  function Vpn(va: nat): (v: nat)
    ensures v < VPNS
  {
    va / 4096 % VPNS
  }

  lemma {:induction false} FreeNotRoot(s: S, r: nat, f: nat)
    requires Whole(s, r) && f < |s.role| && s.role[f] == Free
    ensures r != f
  {
  }

  lemma {:induction false} ExtendedSettled(s: S, t: S, root: nat)
    requires Extended(s, t, root) && Settled(s)
    ensures Settled(t)
  {
  }

  lemma {:induction false} ExtendedRole(s: S, t: S, root: nat, f: nat)
    requires Extended(s, t, root) && IsTable(s, f, 1)
    ensures IsTable(t, f, 1) && t.role[f] == s.role[f]
  {
  }

  // ---- views, step after step ----

  lemma {:induction false} ViewSetAfter(s: S, t: S, u: S, root: nat, vpn: nat, x: View)
    requires SameViews(s, t) && ViewSet(t, u, root, vpn, x)
    ensures ViewSet(s, u, root, vpn, x)
  {
    hide Whole, ViewAt;
    forall r: nat ensures SpaceSet(s, u, r, root, vpn, x) {
      assert SpaceSame(s, t, r) && SpaceSet(t, u, r, root, vpn, x);
    }
  }

  lemma {:induction false} ViewSetTwice(s: S, t: S, u: S, root: nat, vpn: nat, x: View, y: View)
    requires ViewSet(s, t, root, vpn, x) && ViewSet(t, u, root, vpn, y)
    ensures ViewSet(s, u, root, vpn, y)
  {
    hide Whole, ViewAt;
    forall r: nat ensures SpaceSet(s, u, r, root, vpn, y) {
      assert SpaceSet(s, t, r, root, vpn, x) && SpaceSet(t, u, r, root, vpn, y);
    }
  }

  lemma {:induction false} SettledWhole(s: S, root: nat)
    requires Settled(s) && IsTable(s, root, 1)
    ensures Whole(s, root)
  {
  }

  /** The third-level table an address of a space goes through, and its entry. */
  ghost predicate LeafAt(s: S, root: nat, vpn: nat, l: nat)
  {
    Leaf(s, l, vpn % WORDS) && s.role[l].root == root && VpnOf(s, l, vpn % WORDS) == vpn
    && LowAt(s.mem, root, vpn / WORDS) == Some(l)
  }

  lemma {:induction false} LeafReached(s: S, root: nat, vpn: nat, m: nat, l: nat)
    requires Inv(s) && Settled(s) && IsTable(s, root, 1) && vpn < VPNS
    requires IsTable(s, m, 2) && s.role[m].root == root && s.role[m].path == vpn / WORDS / WORDS
    requires ChildOk(s, m, vpn / WORDS % WORDS, l)
    ensures LeafAt(s, root, vpn, l)
  {
    hide FreeOk, Tables, Counts, Soles;
    hide Follow;
    PathWhole(vpn);
    PathWhole(vpn / WORDS);
    LowFound(s, l);
  }

  /** An entry empty before its space grew is empty still. */
  lemma {:induction false} EntryKept(s: S, t: S, root: nat, vpn: nat, l: nat)
    requires Inv(s) && Settled(s) && IsTable(s, root, 1) && vpn < VPNS && SameViews(s, t) && LeafAt(t, root, vpn, l)
    ensures EntryAt(s.mem, root, vpn) == 0 ==> At(t.mem, l, vpn % WORDS) == 0
  {
    hide FreeOk, Tables, Counts, Soles;
    ZeroWord();
    hide Linked, El0, FrameOf, Attrs;
    SettledWhole(s, root);
    assert SpaceSame(s, t, root);
    assert ViewAt(t.mem, root, vpn) == ViewAt(s.mem, root, vpn);
    EntryHeld(t, root, vpn);
  }

  lemma {:induction false} ChildEmpty(s: S, b: S, root: nat, vpn: nat, l: nat)
    requires Inv(s) && Whole(s, root) && vpn < VPNS && SameViews(s, b) && LeafAt(b, root, vpn, l)
    requires EntryAt(s.mem, root, vpn) == 0
    ensures At(b.mem, l, vpn % WORDS) == 0 && Whole(b, root)
  {
    hide FreeOk, Tables, Counts, Soles;
    ZeroWord();
    hide Linked, El0, FrameOf, Attrs;
    assert SpaceSame(s, b, root);
    assert ViewAt(b.mem, root, vpn) == ViewAt(s.mem, root, vpn);
    EntryHeld(b, root, vpn);
  }

  lemma {:induction false} PutTwice(mem: seq<seq<nat>>, f: nat, i: nat, w: nat)
    requires f < |mem| && i < |mem[f]|
    ensures PutWord(PutWord(mem, f, i, 0), f, i, w) == PutWord(mem, f, i, w)
  {
    assert mem[f][i := 0][i := w] == mem[f][i := w];
  }

  /** An entry that may be in use is taken over by a new page. */
  ghost function MapOver(s: S, l: nat, i: nat, p: nat, a: nat): S
    requires Leaf(s, l, i) && Shape(s) && p < s.top && (Linked(At(s.mem, l, i)) ==> FrameOf(At(s.mem, l, i)) < s.top)
  {
    s.(mem := PutWord(s.mem, l, i, PageDesc(p, a)), role := s.role[p := Data(VpnOf(s, l, i))],
       slack := if Linked(At(s.mem, l, i)) then Dropped(s, l, i).slack else s.slack)
  }

  lemma {:induction false} MapOverOk(s: S, l: nat, i: nat, p: nat, a: nat)
    requires Leaf(s, l, i) && s.base <= p < s.top && s.role[p] == Held && UserPage(a) && Attrs(a) == a
    ensures Linked(At(s.mem, l, i)) ==> FrameOf(At(s.mem, l, i)) < s.top
    ensures var t := MapOver(s, l, i, p, a);
            Inv(t) && ViewSet(s, t, s.role[l].root, VpnOf(s, l, i), Mapped(s.mem[p], a))
  {
    hide FreeOk, Tables, Counts, Soles, ViewSet;
    ZeroWord();
    hide Linked, El0, FrameOf, Attrs, PageDesc;
    StepOk(s, l, i);
    if Linked(At(s.mem, l, i)) {
      LeafPage(s, l, i);
      DroppedOk(s, l, i);
      var t := Dropped(s, l, i);
      MapNewOk(t, l, i, p, a);
      PutTwice(s.mem, l, i, PageDesc(p, a));
      assert MapNew(t, l, i, p, a) == MapOver(s, l, i, p, a);
      ViewSetTwice(s, t, MapNew(t, l, i, p, a), s.role[l].root, VpnOf(s, l, i), Unmapped, Mapped(s.mem[p], a));
    } else {
      MapNewOk(s, l, i, p, a);
      assert MapNew(s, l, i, p, a) == MapOver(s, l, i, p, a);
    }
  }

  // ---- the contents of a page outside every space ----

  ghost function Filled(s: S, f: nat, words: seq<nat>): S
    requires f < |s.mem|
  {
    s.(mem := s.mem[f := words])
  }

  lemma {:induction false} FilledOk(s: S, f: nat, words: seq<nat>)
    requires Inv(s) && f < s.top && s.role[f] == Held && |words| == WORDS
    ensures Inv(Filled(s, f, words)) && SameViews(s, Filled(s, f, words)) && Kept(s, Filled(s, f, words))
  {
    hide FreeOk, Tables, Counts, Soles;
    var t := Filled(s, f, words);
    FreeKept(s, t);
    KeptInv(s, t);
    KeptViews(s, t);
  }

  // ---- a write fault ----

  /** Through this entry a program may write. */
  predicate Writable(w: nat)
  {
    UserPage(w) && !Ro(w)
  }

  lemma {:induction false} LeafWalked(s: S, root: nat, vpn: nat)
    requires Inv(s) && Settled(s) && IsTable(s, root, 1) && vpn < VPNS && LowAt(s.mem, root, vpn / WORDS).Some?
    ensures LeafAt(s, root, vpn, LowAt(s.mem, root, vpn / WORDS).value)
  {
    hide FreeOk, Tables, Counts, Soles;
    hide LowAt;
    SettledWhole(s, root);
    VpnPath(vpn);
    LowOk(s, root, vpn / WORDS);
    PathWhole(vpn);
  }

  /** A space has the same leaf entries but for one. */
  ghost predicate OneEntry(m: seq<seq<nat>>, n: seq<seq<nat>>, root: nat, vpn: nat)
  {
    forall v: nat :: v < VPNS && v != vpn ==> EntryAt(n, root, v) == EntryAt(m, root, v)
  }

  lemma {:induction false} PutEntry(s: S, root: nat, vpn: nat, l: nat, w: nat)
    requires LeafAt(s, root, vpn, l) && Whole(s, root) && vpn < VPNS && l < |s.mem| && |s.mem[l]| == WORDS
    ensures EntryAt(PutWord(s.mem, l, vpn % WORDS, w), root, vpn) == w
    ensures OneEntry(s.mem, PutWord(s.mem, l, vpn % WORDS, w), root, vpn)
  {
    hide FreeOk, Tables, Counts, Soles;
    hide EntryAt, Whole, LowAt;
    forall v: nat | v < VPNS
      ensures EntryAt(PutWord(s.mem, l, vpn % WORDS, w), root, v) == if v == vpn then w else EntryAt(s.mem, root, v) {
      LeafEntry(s, l, vpn % WORDS, w, root, v);
    }
  }

  /** The entry after permission has come back. */
  lemma {:induction false} ReopenedEntry(s: S, root: nat, vpn: nat, l: nat)
    requires LeafAt(s, root, vpn, l) && Whole(s, root) && vpn < VPNS && UserPage(At(s.mem, l, vpn % WORDS))
    ensures Writable(EntryAt(Reopened(s, l, vpn % WORDS).mem, root, vpn))
    ensures OneEntry(s.mem, Reopened(s, l, vpn % WORDS).mem, root, vpn)
  {
    hide FreeOk, Tables, Counts, Soles, OneEntry, EntryAt, LowAt;
    ClearRoFields(At(s.mem, l, vpn % WORDS));
    hide Linked, El0, Ro, ClearRo, FrameOf, Attrs;
    PutEntry(s, root, vpn, l, ClearRo(At(s.mem, l, vpn % WORDS)));
  }

  /** The entry after a copy has been made. */
  lemma {:induction false} CopiedEntry(s: S, root: nat, vpn: nat, l: nat, f: nat)
    requires LeafAt(s, root, vpn, l) && Whole(s, root) && vpn < VPNS && UserPage(At(s.mem, l, vpn % WORDS)) && f < s.top
    ensures var m := PutWord(s.mem, l, vpn % WORDS, PageDesc(f, Attrs(At(s.mem, l, vpn % WORDS))));
            Writable(EntryAt(m, root, vpn)) && OneEntry(s.mem, m, root, vpn)
  {
    hide FreeOk, Tables, Counts, Soles, OneEntry, EntryAt, LowAt;
    PageFields(At(s.mem, l, vpn % WORDS), f);
    hide Linked, El0, Ro, PageDesc, FrameOf, Attrs;
    PutEntry(s, root, vpn, l, PageDesc(f, Attrs(At(s.mem, l, vpn % WORDS))));
  }

  /** A new page is handed out and filled while a leaf entry stays as it is. */
  lemma {:induction false} LeafStays(s: S, t: S, root: nat, vpn: nat, l: nat)
    requires LeafAt(s, root, vpn, l) && Inv(t) && Kept(s, t) && Whole(s, root) && SameViews(s, t) && vpn < VPNS
    ensures LeafAt(t, root, vpn, l) && At(t.mem, l, vpn % WORDS) == At(s.mem, l, vpn % WORDS) && Whole(t, root)
  {
    hide FreeOk, Tables, Counts, Soles;
    hide Linked, FrameOf, LowAt;
    assert SpaceSame(s, t, root);
    LowFound(t, l);
    PathParts(s.role[l].path, vpn % WORDS);
  }

  lemma {:induction false} LeafPlain(s: S, root: nat, vpn: nat, l: nat)
    requires LeafAt(s, root, vpn, l)
    ensures Leaf(s, l, vpn % WORDS) && l < s.top && |s.mem| == s.top && |s.mem[l]| == WORDS
    ensures VpnOf(s, l, vpn % WORDS) == vpn
  {
  }

  lemma {:induction false} LeafFrame(s: S, root: nat, vpn: nat, l: nat)
    requires LeafAt(s, root, vpn, l)
    ensures l != 0
  {
    hide Tables, Counts, Soles, Threaded;
  }

  /** The address leads to a user page without write permission. */
  ghost predicate Faulting(mem: seq<seq<nat>>, root: nat, vpn: nat)
  {
    var w := EntryAt(mem, root, vpn);
    UserPage(w) && Ro(w)
  }

  lemma {:induction false} SettledKept(s: S, t: S)
    requires Settled(s) && |t.role| == |s.role|
    requires forall f :: 0 <= f < |s.role| && t.role[f].Table? ==> t.role[f] == s.role[f]
    ensures Settled(t)
  {
  }

  /** A page is handed out and filled with a copy of the one behind a shared entry. */
  lemma {:induction false} CopyFault(s: S, t: S, u: S, root: nat, vpn: nat, l: nat, f: nat)
    requires LeafAt(s, root, vpn, l) && Whole(s, root) && vpn < VPNS && Linked(At(s.mem, l, vpn % WORDS))
    requires FrameOf(At(s.mem, l, vpn % WORDS)) < |s.mem|
    requires Inv(t) && Kept(s, t) && SameViews(s, t) && Blank(t, f)
    requires u == Filled(t, f, s.mem[FrameOf(At(s.mem, l, vpn % WORDS))]) && Inv(u) && SameViews(t, u) && Kept(t, u)
    ensures LeafAt(u, root, vpn, l) && At(u.mem, l, vpn % WORDS) == At(s.mem, l, vpn % WORDS) && Whole(u, root)
    ensures forall v: nat :: v < VPNS ==> EntryAt(u.mem, root, v) == EntryAt(s.mem, root, v)
    ensures SameViews(s, u) && u.mem[FrameOf(At(s.mem, l, vpn % WORDS))] == s.mem[FrameOf(At(s.mem, l, vpn % WORDS))]
  {
    hide FreeOk, Tables, Counts, Soles, SameViews, Whole, LowAt, EntryAt;
    hide Linked, El0, Ro, FrameOf, Attrs, PageDesc;
    LeafPage(s, l, vpn % WORDS);
    LeafStays(s, t, root, vpn, l);
    LeafStays(t, u, root, vpn, l);
    SameTrans(s, t, u);
    forall v: nat | v < VPNS ensures EntryAt(u.mem, root, v) == EntryAt(s.mem, root, v) {
      WalkSame(s, u.mem, root, v);
    }
  }

  lemma {:induction false} KeptPage(s: S, t: S, p: nat, c: nat)
    requires Kept(s, t) && p < |s.role| && s.role[p].Data? && Blank(t, c)
    ensures t.mem[p] == s.mem[p] && t.role[p] == s.role[p] && c != p
  {
  }

  /** Entries stay put through two steps, one of which changes a single one. */
  lemma {:induction false} OneEntryAfter(m: seq<seq<nat>>, n: seq<seq<nat>>, o: seq<seq<nat>>, root: nat, vpn: nat)
    requires forall v: nat :: v < VPNS ==> EntryAt(n, root, v) == EntryAt(m, root, v)
    requires OneEntry(n, o, root, vpn)
    ensures OneEntry(m, o, root, vpn)
  {
    hide EntryAt;
  }

  /** What a program sees through a user entry. */
  lemma {:induction false} EntrySeen(s: S, root: nat, vpn: nat)
    requires Inv(s) && Whole(s, root) && vpn < VPNS && UserPage(EntryAt(s.mem, root, vpn))
    ensures FrameOf(EntryAt(s.mem, root, vpn)) < s.top
    ensures ViewAt(s.mem, root, vpn)
        == Mapped(s.mem[FrameOf(EntryAt(s.mem, root, vpn))], Attrs(EntryAt(s.mem, root, vpn)))
  {
    hide FreeOk, Tables, Counts, Soles, Holds, LowAt, EntryAt;
    ZeroWord();
    hide Linked, El0, FrameOf, Attrs;
    EntryHeld(s, root, vpn);
  }

  /** Whoever is seen as mapped is reached through a user entry, and the other way round. */
  lemma {:induction false} MappedIff(s: S, root: nat, vpn: nat)
    requires Inv(s) && Whole(s, root) && vpn < VPNS
    ensures ViewAt(s.mem, root, vpn).Mapped? <==> UserPage(EntryAt(s.mem, root, vpn))
  {
    hide FreeOk, Tables, Counts, Soles, Holds, LowAt, EntryAt;
    hide Linked, El0, FrameOf, Attrs;
    if UserPage(EntryAt(s.mem, root, vpn)) { EntrySeen(s, root, vpn); }
  }

  /** The word in its page an address names. */
  function WordOf(va: nat): (i: nat)
    ensures i < WORDS
  {
    va / 8 % WORDS
  }

  /** A page with one word replaced. */
  function Put(x: View, i: nat, w: nat): View
    requires x.Mapped? && i < |x.words|
  {
    Mapped(x.words[i := w], x.attrs)
  }

  lemma {:induction false} RootIs(s: S, root: nat)
    requires Whole(s, root) && Inv(s)
    ensures IsTable(s, root, 1) && root != 0
  {
    hide Tables, Counts, Soles, Threaded;
  }

  lemma {:induction false} StillWhole(s: S, t: S, root: nat)
    requires SameViews(s, t) && Whole(s, root)
    ensures Whole(t, root) && forall v: nat :: v < VPNS ==> ViewAt(t.mem, root, v) == ViewAt(s.mem, root, v)
  {
    hide Whole, ViewAt;
    assert SpaceSame(s, t, root);
  }

  /** A store after a fault that nobody noticed. */
  lemma {:induction false} StoreSeen(s: S, t: S, u: S, root: nat, vpn: nat, i: nat, x: nat)
    requires SameViews(s, t) && Whole(s, root) && vpn < VPNS && i < WORDS
    requires ViewAt(t.mem, root, vpn).Mapped? && |ViewAt(t.mem, root, vpn).words| == WORDS
    requires ViewSet(t, u, root, vpn, Put(ViewAt(t.mem, root, vpn), i, x))
    ensures ViewAt(s.mem, root, vpn) == ViewAt(t.mem, root, vpn)
    ensures ViewSet(s, u, root, vpn, Put(ViewAt(s.mem, root, vpn), i, x))
  {
    hide ViewSet, SameViews, Whole, ViewAt;
    StillWhole(s, t, root);
    ViewSetAfter(s, t, u, root, vpn, Put(ViewAt(t.mem, root, vpn), i, x));
  }

  /** `USER_LIMIT`: the low half is 512 GiB. */
  const USER_LIMIT: nat := 0x80_0000_0000

  lemma {:induction false} PageNumber(p: nat, va: nat, len: nat)
    requires p * 4096 < va + len <= USER_LIMIT
    ensures p < VPNS && Vpn(p * 4096) == p
  {
    assert p * 4096 / 4096 == p;
  }

  lemma {:induction false} OneEntrySelf(m: seq<seq<nat>>, root: nat, p: nat)
    ensures OneEntry(m, m, root, p)
  {
  }

  lemma {:induction false} EntriesBut(m: seq<seq<nat>>, n: seq<seq<nat>>, root: nat, p: nat)
    requires OneEntry(m, n, root, p)
    ensures forall v: nat :: v < VPNS && v != p ==> EntryAt(n, root, v) == EntryAt(m, root, v)
  {
    hide EntryAt;
  }

  /** Before there is any space. */
  lemma {:induction false} StartOk(s: S)
    requires 0 < s.base <= s.next <= s.top <= MAX_FRAME && |s.mem| == s.top
    requires forall f :: 0 <= f < s.top ==> |s.mem[f]| == WORDS
    requires s.refs == seq(s.top - s.base, i => 0) && s.slack == seq(s.top, i => 0) && s.head == 0 && s.free == []
    requires |s.role| == s.top && forall f :: 0 <= f < s.top ==> s.role[f] == if f < s.next then Held else Free
    ensures Inv(s) && Settled(s)
  {
    assert forall f: nat, i: nat, p: nat :: !Holds(s, f, i, p);
    hide Holds;
  }
}
