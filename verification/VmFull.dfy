/** A run of forks fills a page's count, and the next one loses a holder. */
module VmFull {
  import opened Options
  import opened VmWords
  import opened VmState
  import opened VmWalk
  import opened VmSteps
  import opened VmLeaves
  import opened VmShare
  import opened VmGrowth
  import opened VmFork
  import opened VmBounds
  import opened VmKernel
  import opened VmRun

  /** A space with one page, at number 0. */
  ghost predicate OnePage(s: S, root: nat)
  {
    Whole(s, root) && forall v: nat :: v < VPNS ==> (ViewAt(s.mem, root, v).Mapped? <==> v == 0)
  }

  lemma {:induction false} OneEntry0(s: S, root: nat)
    requires Inv(s) && OnePage(s, root)
    ensures Linked(EntryAt(s.mem, root, 0)) && forall v: nat :: 0 < v < VPNS ==> EntryAt(s.mem, root, v) == 0
    ensures Pages(s.mem, root, VPNS) == 1
  {
    hide Inv, Whole, EntryAt, ViewAt;
    ZeroWord();
    hide Linked, El0;
    MappedIff(s, root, 0);
    forall v: nat | 0 < v < VPNS ensures EntryAt(s.mem, root, v) == 0 { NothingThere(s, root, v); }
    PagesNone(s.mem, root, 1, VPNS);
    PagesNext(s.mem, root, 0);
    NoPages(s.mem, root);
  }

  lemma {:induction false} NoPages(mem: seq<seq<nat>>, root: nat)
    ensures Pages(mem, root, 0) == 0
  {
  }

  lemma {:induction false} OnePageSame(s: S, t: S, root: nat)
    requires OnePage(s, root) && SameViews(s, t)
    ensures OnePage(t, root)
  {
    hide Whole, ViewAt;
    assert SpaceSame(s, t, root);
  }

  lemma {:induction false} OnePageSet(s: S, t: S, root: nat, x: View)
    requires Whole(s, root) && (forall v: nat :: v < VPNS ==> ViewAt(s.mem, root, v) == Unmapped)
    requires ViewSet(s, t, root, 0, x) && x.Mapped?
    ensures OnePage(t, root)
  {
    hide Whole, ViewAt;
    assert SpaceSet(s, t, root, root, 0, x);
  }

  lemma {:induction false} RoomForOne(s: S, root: nat)
    requires Inv(s) && OnePage(s, root) && Extra(s, FrameOf(EntryAt(s.mem, root, 0))) < 255
    ensures RoomFrom(s, root, 0)
  {
    hide Inv, OnePage, EntryAt, Extra;
    ZeroWord();
    hide Linked, FrameOf;
    OneEntry0(s, root);
  }

  /** The page's number and its count. */
  ghost predicate CountIs(s: S, root: nat, n: nat)
  {
    Extra(s, FrameOf(EntryAt(s.mem, root, 0))) == n
  }

  /** A space with one page that nobody else has. */
  method StartOne(k: Kernel) returns (root: nat)
    requires k.Valid() && Left(k.State()) >= 4 && forall p :: 0 <= p < |k.refs| ==> k.refs[p] == 0
    modifies k
    ensures k.Valid() && OnePage(k.State(), root) && CountIs(k.State(), root, 0)
    ensures k.slack == old(k.slack) && Left(k.State()) >= Left(old(k.State())) - 4
  {
    hide FreeOk, Tables, Counts, Soles, SameViews, ViewSet, Whole, ViewAt, EntryAt, Settled, SameLows, Grown, Kept,
        Exhausted;
    root := k.NewSpace();
    ghost var s := k.State();
    var page := k.AllocPage();
    ghost var t := k.State();
    EmptySame(s, t, root);
    RootIs(t, root);
    TakenSettled(s, t);
    NothingThere(t, root, 0);
    var ok := k.MapPage(root, 0, page, false);
    OnePageSet(t, k.State(), root, Mapped(t.mem[page], UserAttrs(false)));
  }

  lemma {:induction false} EmptySame(s: S, t: S, root: nat)
    requires SameViews(s, t) && Whole(s, root) && forall v: nat :: v < VPNS ==> ViewAt(s.mem, root, v) == Unmapped
    ensures Whole(t, root) && forall v: nat :: v < VPNS ==> ViewAt(t.mem, root, v) == Unmapped
  {
    hide Whole, ViewAt;
    assert SpaceSame(s, t, root);
  }

  /** 255 forks of it, each of which counts the page once more. */
  method ForkTo255(k: Kernel, root: nat)
    requires k.Valid() && OnePage(k.State(), root) && CountIs(k.State(), root, 0) && Left(k.State()) >= 3 * 255
    modifies k
    ensures k.Valid() && OnePage(k.State(), root) && CountIs(k.State(), root, 255)
    ensures k.slack == old(k.slack) && Left(k.State()) >= Left(old(k.State())) - 3 * 255
  {
    hide Inv, SameViews, Whole, ViewAt, EntryAt, Settled, RoomFrom, Extra, Exhausted, OnePage, Pages;
    for n := 0 to 255
      invariant k.Valid() && OnePage(k.State(), root) && CountIs(k.State(), root, n)
      invariant k.slack == old(k.slack) && Left(k.State()) >= Left(old(k.State())) - 3 * n
    {
      ghost var s := k.State();
      OneEntry0(s, root);
      RoomForOne(s, root);
      OneWhole(s, root);
      var child := k.Fork(root);
      OnePageSame(s, k.State(), root);
      Counted1(s, k.State(), root, n);
    }
  }

  lemma {:induction false} OneWhole(s: S, root: nat)
    requires OnePage(s, root)
    ensures Whole(s, root)
  {
  }

  lemma {:induction false} Counted1(s: S, t: S, root: nat, n: nat)
    requires Tally(s, t, root, VPNS) && Linked(EntryAt(s.mem, root, 0)) && CountIs(s, root, n)
    ensures CountIs(t, root, n + 1)
  {
    hide EntryAt, Linked, FrameOf, Extra;
    assert CountedAt(s, t, root, 0, 1);
  }

  /** The page at number 0 of `root`, with a full count, is in entry `(l, 0)`, and another space's entry
      `(c, 0)` is about to take it. */
  ghost predicate AboutToShare(s: S, l: nat, c: nat)
  {
    Leaf(s, l, 0) && Leaf(s, c, 0) && l != c && Linked(At(s.mem, l, 0)) && At(s.mem, c, 0) == 0
    && s.base <= FrameOf(At(s.mem, l, 0)) < s.top && s.slack[FrameOf(At(s.mem, l, 0))] == 0
    && Extra(s, FrameOf(At(s.mem, l, 0))) == 255
  }

  /** The next fork makes its space and the tables for the page. */
  method BeginNext(k: Kernel, root: nat) returns (l: nat, c: nat)
    requires k.Valid() && OnePage(k.State(), root) && CountIs(k.State(), root, 255) && Left(k.State()) >= 3
    requires forall p :: 0 <= p < |k.slack| ==> k.slack[p] == 0
    modifies k
    ensures k.Valid() && AboutToShare(k.State(), l, c)
  {
    hide FreeOk, Tables, Counts, Soles, SameViews, Whole, ViewAt, EntryAt, Settled, SameLows, Grown, Exhausted,
        OtherLows, LowAt;
    hide Linked, FrameOf, Extra, OnePage, CountIs;
    ghost var s := k.State();
    OneEntry0(s, root);
    OneWhole(s, root);
    var child := k.NewSpace();
    ghost var t := k.State();
    StillWhole(s, t, root);
    EntriesFor(s, t, root);
    NothingThere(t, child, 0);
    RootIs(t, child);
    c := k.LeafFor(child, 0);
    ghost var u := k.State();
    StillWhole(t, u, root);
    OthersLows(t, u, child, root);
    EntriesFor(t, u, root);
    RootIs(u, root);
    EntriesAt(s.mem, t.mem, root, 0);
    EntriesAt(t.mem, u.mem, root, 0);
    l := k.Walk(root, 0);
    EntryKept(t, u, child, 0, c);
    Together(s, u, root, child, l, c);
  }

  lemma {:induction false} OthersLows(s: S, t: S, child: nat, root: nat)
    requires OtherLows(s, t, child) && root != child && Whole(s, root)
    ensures SameLows(s, t, root)
  {
    hide SameLows, Whole;
  }

  lemma {:induction false} Together(s: S, u: S, root: nat, child: nat, l: nat, c: nat)
    requires CountIs(s, root, 255) && EntryAt(u.mem, root, 0) == EntryAt(s.mem, root, 0)
        && Linked(EntryAt(s.mem, root, 0))
    requires u.refs == s.refs && u.base == s.base && u.slack == s.slack && root != child
    requires LeafAt(u, root, 0, l) && LeafAt(u, child, 0, c) && EntryAt(u.mem, root, 0) == At(u.mem, l, 0)
    requires At(u.mem, c, 0) == 0 && forall p :: 0 <= p < |s.slack| ==> s.slack[p] == 0
    ensures AboutToShare(u, l, c)
  {
    hide FreeOk, Tables, Counts, Soles, LowAt, EntryAt;
    hide Linked, FrameOf;
    LeafPage(u, l, 0);
    ExtraSame(s, u);
  }

  /** On a machine with room for 257 small spaces: after 255 forks the count is full; the next fork shares
      the page once more without counting it; and when any 256 of the 257 holders have let go, the page is
      free and the last holder still has it. */
  method CountOverflows(memory: seq<seq<nat>>, first: nat, start: nat, end: nat) returns (k: Kernel, l: nat, c: nat)
    requires 0 < first && first + (end - first + 4095) / 4096 <= start && start + 772 <= end <= MAX_FRAME
    requires |memory| == end && forall f :: 0 <= f < end ==> |memory[f]| == WORDS
    ensures fresh(k) && k.Valid() && AboutToShare(k.State(), l, c)
    ensures var t := SharedInto(k.State(), l, c, 0); var p := FrameOf(At(k.mem, l, 0));
            Shape(t) && |Holders(t, p)| == 257
            && forall xs: seq<Slot> :: |xs| == 256 && SomeHolders(t, p, xs) ==>
                 LetGoAll(t, xs).role[p] == Free && |Holders(LetGoAll(t, xs), p)| == 1
  {
    hide FreeOk, Tables, Counts, Soles, Settled, OnePage, CountIs, Holders, LetGoAll, SomeHolders, SharedInto, Extra;
    k := new Kernel(memory, first, start, end);
    var root := StartOne(k);
    ForkTo255(k, root);
    l, c := BeginNext(k, root);
    ghost var s := k.State();
    ghost var t, p := SharedInto(s, l, c, 0), FrameOf(At(s.mem, l, 0));
    SharedMany(s, l, c, 0);
    forall xs: seq<Slot> | |xs| == 256 && SomeHolders(t, p, xs)
      ensures LetGoAll(t, xs).role[p] == Free && |Holders(LetGoAll(t, xs), p)| == 1
    {
      FullCountFrees(s, l, c, 0, xs);
    }
  }
}
