/** One entry of a fork at a time: how far the child has come to see what its parent sees. */
module VmFork {
  import opened Options
  import opened VmWords
  import opened VmState
  import opened VmWalk
  import opened VmSteps
  import opened VmLinks
  import opened VmLeaves
  import opened VmShare
  import opened VmTeardown
  import opened VmGrowth

  /** A space has the same leaf entries. */
  ghost predicate SameEntries(m: seq<seq<nat>>, n: seq<seq<nat>>, root: nat)
  {
    forall v: nat :: v < VPNS ==> EntryAt(n, root, v) == EntryAt(m, root, v)
  }

  /** One page of `src` has been shared into `child`, or, if not `ok`, there was no page
      left for the child's tables. */
  ghost predicate CopyStep(s: S, t: S, src: nat, child: nat, vpn: nat, ok: bool)
  {
    OthersSame(s, t, child)
    && Whole(t, child)
    && (forall v: nat :: v < VPNS ==>
        ViewAt(t.mem, child, v) == if ok && v == vpn then ViewAt(s.mem, src, vpn) else ViewAt(s.mem, child, v))
    && SameLows(s, t, src)
    && OneEntry(s.mem, t.mem, src, vpn)
    && CountsOff(s, t, vpn)
    && (ok ==> t.slack == s.slack)
  }

  /** Only pages with number `vpn` may have changed their count. */
  ghost predicate CountsOff(s: S, t: S, vpn: nat)
  {
    t.top == s.top && t.base == s.base && |t.role| == |s.role|
    && forall q :: 0 <= q < |s.role| && s.role[q].Data? ==>
        t.role[q] == s.role[q] && (s.role[q].vpn != vpn ==> Extra(t, q) == Extra(s, q))
  }

  // ---- the page is pinned ----

  lemma {:induction false} ForkPinned(s: S, src: nat, vpn: nat, l: nat)
    requires LeafAt(s, src, vpn, l) && Settled(s) && Whole(s, src) && vpn < VPNS && Linked(At(s.mem, l, vpn % WORDS))
    requires s.base <= FrameOf(At(s.mem, l, vpn % WORDS)) < s.top
    requires Extra(s, FrameOf(At(s.mem, l, vpn % WORDS))) < 255
    ensures var a := Pinned(s, l, vpn % WORDS); var w := At(s.mem, l, vpn % WORDS);
            Inv(a) && Settled(a) && SameViews(s, a) && AllRo(a, FrameOf(w)) && a.slack[FrameOf(w)] > 0
            && SameLows(s, a, src) && OneEntry(s.mem, a.mem, src, vpn) && CountsOff(s, a, vpn)
            && EntryAt(a.mem, src, vpn) == SetRo(w)
  {
    hide FreeOk, Tables, Counts, Soles, SameViews, AllRo, SameLows, OneEntry, EntryAt, LowAt, Holds, Holders;
    hide Linked, El0, Ro, FrameOf, Attrs, SetRo;
    var i := vpn % WORDS;
    var w := At(s.mem, l, i);
    LeafPage(s, l, i);
    PinnedOk(s, l, i);
    LeafLows(s, l, i, SetRo(w), Pinned(s, l, i), src);
    PutEntry(s, src, vpn, l, SetRo(w));
  }

  // ---- tables for the child ----

  lemma {:induction false} GrownEntry(a: S, b: S, root: nat, v: nat)
    requires Inv(a) && Inv(b) && Grown(a, b) && Whole(a, root) && Whole(b, root) && SameLows(a, b, root) && v < VPNS
    ensures EntryAt(b.mem, root, v) == EntryAt(a.mem, root, v)
  {
    hide FreeOk, Tables, Counts, Soles, LowAt;
    ZeroWord();
    hide Linked, El0, FrameOf;
    VpnPath(v);
    assert LowAt(b.mem, root, v / WORDS) == LowAt(a.mem, root, v / WORDS);
    EntryHeld(a, root, v);
    EntryHeld(b, root, v);
  }

  lemma {:induction false} ForkGrown(a: S, b: S, src: nat, child: nat, p: nat)
    requires Inv(a) && Inv(b) && Extended(a, b, child) && src != child && Whole(a, src) && p < a.top && AllRo(a, p)
    ensures Whole(b, src) && SameLows(a, b, src) && SameEntries(a.mem, b.mem, src) && AllRo(b, p)
    ensures a.role[p].Data? ==> p < |b.role| && b.role[p] == a.role[p]
    ensures forall vpn: nat :: CountsOff(a, b, vpn)
  {
    hide FreeOk, Tables, Counts, Soles, EntryAt, LowAt, Holds, SameLows, Whole, ViewAt;
    hide Linked, El0, Ro, FrameOf;
    StillWhole(a, b, src);
    forall v: nat | v < VPNS ensures EntryAt(b.mem, src, v) == EntryAt(a.mem, src, v) {
      GrownEntry(a, b, src, v);
    }
  }

  // ---- the child's entry ----

  lemma {:induction false} ForkJoined(b: S, src: nat, child: nat, vpn: nat, l: nat, w: nat)
    requires LeafAt(b, child, vpn, l) && Settled(b) && src != child && Whole(b, src) && Whole(b, child) && vpn < VPNS
    requires At(b.mem, l, vpn % WORDS) == 0 && EntryAt(b.mem, src, vpn) == w && UserPage(w) && Ro(w)
    requires FrameOf(w) < b.top && AllRo(b, FrameOf(w)) && b.slack[FrameOf(w)] > 0
    ensures var c := JoinedIn(b, l, vpn % WORDS, w);
            Inv(c) && Settled(c) && ViewSet(b, c, child, vpn, ViewAt(b.mem, src, vpn))
            && SameLows(b, c, src) && SameEntries(b.mem, c.mem, src) && CountsOff(b, c, vpn)
  {
    hide FreeOk, Tables, Counts, Soles, AllRo, SameLows, ViewSet, ViewAt, EntryAt, LowAt, Holds, Holders, Whole;
    ZeroWord();
    hide Linked, El0, Ro, FrameOf, Attrs;
    var i := vpn % WORDS;
    EntryHeld(b, src, vpn);
    EntrySeen(b, src, vpn);
    JoinedOk(b, l, i, w);
    LeafLows(b, l, i, w, JoinedIn(b, l, i, w), src);
    forall v: nat | v < VPNS ensures EntryAt(PutWord(b.mem, l, i, w), src, v) == EntryAt(b.mem, src, v) {
      LeafEntry(b, l, i, w, src, v);
    }
  }

  // ---- put together ----

  lemma {:induction false} LowsThen(s: S, t: S, u: S, root: nat)
    requires SameLows(s, t, root) && SameLows(t, u, root)
    ensures SameLows(s, u, root)
  {
    hide LowAt, Follow;
  }

  lemma {:induction false} EntryThen(m: seq<seq<nat>>, n: seq<seq<nat>>, o: seq<seq<nat>>, root: nat, vpn: nat)
    requires OneEntry(m, n, root, vpn) && SameEntries(n, o, root)
    ensures OneEntry(m, o, root, vpn)
  {
    hide EntryAt;
  }

  lemma {:induction false} EntriesAt(m: seq<seq<nat>>, n: seq<seq<nat>>, root: nat, v: nat)
    requires SameEntries(m, n, root) && v < VPNS
    ensures EntryAt(n, root, v) == EntryAt(m, root, v)
  {
    hide EntryAt;
  }

  lemma {:induction false} OffThen(s: S, t: S, u: S, vpn: nat)
    requires CountsOff(s, t, vpn) && CountsOff(t, u, vpn)
    ensures CountsOff(s, u, vpn)
  {
    hide Extra;
  }

  /** Pinned, and the child's tables grown: what a failure leaves. */
  lemma {:induction false} ForkHalf(s: S, a: S, b: S, src: nat, child: nat, vpn: nat)
    requires SameViews(s, a) && SameLows(s, a, src) && OneEntry(s.mem, a.mem, src, vpn) && CountsOff(s, a, vpn)
    requires SameViews(a, b) && SameLows(a, b, src) && SameEntries(a.mem, b.mem, src) && CountsOff(a, b, vpn)
    requires Whole(s, child)
    ensures SameViews(s, b) && CopyStep(s, b, src, child, vpn, false)
  {
    hide SameViews, SameLows, OneEntry, SameEntries, CountsOff, Whole, ViewAt;
    SameTrans(s, a, b);
    LowsThen(s, a, b, src);
    EntryThen(s.mem, a.mem, b.mem, src, vpn);
    OffThen(s, a, b, vpn);
    StillWhole(s, b, child);
    forall r: nat | r != child ensures SpaceSame(s, b, r) { SameAt(s, b, r); }
  }

  lemma {:induction false} SameAt(s: S, t: S, r: nat)
    requires SameViews(s, t)
    ensures SpaceSame(s, t, r)
  {
  }

  lemma {:induction false} ForkWhole(s: S, b: S, c: S, src: nat, child: nat, vpn: nat)
    requires SameViews(s, b) && CopyStep(s, b, src, child, vpn, false) && Whole(s, child) && Whole(s, src) && vpn < VPNS
    requires ViewSet(b, c, child, vpn, ViewAt(b.mem, src, vpn))
    requires SameLows(b, c, src) && SameEntries(b.mem, c.mem, src) && CountsOff(b, c, vpn) && c.slack == s.slack
    ensures CopyStep(s, c, src, child, vpn, true)
  {
    hide SameViews, SameLows, OneEntry, SameEntries, CountsOff, Whole, ViewAt;
    LowsThen(s, b, c, src);
    EntryThen(s.mem, b.mem, c.mem, src, vpn);
    OffThen(s, b, c, vpn);
    StillWhole(s, b, src);
    StillWhole(s, b, child);
    assert SpaceSet(b, c, child, child, vpn, ViewAt(b.mem, src, vpn));
    forall r: nat | r != child ensures SpaceSame(s, c, r) {
      assert SpaceSame(s, b, r);
      assert SpaceSet(b, c, r, child, vpn, ViewAt(b.mem, src, vpn));
    }
  }

  // ---- how far a fork has come ----

  /** Every page from `pos` on can be counted once more. */
  ghost predicate RoomFrom(s: S, src: nat, pos: nat)
  {
    forall v: nat :: pos <= v < VPNS && Linked(EntryAt(s.mem, src, v)) ==>
        Extra(s, FrameOf(EntryAt(s.mem, src, v))) < 255
  }

  /** The child sees what its parent saw in the pages below `pos`, and nothing above. */
  ghost predicate SeenTo(s0: S, s: S, src: nat, child: nat, pos: nat)
  {
    forall v: nat :: v < VPNS ==> ViewAt(s.mem, child, v) == if v < pos then ViewAt(s0.mem, src, v) else Unmapped
  }

  ghost predicate EntriesFrom(s0: S, s: S, src: nat, pos: nat)
  {
    forall v: nat :: pos <= v < VPNS ==> EntryAt(s.mem, src, v) == EntryAt(s0.mem, src, v)
  }

  ghost predicate Copying(s0: S, s: S, src: nat, child: nat, pos: nat)
  {
    src != child && Inv(s0) && Whole(s0, src) && Inv(s) && Settled(s) && Whole(s, src) && Whole(s, child)
    && OthersSame(s0, s, child)
    && SeenTo(s0, s, src, child, pos)
    && SameLows(s0, s, src)
    && EntriesFrom(s0, s, src, pos)
    && RoomFrom(s, src, pos)
    && s.slack == s0.slack
  }

  /** Empty entries need no copying. */
  lemma {:induction false} CopyingSkip(s0: S, s: S, src: nat, child: nat, pos: nat, to: nat)
    requires Copying(s0, s, src, child, pos) && pos <= to <= VPNS
    requires forall v: nat :: pos <= v < to ==> EntryAt(s0.mem, src, v) == 0
    ensures Copying(s0, s, src, child, to)
  {
    hide Inv, Settled, OthersSame, SameLows, EntryAt, Whole;
    ZeroWord();
    hide Linked, El0, FrameOf, Attrs;
  }

  lemma {:induction false} OthersWhole(s: S, t: S, child: nat, r: nat)
    requires OthersSame(s, t, child) && r != child && Whole(s, r)
    ensures Whole(t, r) && forall v: nat :: v < VPNS ==> ViewAt(t.mem, r, v) == ViewAt(s.mem, r, v)
  {
    hide Whole, ViewAt;
    assert SpaceSame(s, t, r);
  }

  /** Sharing a page leaves room for the pages after it: they have other numbers. */
  lemma {:induction false} RoomAfter(s: S, t: S, src: nat, vpn: nat)
    requires Inv(s) && Whole(s, src) && RoomFrom(s, src, vpn) && OneEntry(s.mem, t.mem, src, vpn)
    requires CountsOff(s, t, vpn)
    ensures RoomFrom(t, src, vpn + 1)
  {
    hide FreeOk, Tables, Counts, Soles, EntryAt, LowAt, Holds, Whole;
    ZeroWord();
    hide Linked, El0, FrameOf;
    forall v: nat | vpn + 1 <= v < VPNS && Linked(EntryAt(t.mem, src, v))
      ensures Extra(t, FrameOf(EntryAt(t.mem, src, v))) < 255 {
      EntryHeld(s, src, v);
    }
  }

  lemma {:induction false} CopyingStep(s0: S, s: S, t: S, src: nat, child: nat, vpn: nat)
    requires Copying(s0, s, src, child, vpn) && vpn < VPNS && CopyStep(s, t, src, child, vpn, true) && Inv(t)
    requires Settled(t)
    ensures Copying(s0, t, src, child, vpn + 1)
  {
    hide Inv, Settled, OthersSame, SameLows, EntryAt, Whole, ViewAt, CountsOff, RoomFrom;
    OthersThen(s0, s, t, child);
    OthersWhole(s0, s, child, src);
    OthersWhole(s, t, child, src);
    LowsThen(s0, s, t, src);
    RoomAfter(s, t, src, vpn);
  }

  /** Nothing is mapped below a missing table. */
  lemma {:induction false} NoMid(s: S, src: nat, i1: nat, v: nat)
    requires i1 < WORDS && Follow(s.mem, src, i1) == None && i1 * (WORDS * WORDS) <= v < (i1 + 1) * (WORDS * WORDS)
    ensures EntryAt(s.mem, src, v) == 0
  {
    hide Follow;
    assert v / WORDS / WORDS == i1;
  }

  lemma {:induction false} NoLow(s: S, src: nat, path: nat, v: nat)
    requires LowAt(s.mem, src, path) == None && path * WORDS <= v < (path + 1) * WORDS
    ensures EntryAt(s.mem, src, v) == 0
  {
    hide LowAt;
    assert v / WORDS == path;
  }

  /** The start: an empty child. */
  lemma {:induction false} CopyingStart(s0: S, s: S, src: nat, child: nat)
    requires Inv(s0) && Settled(s0) && Inv(s) && Settled(s) && Whole(s0, src) && SameViews(s0, s) && Whole(s, child)
    requires child < |s0.role| && s0.role[child] == Free && SameLows(s0, s, src) && SameEntries(s0.mem, s.mem, src)
    requires forall v: nat :: v < VPNS ==> ViewAt(s.mem, child, v) == Unmapped
    requires RoomFrom(s0, src, 0) && s.refs == s0.refs && s.base == s0.base && s.slack == s0.slack
    ensures Copying(s0, s, src, child, 0)
  {
    FreeNotRoot(s0, src, child);
    hide Inv, Settled, SameLows, EntryAt, Whole, ViewAt, Extra, Linked, FrameOf;
    StillWhole(s0, s, src);
    ExtraSame(s0, s);
  }

  lemma {:induction false} ExtraSame(s: S, t: S)
    requires t.refs == s.refs && t.base == s.base
    ensures forall p: nat :: Extra(t, p) == Extra(s, p)
  {
  }

  /** What a fork that fails leaves is a space nobody knew. */
  lemma {:induction false} OrphanUnseen(s: S, t: S, child: nat)
    requires OthersSame(s, t, child) && child < |s.role| && s.role[child] == Free
    ensures SameViews(s, t)
  {
    hide ViewAt;
    forall r: nat ensures SpaceSame(s, t, r) {
    }
  }

  /** What the next entry of a fork's source is, and what it allows. */
  lemma {:induction false} CopyingEntry(s0: S, s: S, src: nat, child: nat, vpn: nat, l: nat)
    requires Copying(s0, s, src, child, vpn) && vpn < VPNS && LowAt(s0.mem, src, vpn / WORDS) == Some(l)
    ensures LeafAt(s, src, vpn, l) && EntryAt(s0.mem, src, vpn) == At(s.mem, l, vpn % WORDS)
    ensures EntryAt(s.mem, child, vpn) == 0
    ensures Linked(At(s.mem, l, vpn % WORDS)) ==> Extra(s, FrameOf(At(s.mem, l, vpn % WORDS))) < 255
    ensures !Linked(At(s.mem, l, vpn % WORDS)) ==> At(s.mem, l, vpn % WORDS) == 0
  {
    hide FreeOk, Tables, Counts, Soles, OthersSame, Holds, Whole, LeafAt;
    ZeroWord();
    hide Linked, El0, FrameOf, Attrs, LowAt;
    VpnPath(vpn);
    RootIs(s, src);
    LeafWalked(s, src, vpn);
    EntryHeld(s, child, vpn);
    EntryHeld(s, src, vpn);
    assert ViewAt(s.mem, child, vpn) == Unmapped;
  }

  lemma {:induction false} StepOthers(s0: S, s: S, t: S, src: nat, child: nat, vpn: nat)
    requires Copying(s0, s, src, child, vpn) && CopyStep(s, t, src, child, vpn, false)
    ensures OthersSame(s0, t, child)
  {
    hide Inv, Settled, Whole, OthersSame, ViewAt, EntryAt;
    OthersThen(s0, s, t, child);
  }

  /** The second-level table of a fork's source is still there, and leads where it did. */
  lemma {:induction false} LowStep(s0: S, s: S, src: nat, child: nat, i1: nat, m: nat, i: nat)
    requires Copying(s0, s, src, child, (i1 * WORDS + i) * WORDS) && i1 < WORDS && i < WORDS
    requires Follow(s0.mem, src, i1) == Some(m)
    ensures LowAt(s0.mem, src, i1 * WORDS + i) == Follow(s.mem, m, i)
  {
    hide Inv, Settled, Whole, OthersSame, ViewAt, EntryAt, Follow;
    PathParts(i1, i);
    assert LowAt(s.mem, src, i1 * WORDS + i) == LowAt(s0.mem, src, i1 * WORDS + i);
  }

  lemma {:induction false} TopStep(s0: S, s: S, src: nat, child: nat, i: nat)
    requires i < WORDS && Copying(s0, s, src, child, i * (WORDS * WORDS))
    ensures Follow(s0.mem, src, i) == Follow(s.mem, src, i)
  {
    hide Inv, Settled, Whole, OthersSame, ViewAt, EntryAt, Follow, LowAt;
  }

  /** A new space leaves the entries of the others alone. */
  lemma {:induction false} EntriesFor(s: S, t: S, root: nat)
    requires Inv(s) && Inv(t) && Grown(s, t) && Whole(s, root) && Whole(t, root) && SameLows(s, t, root)
    ensures SameEntries(s.mem, t.mem, root)
  {
    hide Inv, Grown, SameLows, EntryAt, Whole;
    forall v: nat | v < VPNS ensures EntryAt(t.mem, root, v) == EntryAt(s.mem, root, v) {
      GrownEntry(s, t, root, v);
    }
  }

  // ---- what a fork counts and costs ----

  /** The page that `src` has at `v` is still there, and counted `n` times more. */
  ghost predicate CountedAt(s: S, t: S, src: nat, v: nat, n: nat)
  {
    var p := FrameOf(EntryAt(s.mem, src, v));
    Linked(EntryAt(t.mem, src, v)) && FrameOf(EntryAt(t.mem, src, v)) == p && Extra(t, p) == Extra(s, p) + n
  }

  /** The pages below `pos` have been counted once more, the others not yet. */
  ghost predicate Tally(s0: S, s: S, src: nat, pos: nat)
  {
    forall v: nat :: v < VPNS && Linked(EntryAt(s0.mem, src, v)) ==> CountedAt(s0, s, src, v, if v < pos then 1 else 0)
  }

  lemma {:induction false} TallyStart(s0: S, s: S, src: nat)
    requires SameEntries(s0.mem, s.mem, src) && s.refs == s0.refs && s.base == s0.base
    ensures Tally(s0, s, src, 0)
  {
    hide EntryAt, Linked, FrameOf, Extra;
    ExtraSame(s0, s);
  }

  lemma {:induction false} TallySkip(s0: S, s: S, src: nat, pos: nat, to: nat)
    requires Tally(s0, s, src, pos) && pos <= to && forall v: nat :: pos <= v < to ==> EntryAt(s0.mem, src, v) == 0
    ensures Tally(s0, s, src, to)
  {
    hide EntryAt, CountedAt;
    ZeroWord();
    hide Linked;
  }

  lemma {:induction false} TallyStep(s0: S, s: S, t: S, src: nat, child: nat, vpn: nat)
    requires Copying(s0, s, src, child, vpn) && vpn < VPNS && CopyStep(s, t, src, child, vpn, true)
    requires Tally(s0, s, src, vpn) && CountedAt(s, t, src, vpn, 1)
    ensures Tally(s0, t, src, vpn + 1)
  {
    hide FreeOk, Tables, Counts, Soles, Settled, OthersSame, SameLows, EntryAt, LowAt, Whole, ViewAt, RoomFrom, SeenTo,
        Holds,
      OthersSame, Extra;
    ZeroWord();
    hide Linked, El0, FrameOf;
    forall v: nat | v < VPNS && Linked(EntryAt(s0.mem, src, v))
      ensures CountedAt(s0, t, src, v, if v < vpn + 1 then 1 else 0)
    {
      assert CountedAt(s0, s, src, v, if v < vpn then 1 else 0);
      if v != vpn { EntryHeld(s, src, v); }
    }
  }

  /** How many pages a space has below `n`. */
  ghost function Pages(mem: seq<seq<nat>>, root: nat, n: nat): nat
  {
    if n == 0 then 0 else Pages(mem, root, n - 1) + if Linked(EntryAt(mem, root, n - 1)) then 1 else 0
  }

  lemma {:induction false} PagesNone(mem: seq<seq<nat>>, root: nat, a: nat, b: nat)
    requires a <= b && forall v: nat :: a <= v < b ==> EntryAt(mem, root, v) == 0
    ensures Pages(mem, root, b) == Pages(mem, root, a)
    decreases b
  {
    hide EntryAt;
    ZeroWord();
    hide Linked;
    if a < b { PagesNone(mem, root, a, b - 1); }
  }

  lemma {:induction false} PagesMono(mem: seq<seq<nat>>, root: nat, a: nat, b: nat)
    requires a <= b
    ensures Pages(mem, root, a) <= Pages(mem, root, b)
    decreases b
  {
    hide EntryAt, Linked;
    if a < b { PagesMono(mem, root, a, b - 1); }
  }

  lemma {:induction false} PagesNext(mem: seq<seq<nat>>, root: nat, v: nat)
    requires Linked(EntryAt(mem, root, v))
    ensures Pages(mem, root, v + 1) == Pages(mem, root, v) + 1
  {
    hide EntryAt, Linked;
  }

  /** Two pages at most went for each page from `a` to `b`. */
  ghost predicate Paid(mem: seq<seq<nat>>, root: nat, a: nat, b: nat, before: int, after: int)
  {
    after >= before - 2 * (Pages(mem, root, b) - Pages(mem, root, a))
  }

  /** There was less than two pages for each page from `a` to `b`. */
  ghost predicate Short(mem: seq<seq<nat>>, root: nat, a: nat, b: nat, before: int)
  {
    before < 2 * (Pages(mem, root, b) - Pages(mem, root, a))
  }

  lemma {:induction false} CountedOnce(s: S, t: S, src: nat, vpn: nat, l: nat)
    requires LeafAt(s, src, vpn, l) && Whole(s, src) && vpn < VPNS && Linked(At(s.mem, l, vpn % WORDS))
    requires s.base <= FrameOf(At(s.mem, l, vpn % WORDS)) < s.top
    requires EntryAt(t.mem, src, vpn) == SetRo(At(s.mem, l, vpn % WORDS)) && t.base == s.base
    requires t.refs == Pinned(s, l, vpn % WORDS).refs
    ensures CountedAt(s, t, src, vpn, 1)
  {
    hide FreeOk, Tables, Counts, Soles, LowAt, Whole;
    SetRoFields(At(s.mem, l, vpn % WORDS));
    hide Linked, El0, Ro, FrameOf, Attrs, SetRo;
  }
}
