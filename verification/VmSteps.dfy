/** The steps that hand out, link and take back frames, and what each keeps. */
module VmSteps {
  import opened VmWords
  import opened VmState
  import opened VmWalk

  ghost predicate InUse(r: Role)
  {
    r.Table? || r.Data?
  }

  /** Every frame in use before or after is used for the same, with the same words. */
  ghost predicate Kept(s: S, t: S)
  {
    |t.mem| == |s.mem| && |t.role| == |s.role| && t.base == s.base && t.top == s.top
    && t.refs == s.refs && t.slack == s.slack
    && |s.mem| == |s.role|
    && forall f :: 0 <= f < |s.role| && (InUse(s.role[f]) || InUse(t.role[f])) ==>
        t.role[f] == s.role[f] && t.mem[f] == s.mem[f]
  }

  /** A space that was whole still is, and its program sees the same. */
  ghost predicate SpaceSame(s: S, t: S, root: nat)
  {
    Whole(s, root) ==> Whole(t, root) && forall v: nat :: v < VPNS ==> ViewAt(t.mem, root, v) == ViewAt(s.mem, root, v)
  }

  ghost predicate SameViews(s: S, t: S)
  {
    forall r: nat :: SpaceSame(s, t, r)
  }

  /** The tables of a space are where they were. */
  ghost predicate SameLows(s: S, t: S, root: nat)
  {
    (forall i :: 0 <= i < WORDS ==> Follow(t.mem, root, i) == Follow(s.mem, root, i))
    && (forall p :: 0 <= p < WORDS * WORDS ==> LowAt(t.mem, root, p) == LowAt(s.mem, root, p))
  }

  // ---- frames in use are left alone ----

  lemma {:induction false} KeptHolds(s: S, t: S, f: nat, i: nat, p: nat)
    requires Kept(s, t)
    ensures Holds(t, f, i, p) <==> Holds(s, f, i, p)
    ensures Holds(s, f, i, p) ==> At(t.mem, f, i) == At(s.mem, f, i)
  {
    hide Linked, FrameOf;
  }

  lemma {:induction false} KeptTables(s: S, t: S)
    requires Inv(s) && Shape(t) && Kept(s, t)
    ensures Tables(t)
  {
    hide FreeOk, Counts, Soles;
    hide Linked, FrameOf, El0;
    forall f | 0 <= f < t.top ensures TableOk(t, f) {
      assert TableOk(s, f);
      if t.role[f].Table? {
        forall i | t.role[f].cut <= i < WORDS ensures EntryOk(t, f, i) {
          assert EntryOk(s, f, i);
        }
      }
    }
  }

  /** Counts hold on as long as the same entries hold the same pages. */
  lemma {:induction false} CountsKept(s: S, t: S)
    requires Inv(s) && Shape(t) && t.base == s.base && t.top == s.top && t.refs == s.refs && t.slack == s.slack
    requires forall f :: 0 <= f < s.top ==> s.role[f].Data? == t.role[f].Data?
    requires forall f: nat, i: nat, p: nat :: Holds(t, f, i, p) <==> Holds(s, f, i, p)
    requires forall f: nat, i: nat, p: nat :: Holds(s, f, i, p) ==> At(t.mem, f, i) == At(s.mem, f, i)
    ensures Counts(t) && Soles(t)
  {
    hide FreeOk, Tables, Holds;
    hide Linked, FrameOf, El0, Ro, Holders;
    forall p: nat ensures Holders(t, p) == Holders(s, p) {
      HoldersSame(s, t, p);
    }
    forall p | 0 <= p < t.top ensures CountOk(t, p) {
      assert CountOk(s, p);
    }
    forall f: nat, i: nat ensures SoleOk(t, f, i) {
      assert SoleOk(s, f, i);
    }
  }

  lemma {:induction false} KeptInv(s: S, t: S)
    requires Inv(s) && Shape(t) && FreeOk(t) && Kept(s, t)
    ensures Inv(t)
  {
    hide FreeOk, Tables, Counts, Soles, Holds;
    KeptTables(s, t);
    forall f: nat, i: nat, p: nat
      ensures (Holds(t, f, i, p) <==> Holds(s, f, i, p)) && (Holds(s, f, i, p) ==> At(t.mem, f, i) == At(s.mem, f, i)) {
      KeptHolds(s, t, f, i, p);
    }
    CountsKept(s, t);
  }

  /** A whole space whose tables and pages are left alone is seen as before. */
  lemma {:induction false} SpaceKept(s: S, t: S, root: nat)
    requires Inv(s) && |t.mem| == s.top && |t.role| == s.top
    requires forall f :: 0 <= f < s.top && s.role[f].Table? && s.role[f].root == root ==>
        t.role[f] == s.role[f] && t.mem[f] == s.mem[f]
    requires forall f :: 0 <= f < s.top && t.role[f].Table? && t.role[f].root == root ==> t.role[f] == s.role[f]
    requires forall v: nat {:trigger EntryAt(s.mem, root, v)} :: v < VPNS && Whole(s, root) ==>
      var w := EntryAt(s.mem, root, v); Linked(w) && FrameOf(w) < s.top ==> t.mem[FrameOf(w)] == s.mem[FrameOf(w)]
    ensures SpaceSame(s, t, root)
  {
    hide FreeOk, Counts, Soles, Tables;
    hide Linked, FrameOf, El0, EntryAt, ViewAt;
    if Whole(s, root) {
      RootSelf(s, root);
      forall v: nat | v < VPNS ensures ViewAt(t.mem, root, v) == ViewAt(s.mem, root, v) {
        assert var w := EntryAt(s.mem, root, v); true;
        ViewSame(s, t.mem, root, v);
      }
    }
  }

  /** A walk through tables that are left alone goes the same way. */
  lemma {:induction false} LowsKept(s: S, t: S, root: nat)
    requires Inv(s) && Whole(s, root) && |t.mem| == s.top
    requires forall f :: 0 <= f < s.top && s.role[f].Table? && s.role[f].root == root ==> t.mem[f] == s.mem[f]
    ensures SameLows(s, t, root)
  {
    hide FreeOk, Counts, Soles, Tables;
    hide Linked, FrameOf, LowAt;
    RootSelf(s, root);
    forall p | 0 <= p < WORDS * WORDS ensures LowAt(t.mem, root, p) == LowAt(s.mem, root, p) {
      assert p * WORDS < VPNS;
      PathParts(p, 0);
      assert (p * WORDS) / WORDS == p;
      WalkSame(s, t.mem, root, p * WORDS);
    }
  }

  lemma {:induction false} KeptViews(s: S, t: S)
    requires Inv(s) && Kept(s, t)
    ensures SameViews(s, t)
  {
    hide FreeOk, Counts, Soles, Tables;
    hide Linked, FrameOf, El0, EntryAt, ViewAt;
    forall r: nat ensures SpaceSame(s, t, r) {
      forall v: nat | v < VPNS && Whole(s, r)
        ensures var w := EntryAt(s.mem, r, v);
                Linked(w) && FrameOf(w) < s.top ==> t.mem[FrameOf(w)] == s.mem[FrameOf(w)]
      {
        ZeroWord();
        EntryHeld(s, r, v);
      }
      SpaceKept(s, t, r);
    }
  }

  // ---- the allocator ----

  function Zeros(): (z: seq<nat>)
    ensures |z| == WORDS && forall i :: 0 <= i < WORDS ==> z[i] == 0
  {
    seq(WORDS, i => 0)
  }

  /** The page at the head of the free list is handed out, zeroed. */
  ghost function TakeListed(s: S): S
    requires Shape(s) && FreeOk(s) && |s.free| > 0
  {
    var f := s.free[0];
    assert ListedOk(s, 0);
    s.(mem := s.mem[f := Zeros()], head := s.mem[f][0], free := s.free[1..], role := s.role[f := Held])
  }

  /** The next page never handed out is, zeroed. */
  ghost function TakeFresh(s: S): S
    requires Shape(s) && s.next < s.top
  {
    s.(mem := s.mem[s.next := Zeros()], next := s.next + 1, role := s.role[s.next := Held])
  }

  /** How many pages can be handed out. */
  function Left(s: S): int
  {
    |s.free| + s.top - s.next
  }

  /** What `free_page` leaves in a page it is given. */
  function Freed(words: seq<nat>, head: nat): (r: seq<nat>)
    requires |words| == WORDS
    ensures |r| == WORDS && r[0] == head && r[1] == MAGIC
  {
    words[0 := head][1 := MAGIC]
  }

  /** A page outside every space goes to the head of the free list. */
  ghost function Release(s: S, f: nat): S
    requires Shape(s) && f < s.top
  {
    s.(mem := s.mem[f := Freed(s.mem[f], s.head)], head := f * 4096, free := [f] + s.free, role := s.role[f := Free])
  }

  /** Element `k` of the list, seen from a list with one element less at the front. */
  lemma {:induction false} ListedTail(s: S, t: S, k: nat)
    requires Shape(s) && Shape(t) && s.base == t.base && s.next == t.next && |s.free| > 0 && t.free == s.free[1..]
    requires s.top == t.top && k < |t.free| && s.free[k + 1] < s.top
    requires s.mem[s.free[k + 1]] == t.mem[s.free[k + 1]] && s.role[s.free[k + 1]] == t.role[s.free[k + 1]]
    ensures ListedOk(s, k + 1) <==> ListedOk(t, k)
  {
  }

  lemma {:induction false} Listed(s: S, k: nat)
    requires Shape(s) && FreeOk(s) && k < |s.free|
    ensures ListedOk(s, k) && (k > 0 ==> s.free[0] != s.free[k])
  {
  }

  /** A null head means an empty list. */
  lemma {:induction false} HeadNull(s: S)
    requires Shape(s) && FreeOk(s)
    ensures s.head == 0 <==> s.free == []
  {
    hide Covered, Distinct;
    if |s.free| > 0 { assert ListedOk(s, 0); }
  }

  /** With an empty list and nothing above `next`, no frame is free. */
  lemma {:induction false} NoneFree(s: S)
    requires Shape(s) && FreeOk(s) && s.free == [] && s.next == s.top
    ensures forall f :: 0 <= f < s.top ==> s.role[f] != Free
  {
  }

  lemma {:induction false} TakeListedThread(s: S)
    requires Shape(s) && FreeOk(s) && |s.free| > 0
    ensures Shape(TakeListed(s)) && Threaded(TakeListed(s))
  {
    hide Threaded, Covered, Distinct;
    var t := TakeListed(s);
    Listed(s, 0);
    assert t.head == LinkWord(t.free, 0);
    hide LinkWord;
    forall k | 0 <= k < |t.free| ensures ListedOk(t, k) {
      hide FreeOk;
      Listed(s, k + 1);
      ListedTail(s, t, k);
    }
    ThreadedFrom(t);
  }

  lemma {:induction false} ThreadedFrom(s: S)
    requires Shape(s) && s.head == LinkWord(s.free, 0)
    requires forall k :: 0 <= k < |s.free| ==> ListedOk(s, k)
    ensures Threaded(s)
  {
    hide ListedOk, LinkWord;
  }

  lemma {:induction false} TakeListedFree(s: S)
    requires Shape(s) && FreeOk(s) && |s.free| > 0
    ensures Shape(TakeListed(s)) && FreeOk(TakeListed(s))
  {
    hide Threaded;
    TakeListedThread(s);
    Listed(s, 0);
    hide ListedOk;
    var t := TakeListed(s);
    assert s.free == [s.free[0]] + t.free;
    assert Distinct(t.free);
    assert Covered(t);
  }

  /** Handing out a listed page keeps everything, and nothing had written to it. */
  lemma {:induction false} TakeListedOk(s: S)
    requires Inv(s) && |s.free| > 0
    ensures Inv(TakeListed(s)) && SameViews(s, TakeListed(s)) && Kept(s, TakeListed(s))
    ensures var f := s.free[0]; s.role[f] == Free && s.base <= f < s.top && s.head == f * 4096 && s.mem[f][1] == MAGIC
  {
    hide Tables, Counts, Soles;
    assert ListedOk(s, 0);
    TakeListedFree(s);
    KeptInv(s, TakeListed(s));
    KeptViews(s, TakeListed(s));
  }

  lemma {:induction false} TakeFreshOk(s: S)
    requires Inv(s) && s.free == [] && s.next < s.top
    ensures Inv(TakeFresh(s)) && SameViews(s, TakeFresh(s)) && Kept(s, TakeFresh(s)) && s.role[s.next] == Free
  {
    hide Tables, Counts, Soles;
    KeptInv(s, TakeFresh(s));
    KeptViews(s, TakeFresh(s));
  }

  lemma {:induction false} ReleaseThread(s: S, f: nat)
    requires Shape(s) && FreeOk(s) && s.base <= f < s.next && s.role[f] == Held
    ensures Shape(Release(s, f)) && Threaded(Release(s, f)) && f !in s.free
  {
    hide Covered, Distinct;
    var t := Release(s, f);
    assert t.free[1..] == s.free;
    assert s.head == LinkWord(s.free, 0) == LinkWord(t.free, 1);
    assert ListedOk(t, 0);
    hide LinkWord, Threaded;
    forall k | 0 < k < |t.free| ensures ListedOk(t, k) && s.free[k - 1] != f {
      hide FreeOk;
      Listed(s, k - 1);
      ListedTail(t, s, k - 1);
    }
    hide ListedOk, FreeOk;
    assert forall k :: 0 <= k < |s.free| ==> t.free[k + 1] == s.free[k];
    ThreadedFrom(t);
  }

  lemma {:induction false} ReleaseFree(s: S, f: nat)
    requires Shape(s) && FreeOk(s) && s.base <= f < s.top && s.role[f] == Held
    ensures Shape(Release(s, f)) && FreeOk(Release(s, f))
  {
    hide Threaded;
    ReleaseThread(s, f);
    var t := Release(s, f);
    assert Covered(t);
    assert Distinct(t.free);
  }

  lemma {:induction false} ReleaseOk(s: S, f: nat)
    requires Inv(s) && s.base <= f < s.top && s.role[f] == Held
    ensures Inv(Release(s, f)) && SameViews(s, Release(s, f)) && Kept(s, Release(s, f))
  {
    hide Tables, Counts, Soles, FreeOk;
    ReleaseFree(s, f);
    KeptInv(s, Release(s, f));
    KeptViews(s, Release(s, f));
  }

  /** The free list does not notice changes to frames that are not free. */
  lemma {:induction false} FreeKept(s: S, t: S)
    requires Shape(s) && FreeOk(s) && Shape(t)
    requires t.head == s.head && t.next == s.next && t.base == s.base && t.top == s.top && t.free == s.free
    requires forall f :: 0 <= f < s.top && (s.role[f] == Free || t.role[f] == Free) ==>
        s.role[f] == t.role[f] && s.mem[f] == t.mem[f]
    requires forall f :: 0 <= f < s.top && s.role[f] == Held && t.role[f] != Held ==> s.base <= f
    ensures FreeOk(t)
  {
    forall k | 0 <= k < |t.free| ensures ListedOk(t, k) {
      assert ListedOk(s, k);
    }
  }
}
