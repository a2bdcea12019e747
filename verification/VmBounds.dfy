/** What the byte-sized counts are good for. */
module VmBounds {
  import opened VmWords
  import opened VmState
  import opened VmWalk
  import opened VmSteps
  import opened VmLinks
  import opened VmLeaves
  import opened VmShare
  import opened VmGrowth
  import opened VmFork

  ghost function Roots(s: S): set<nat>
  {
    set f | 0 <= f < |s.role| && IsTable(s, f, 1)
  }

  /** Two entries for the same page in the same space are one entry. */
  lemma {:induction false} OncePerSpace(s: S, x: Slot, y: Slot, p: nat)
    requires Inv(s) && x in Holders(s, p) && y in Holders(s, p)
    requires s.role[x.table].root == s.role[y.table].root
    ensures x == y
  {
    hide FreeOk, Tables, Counts, Soles, Holders;
    hide Linked, FrameOf, El0;
    HolderIn(s, x.table, x.index, p);
    HolderIn(s, y.table, y.index, p);
    StepOk(s, x.table, x.index);
    StepOk(s, y.table, y.index);
    PathParts(s.role[x.table].path, x.index);
    PathParts(s.role[y.table].path, y.index);
    LowFound(s, x.table);
    LowFound(s, y.table);
  }

  lemma {:induction false} HolderRoot(s: S, x: Slot, p: nat)
    requires Inv(s) && x in Holders(s, p)
    ensures x.table < |s.role| && s.role[x.table].Table? && s.role[x.table].root in Roots(s)
  {
    hide FreeOk, Tables, Counts, Soles, Holders;
    hide Linked, FrameOf, El0;
    HolderIn(s, x.table, x.index, p);
    LowFound(s, x.table);
  }

  /** A set of holders is no larger than the set of spaces they are in. */
  lemma {:induction false} SlotsAtMost(s: S, p: nat, slots: set<Slot>, roots: set<nat>)
    requires Inv(s) && slots <= Holders(s, p)
    requires forall x :: x in slots ==> x.table < |s.role| && s.role[x.table].Table? && s.role[x.table].root in roots
    ensures |slots| <= |roots|
    decreases slots
  {
    hide Inv, Holders;
    if x :| x in slots {
      var r := s.role[x.table].root;
      forall y | y in slots - {x} ensures s.role[y.table].root != r {
        if s.role[y.table].root == r { OncePerSpace(s, x, y, p); }
      }
      SlotsAtMost(s, p, slots - {x}, roots - {r});
    }
  }

  /** A page has at most as many holders as there are spaces. */
  lemma {:induction false} HoldersAtMost(s: S, p: nat)
    requires Inv(s)
    ensures |Holders(s, p)| <= |Roots(s)|
  {
    hide Inv, Holders, Roots;
    forall x | x in Holders(s, p)
      ensures x.table < |s.role| && s.role[x.table].Table? && s.role[x.table].root in Roots(s) {
      HolderRoot(s, x, p);
    }
    SlotsAtMost(s, p, Holders(s, p), Roots(s));
  }

  /** With fewer than 256 spaces and no count gone astray, a fork never meets a count that
      is full. */
  lemma {:induction false} RoomToFork(s: S, src: nat)
    requires Inv(s) && Whole(s, src) && |Roots(s)| <= 255
    requires forall p :: 0 <= p < s.top ==> s.slack[p] == 0
    ensures RoomFrom(s, src, 0)
  {
    hide FreeOk, Tables, Counts, Soles, Holders, Roots, LowAt, EntryAt, Whole, Holds;
    ZeroWord();
    hide Linked, FrameOf, El0;
    forall v: nat | v < VPNS && Linked(EntryAt(s.mem, src, v)) ensures Extra(s, FrameOf(EntryAt(s.mem, src, v))) < 255 {
      EntryHeld(s, src, v);
      var p := FrameOf(EntryAt(s.mem, src, v));
      CountAt(s, p);
      HoldersAtMost(s, p);
    }
  }

  /** Every page in use that the count has not lost track of is in some space: nothing is
      kept for nobody. */
  lemma {:induction false} NothingLost(s: S, p: nat)
    requires Inv(s) && p < s.top && s.role[p].Data? && s.slack[p] == 0
    ensures Holders(s, p) != {}
  {
    hide FreeOk, Tables, Soles, Holders;
    assert CountOk(s, p);
  }

  // ---- when a count is full ----

  /** What `page_ref` leaves. */
  function Counted(n: nat): nat
  {
    if n < 255 then n + 1 else n
  }

  /** One page shared from entry `(l, i)` into the empty entry `(k, i)`, with the count as
      `page_ref` leaves it. */
  ghost function SharedInto(s: S, l: nat, k: nat, i: nat): S
    requires Leaf(s, l, i) && Leaf(s, k, i) && Shape(s) && s.base <= FrameOf(At(s.mem, l, i)) < s.top
  {
    var w := At(s.mem, l, i);
    var p := FrameOf(w);
    s.(mem := PutWord(PutWord(s.mem, l, i, SetRo(w)), k, i, SetRo(w)), refs := SetExtra(s, p, Counted(Extra(s, p))))
  }

  lemma {:induction false} SharedHolders(s: S, l: nat, k: nat, i: nat, t: S)
    requires Leaf(s, l, i) && Leaf(s, k, i) && l != k && Linked(At(s.mem, l, i)) && At(s.mem, k, i) == 0
    requires s.base <= FrameOf(At(s.mem, l, i)) < s.top && t == SharedInto(s, l, k, i)
    ensures Holders(t, FrameOf(At(s.mem, l, i))) == Holders(s, FrameOf(At(s.mem, l, i))) + {Slot(k, i)}
    ensures Slot(k, i) !in Holders(s, FrameOf(At(s.mem, l, i)))
  {
    hide FreeOk, Tables, Counts, Soles;
    SetRoFields(At(s.mem, l, i));
    ZeroWord();
    hide Linked, FrameOf, El0, Ro, SetRo, Attrs, Holders;
    var p := FrameOf(At(s.mem, l, i));
    forall x: Slot ensures x in Holders(t, p) <==> x in Holders(s, p) + {Slot(k, i)} {
      HolderIn(s, x.table, x.index, p);
      HolderIn(t, x.table, x.index, p);
    }
    HolderIn(s, k, i, p);
  }

  /** Sharing a page keeps its count one below its holders exactly when the count was below
      255; a full count stays full and the page has a holder more than counted. */
  lemma {:induction false} CountFollowsIff(s: S, l: nat, k: nat, i: nat)
    requires Leaf(s, l, i) && Leaf(s, k, i) && l != k && Linked(At(s.mem, l, i)) && At(s.mem, k, i) == 0
    requires s.base <= FrameOf(At(s.mem, l, i)) < s.top && s.slack[FrameOf(At(s.mem, l, i))] == 0
    ensures var t := SharedInto(s, l, k, i); var p := FrameOf(At(s.mem, l, i));
            |Holders(t, p)| == Extra(t, p) + 1 <==> Extra(s, p) < 255
  {
    hide FreeOk, Tables, Counts, Soles, Holders, Holds;
    hide Linked, FrameOf, El0, Ro, SetRo, Attrs;
    LeafPage(s, l, i);
    SharedHolders(s, l, k, i, SharedInto(s, l, k, i));
  }

  // ---- and what it leads to ----

  /** One holder lets go, as in a teardown: its entry is no longer in force, and the count goes down or,
      when `page_unref` says nobody is left, the page goes to the head of the free list. */
  ghost function LetGo(s: S, x: Slot): S
    requires Shape(s)
  {
    var p := FrameOf(At(s.mem, x.table, x.index));
    if x.table < s.top && x.index < WORDS && s.base <= p < s.top then
      var u := s.(mem := PutWord(s.mem, x.table, x.index, 0));
      if Extra(s, p) > 0 then u.(refs := SetExtra(s, p, Extra(s, p) - 1)) else Release(u, p)
    else s
  }

  lemma {:induction false} LetGoShape(s: S, x: Slot)
    requires Shape(s)
    ensures Shape(LetGo(s, x)) && LetGo(s, x).base == s.base && LetGo(s, x).top == s.top
  {
    hide FrameOf;
  }

  ghost function LetGoAll(s: S, xs: seq<Slot>): (u: S)
    requires Shape(s)
    ensures Shape(u) && u.base == s.base && u.top == s.top
  {
    if xs == [] then s else
      var t := LetGoAll(s, xs[..|xs| - 1]);
      LetGoShape(t, xs[|xs| - 1]);
      LetGo(t, xs[|xs| - 1])
  }

  lemma {:induction false} LetGoStep(s: S, x: Slot, p: nat)
    requires Shape(s) && x in Holders(s, p) && s.base <= p < s.top && s.role[p].Data?
    ensures var u := LetGo(s, x);
            Holders(u, p) == Holders(s, p) - {x} && |Holders(u, p)| == |Holders(s, p)| - 1
            && (if Extra(s, p) > 0 then u.role == s.role && Extra(u, p) == Extra(s, p) - 1
                else u.role[p] == Free && u.free == [p] + s.free)
  {
    ZeroWord();
    hide Linked, FrameOf, El0, Holders;
    HolderIn(s, x.table, x.index, p);
    var u := LetGo(s, x);
    forall y: Slot ensures y in Holders(u, p) <==> y in Holders(s, p) - {x} {
      HolderIn(s, y.table, y.index, p);
      HolderIn(u, y.table, y.index, p);
    }
  }

  /** Some of a page's holders, each once. */
  ghost predicate SomeHolders(s: S, p: nat, xs: seq<Slot>)
  {
    (forall j :: 0 <= j < |xs| ==> xs[j] in Holders(s, p)) && forall j, k :: 0 <= j < k < |xs| ==> xs[j] != xs[k]
  }

  /** As long as the count is not used up, it goes down with the holders. */
  lemma {:induction false} LetGoMany(s: S, xs: seq<Slot>, p: nat)
    requires Shape(s) && SomeHolders(s, p, xs) && s.base <= p < s.top && s.role[p].Data? && |xs| <= Extra(s, p)
    ensures var u := LetGoAll(s, xs);
            u.role == s.role && Extra(u, p) == Extra(s, p) - |xs| && |Holders(u, p)| == |Holders(s, p)| - |xs|
            && forall x :: x in Holders(s, p) && x !in xs ==> x in Holders(u, p)
    decreases |xs|
  {
    hide Holders, LetGo, Extra, Shape;
    if xs != [] {
      var n := |xs| - 1;
      assert xs == xs[..n] + [xs[n]];
      LetGoMany(s, xs[..n], p);
      var t := LetGoAll(s, xs[..n]);
      LetGoStep(t, xs[n], p);
    }
  }

  /** A full count is one short after one more sharing. */
  lemma {:induction false} SharedMany(s: S, l: nat, k: nat, i: nat)
    requires Leaf(s, l, i) && Leaf(s, k, i) && l != k && Linked(At(s.mem, l, i)) && At(s.mem, k, i) == 0
    requires s.base <= FrameOf(At(s.mem, l, i)) < s.top && s.slack[FrameOf(At(s.mem, l, i))] == 0
    requires Extra(s, FrameOf(At(s.mem, l, i))) == 255
    ensures var t := SharedInto(s, l, k, i); var p := FrameOf(At(s.mem, l, i));
            Shape(t) && |Holders(t, p)| == 257 && Extra(t, p) == 255 && t.role == s.role && s.role[p].Data?
            && t.base == s.base && t.top == s.top
  {
    hide FreeOk, Tables, Counts, Soles, Holders, Holds;
    hide Linked, FrameOf, El0, Ro, SetRo, Attrs;
    LeafPage(s, l, i);
    SharedHolders(s, l, k, i, SharedInto(s, l, k, i));
  }

  /** What a full count leads to: the shared page has 257 holders, and when any 256 of them have let go,
      one after another, the page is free and the last still holds it. It was not free before. */
  lemma {:induction false} FullCountFrees(s: S, l: nat, k: nat, i: nat, xs: seq<Slot>)
    requires Leaf(s, l, i) && Leaf(s, k, i) && l != k && Linked(At(s.mem, l, i)) && At(s.mem, k, i) == 0
    requires s.base <= FrameOf(At(s.mem, l, i)) < s.top && s.slack[FrameOf(At(s.mem, l, i))] == 0
    requires Extra(s, FrameOf(At(s.mem, l, i))) == 255
    requires |xs| == 256 && SomeHolders(SharedInto(s, l, k, i), FrameOf(At(s.mem, l, i)), xs)
    ensures var t := SharedInto(s, l, k, i); var p := FrameOf(At(s.mem, l, i));
            Shape(t) && |Holders(t, p)| == 257 && LetGoAll(t, xs[..255]).role == s.role
            && LetGoAll(t, xs).role[p] == Free && |Holders(LetGoAll(t, xs), p)| == 1
  {
    hide FreeOk, Tables, Counts, Soles, Holders, LetGo, SharedInto, Extra, Linked, FrameOf;
    var t, p := SharedInto(s, l, k, i), FrameOf(At(s.mem, l, i));
    SharedMany(s, l, k, i);
    LetGoMany(t, xs[..255], p);
    LetGoStep(LetGoAll(t, xs[..255]), xs[255], p);
  }
}
