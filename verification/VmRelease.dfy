/** What stays in place while `vm_free_space` walks through a space. */
module VmRelease {
  import opened Options
  import opened VmWords
  import opened VmState
  import opened VmWalk
  import opened VmSteps
  import opened VmLinks
  import opened VmLeaves
  import opened VmShare
  import opened VmTeardown
  import opened VmGrowth

  /** Table `f` has passed entries up to `cut`; every other table is as it was. */
  ghost predicate PassedTo(s: S, t: S, f: nat, cut: nat)
  {
    |t.role| == |s.role| && |t.mem| == |s.mem| && |s.mem| == |s.role| && t.base == s.base && t.top == s.top
    && t.slack == s.slack
    && f < |s.role| && s.role[f].Table? && t.role[f] == s.role[f].(cut := cut) && t.mem[f] == s.mem[f]
    && forall g :: 0 <= g < |s.role| && g != f && (s.role[g].Table? || t.role[g].Table?) ==>
        t.role[g] == s.role[g] && t.mem[g] == s.mem[g]
  }

  /** Some tables below `f` are gone; those at its level and above are as they were. */
  ghost predicate PassedBelow(s: S, t: S, f: nat, cut: nat)
  {
    |t.role| == |s.role| && |t.mem| == |s.mem| && |s.mem| == |s.role| && t.base == s.base && t.top == s.top
    && t.slack == s.slack
    && f < |s.role| && s.role[f].Table? && t.role[f] == s.role[f].(cut := cut) && t.mem[f] == s.mem[f]
    && (forall g :: 0 <= g < |s.role| && g != f && t.role[g].Table? ==> t.role[g] == s.role[g] && t.mem[g] == s.mem[g])
    && (forall g :: 0 <= g < |s.role| && g != f && s.role[g].Table? && s.role[g].level <= s.role[f].level ==>
        t.role[g] == s.role[g])
  }

  /** Among the tables only those in `part` have been partly passed. */
  ghost predicate CutOnly(s: S, part: set<nat>)
  {
    forall f :: 0 <= f < |s.role| && s.role[f].Table? && f !in part ==> s.role[f].cut == 0
  }

  lemma {:induction false} OthersRelease(s: S, t: S, u: S, root: nat)
    requires OthersSame(s, t, root) && SameViews(t, u)
    ensures OthersSame(s, u, root)
  {
    hide Whole, ViewAt;
    forall r: nat | r != root ensures SpaceSame(s, u, r) {
      assert SpaceSame(s, t, r) && SpaceSame(t, u, r);
    }
  }

  lemma {:induction false} OthersSelf(s: S, root: nat)
    ensures OthersSame(s, s, root)
  {
  }

  lemma {:induction false} PassedMore(s: S, t: S, u: S, f: nat, i: nat, j: nat)
    requires PassedTo(s, t, f, i) && PassedTo(t, u, f, j)
    ensures PassedTo(s, u, f, j)
  {
  }

  lemma {:induction false} PassedIsBelow(s: S, t: S, f: nat, cut: nat)
    requires PassedTo(s, t, f, cut)
    ensures PassedBelow(s, t, f, cut)
  {
  }

  /** The page behind the entry just passed goes to the free list. */
  lemma {:induction false} PassedFreed(s: S, l: nat, p: nat)
    requires Shape(s) && l < s.top && p < s.top && s.role[l].Table? && s.role[p].Data?
    ensures PassedTo(s, Release(CutLast(s, l, p), p), l, s.role[l].cut + 1)
  {
  }

  /** A table that has been walked through is let go of and freed. */
  ghost function Dismissed(s: S, f: nat, c: nat): S
    requires Shape(s) && f < s.top && c < s.top && s.role[f].Table?
  {
    Release(CutTable(s, f, c), c)
  }

  lemma {:induction false} BelowStep(s: S, t: S, u: S, f: nat, c: nat)
    requires Shape(t) && Shape(u) && f < s.top && s.top == t.top == u.top && c < t.top && c != f
    requires f < |s.role| && s.role[f].Table? && t.role[f].Table? && t.role[c].Table?
    requires PassedBelow(s, t, f, t.role[f].cut) && PassedBelow(t, u, c, WORDS)
    requires t.role[c].level == s.role[f].level + 1
    ensures u.role[f] == t.role[f] && u.mem[f] == t.mem[f] && u.role[c].Table? && u.role[c].cut == WORDS
    ensures PassedBelow(s, Dismissed(u, f, c), f, t.role[f].cut + 1)
  {
  }

  lemma {:induction false} CutOnlyStep(t: S, u: S, f: nat, c: nat, part: set<nat>)
    requires Shape(t) && Shape(u) && t.top == u.top && f < t.top && c < t.top && c != f && f in part && c !in part
    requires t.role[f].Table? && t.role[c].Table? && u.role[f].Table?
    requires CutOnly(t, part) && PassedBelow(t, u, c, WORDS)
    ensures CutOnly(Dismissed(u, f, c), part) && t.role[c].cut == 0
  {
  }

  /** The table below the next entry. */
  lemma {:induction false} BelowOk(s: S, f: nat)
    requires Next(s, f) && s.role[f].level < 3 && Linked(At(s.mem, f, s.role[f].cut))
    ensures var c := FrameOf(At(s.mem, f, s.role[f].cut));
            s.base <= c < s.top && IsTable(s, c, s.role[f].level + 1) && s.role[c].root == s.role[f].root && c != f
  {
    hide Tables, Counts, Soles, Threaded;
    hide Linked, FrameOf;
    StepOk(s, f, s.role[f].cut);
  }

  lemma {:induction false} EmptyNext(s: S, f: nat)
    requires Next(s, f) && !Linked(At(s.mem, f, s.role[f].cut))
    ensures At(s.mem, f, s.role[f].cut) == 0
  {
    hide FreeOk, Tables, Counts, Soles;
    hide Linked, FrameOf;
    StepOk(s, f, s.role[f].cut);
  }

  /** Passing an empty entry. */
  lemma {:induction false} BelowEmpty(s: S, t: S, f: nat, part: set<nat>)
    requires f < |t.role| && t.role[f].Table? && PassedBelow(s, t, f, t.role[f].cut) && CutOnly(t, part) && f in part
    ensures PassedBelow(s, CutEmpty(t, f), f, t.role[f].cut + 1) && CutOnly(CutEmpty(t, f), part)
  {
  }

  lemma {:induction false} LowNotIn(s: S, l: nat, root: nat, m: nat)
    requires Inv(s) && IsTable(s, l, 3) && IsTable(s, m, 2) && s.role[m].root == root && CutOnly(s, {root, m})
    ensures l !in {root, m} && s.role[l].cut == 0
  {
    hide FreeOk, Counts, Soles, EntryOk;
    assert TableOk(s, m);
    assert TableOk(s, s.role[m].parent);
  }

  /** The entry that leads to a table is not disturbed by walking through that table. */
  lemma {:induction false} LinkStays(t: S, u: S, f: nat, i: nat)
    requires f < |t.mem| && f < |u.mem| && u.mem[f] == t.mem[f] && Linked(At(t.mem, f, i))
    ensures Follow(u.mem, f, i) == Some(FrameOf(At(t.mem, f, i)))
  {
  }

  lemma {:induction false} RootAt(s: S, root: nat)
    requires Inv(s) && root < s.top && s.role[root].Table?
    ensures s.base <= root
  {
    hide Tables, Counts, Soles, Threaded;
  }

  lemma {:induction false} SettledAfter(t: S, u: S, root: nat)
    requires CutOnly(t, {root}) && Shape(t) && root < t.top && u == Release(CutRoot(t, root), root)
    ensures Settled(u)
  {
  }
}
