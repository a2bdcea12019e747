/** Where walks through well-formed tables lead, and which changes they do not notice. */
module VmWalk {
  import opened Options
  import opened VmWords
  import opened VmState

  /** One step of a walk stays inside the space. */
  lemma {:induction false} StepOk(s: S, f: nat, i: nat)
    requires Inv(s) && f < s.top && s.role[f].Table? && s.role[f].cut <= i < WORDS
    ensures match Follow(s.mem, f, i) case None => At(s.mem, f, i) == 0 case Some(c) => ChildOk(s, f, i, c)
    ensures s.role[f].level == 3 && Follow(s.mem, f, i).Some? ==> UserPage(At(s.mem, f, i))
  {
    hide ChildOk, Linked, El0, FrameOf, FreeOk, Counts, Soles;
    assert TableOk(s, f);
    assert EntryOk(s, f, i);
    ZeroWord();
  }

  lemma {:induction false} RootSelf(s: S, root: nat)
    requires Inv(s) && IsTable(s, root, 1)
    ensures s.role[root].root == root && s.role[root].path == 0
  {
    hide FreeOk, Counts, Soles;
    assert TableOk(s, root);
  }

  /** A second-level table reached from a root is that root's. */
  lemma {:induction false} MidOk(s: S, root: nat, i1: nat)
    requires Inv(s) && Whole(s, root) && i1 < WORDS
    ensures match Follow(s.mem, root, i1)
            case None => true
            case Some(m) => IsTable(s, m, 2) && s.role[m].root == root && s.role[m].path == i1 && s.role[m].cut == 0
  {
    hide Follow, FreeOk, Counts, Soles;
    assert TableOk(s, root);
    StepOk(s, root, i1);
  }

  /** A third-level table reached from a root is that root's, at its path. */
  lemma {:induction false} LowOk(s: S, root: nat, path: nat)
    requires Inv(s) && Whole(s, root) && path < WORDS * WORDS
    ensures match LowAt(s.mem, root, path)
            case None => true
            case Some(l) => IsTable(s, l, 3) && s.role[l].root == root && s.role[l].path == path && s.role[l].cut == 0
  {
    hide Follow, FreeOk, Counts, Soles, Tables;
    MidOk(s, root, path / WORDS);
    match Follow(s.mem, root, path / WORDS)
    case None =>
    case Some(m) =>
      StepOk(s, m, path % WORDS);
      PathWhole(path);
  }

  lemma {:induction false} VpnPath(vpn: nat)
    requires vpn < VPNS
    ensures vpn / WORDS < WORDS * WORDS
  {
  }

  /** A leaf entry is 0 or leads to a page that belongs at that number. */
  lemma {:induction false} EntryHeld(s: S, root: nat, vpn: nat)
    requires Inv(s) && Whole(s, root) && vpn < VPNS
    ensures var w := EntryAt(s.mem, root, vpn);
            w == 0 || (UserPage(w) && FrameOf(w) < s.top && s.role[FrameOf(w)] == Data(vpn)
                       && LowAt(s.mem, root, vpn / WORDS).Some?
                       && Holds(s, LowAt(s.mem, root, vpn / WORDS).value, vpn % WORDS, FrameOf(w)))
  {
    hide FreeOk, Counts, Soles, Tables, LowAt;
    hide Linked, El0, FrameOf;
    VpnPath(vpn);
    LowOk(s, root, vpn / WORDS);
    match LowAt(s.mem, root, vpn / WORDS)
    case None =>
    case Some(l) =>
      StepOk(s, l, vpn % WORDS);
      PathWhole(vpn);
  }

  /** A walk notices only changes to the tables of its own space. */
  lemma {:induction false} WalkSame(s: S, mem: seq<seq<nat>>, root: nat, vpn: nat)
    requires Inv(s) && Whole(s, root) && vpn < VPNS && |mem| == s.top
    requires forall f :: 0 <= f < s.top && s.role[f].Table? && s.role[f].root == root ==> mem[f] == s.mem[f]
    ensures EntryAt(mem, root, vpn) == EntryAt(s.mem, root, vpn)
    ensures LowAt(mem, root, vpn / WORDS) == LowAt(s.mem, root, vpn / WORDS)
  {
    hide FreeOk, Counts, Soles, Tables;
    hide Linked, FrameOf;
    VpnPath(vpn);
    var path := vpn / WORDS;
    LowOk(s, root, path);
    MidOk(s, root, path / WORDS);
    RootSelf(s, root);
  }

  /** A view notices besides only changes to its own page. */
  lemma {:induction false} ViewSame(s: S, mem: seq<seq<nat>>, root: nat, vpn: nat)
    requires Inv(s) && Whole(s, root) && vpn < VPNS && |mem| == s.top
    requires forall f :: 0 <= f < s.top && s.role[f].Table? && s.role[f].root == root ==> mem[f] == s.mem[f]
    requires var w := EntryAt(s.mem, root, vpn); Linked(w) && FrameOf(w) < s.top ==>
        mem[FrameOf(w)] == s.mem[FrameOf(w)]
    ensures ViewAt(mem, root, vpn) == ViewAt(s.mem, root, vpn)
  {
    hide FreeOk, Counts, Soles, Tables, Whole;
    hide EntryAt, Linked, El0, FrameOf, Attrs;
    WalkSame(s, mem, root, vpn);
  }

  /** Every third-level table is found by walking to its path. */
  lemma {:induction false} LowFound(s: S, l: nat)
    requires Inv(s) && IsTable(s, l, 3)
    ensures var t := s.role[l];
            LowAt(s.mem, t.root, t.path) == Some(l) && IsTable(s, t.root, 1) && t.path < WORDS * WORDS
  {
    hide FreeOk, Counts, Soles, EntryOk;
    hide Follow;
    var t := s.role[l];
    assert TableOk(s, l);
    var m := t.parent;
    assert TableOk(s, m);
    assert TableOk(s, s.role[m].parent);
    LowPath(t.path, s.role[m].path);
  }

  lemma {:induction false} LowPath(path: nat, up: nat)
    requires up == path / WORDS && up / WORDS == 0
    ensures path < WORDS * WORDS && up < WORDS && up % WORDS == up
  {
  }
}
