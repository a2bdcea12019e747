/** Physical memory, page tables and page counts, and what holds of them between calls.
    Page tables and user pages live in the same memory; what each frame is used for is
    specification state. */
module VmState {
  import opened Options
  import opened VmWords

  const WORDS: nat := 512

  /** User page numbers: 39 address bits in 4 KiB pages. */
  const VPNS: nat := 0x800_0000

  const MAGIC: nat := 0x46_5245_4550_4147

  /** What a frame is used for. `cut` is how far `vm_free_space` has come through a
      table: entries below it have been given up. The entry `i` of the table at `path`
      leads to what is at `path * 512 + i` one level down, so the path of a leaf entry is
      its page number. */
  datatype Role =
    | Free
    | Held
    | Table(level: nat, root: nat, parent: nat, path: nat, cut: nat)
    | Data(vpn: nat)

  /** `refs` counts the holders beyond the first of the frames from `base`; `slack` is how
      many of those counted are no longer there. */
  datatype S = S(
    mem: seq<seq<nat>>, refs: seq<nat>, head: nat, next: nat, base: nat, top: nat,
    free: seq<nat>, role: seq<Role>, slack: seq<nat>)

  datatype Slot = Slot(table: nat, index: nat)

  function At(mem: seq<seq<nat>>, f: nat, i: nat): nat
  {
    if f < |mem| && i < |mem[f]| then mem[f][i] else 0
  }

  /** `refs_index` and the count behind it. */
  function Extra(s: S, f: nat): nat
  {
    if s.base <= f < s.base + |s.refs| then s.refs[f - s.base] else 0
  }

  // ---- the view a program has ----

  /** What a program sees at a page: the words and the attributes. */
  datatype View = Unmapped | Mapped(words: seq<nat>, attrs: nat)

  function Follow(mem: seq<seq<nat>>, f: nat, i: nat): Option<nat>
  {
    if Linked(At(mem, f, i)) then Some(FrameOf(At(mem, f, i))) else None
  }

  function LowAt(mem: seq<seq<nat>>, root: nat, path: nat): Option<nat>
  {
    match Follow(mem, root, path / WORDS)
    case None => None
    case Some(m) => Follow(mem, m, path % WORDS)
  }

  /** The leaf entry the hardware's three-level walk ends at, 0 if it stops earlier. */
  function EntryAt(mem: seq<seq<nat>>, root: nat, vpn: nat): nat
  {
    match LowAt(mem, root, vpn / WORDS)
    case None => 0
    case Some(l) => At(mem, l, vpn % WORDS)
  }

  function Seen(mem: seq<seq<nat>>, w: nat): View
  {
    if UserPage(w) && FrameOf(w) < |mem| then Mapped(mem[FrameOf(w)], Attrs(w)) else Unmapped
  }

  function ViewAt(mem: seq<seq<nat>>, root: nat, vpn: nat): View
  {
    Seen(mem, EntryAt(mem, root, vpn))
  }

  // ---- the invariant ----

  ghost predicate Shape(s: S)
  {
    0 < s.base <= s.next <= s.top <= MAX_FRAME
    && |s.mem| == s.top && |s.role| == s.top && |s.slack| == s.top && |s.refs| == s.top - s.base
    && (forall f :: 0 <= f < s.top ==> |s.mem[f]| == WORDS)
    && (forall k :: 0 <= k < |s.refs| ==> s.refs[k] <= 255)
  }

  /** The word that leads to element `k` of the free list. */
  function LinkWord(free: seq<nat>, k: nat): nat
  {
    if k < |free| then free[k] * 4096 else 0
  }

  ghost predicate ListedOk(s: S, k: nat)
    requires Shape(s) && k < |s.free|
  {
    var f := s.free[k];
    s.base <= f < s.next && s.role[f] == Free
    && s.mem[f][0] == LinkWord(s.free, k + 1) && s.mem[f][1] == MAGIC
  }

  ghost predicate Threaded(s: S)
    requires Shape(s)
  {
    s.head == LinkWord(s.free, 0) && forall k {:trigger s.free[k]} :: 0 <= k < |s.free| ==> ListedOk(s, k)
  }

  ghost predicate Distinct(free: seq<nat>)
  {
    forall j, k :: 0 <= j < k < |free| ==> free[j] != free[k]
  }

  /** Free frames are listed or were never handed out; those below `base` never are free. */
  ghost predicate Covered(s: S)
    requires Shape(s)
  {
    (forall f :: 0 <= f < s.top && s.role[f] == Free ==> f in s.free || s.next <= f)
    && (forall f :: s.next <= f < s.top ==> s.role[f] == Free)
    && (forall f :: 0 <= f < s.base ==> s.role[f] == Held)
  }

  /** The free list is threaded through distinct free frames, and every free frame is on
      it or was never handed out. */
  ghost predicate FreeOk(s: S)
    requires Shape(s)
  {
    Threaded(s) && Distinct(s.free) && Covered(s)
  }

  /** Frame `f` is a table, `level` levels down in its space. */
  ghost predicate IsTable(s: S, f: nat, level: nat)
  {
    f < |s.role| && s.role[f].Table? && s.role[f].level == level
  }

  ghost predicate ParentOk(s: S, f: nat)
    requires f < |s.role| && s.role[f].Table?
  {
    var t := s.role[f];
    t.cut <= WORDS
    && if t.level == 1 then t.root == f && t.path == 0 else
         2 <= t.level <= 3 && IsTable(s, t.parent, t.level - 1)
         && s.role[t.parent].root == t.root && s.role[t.parent].path == t.path / WORDS
         && s.role[t.parent].cut <= t.path % WORDS
         && Follow(s.mem, t.parent, t.path % WORDS) == Some(f)
  }

  ghost predicate ChildOk(s: S, f: nat, i: nat, c: nat)
    requires f < |s.role| && s.role[f].Table?
  {
    var t := s.role[f];
    c < |s.role|
    && if t.level < 3 then
         IsTable(s, c, t.level + 1) && s.role[c].root == t.root && s.role[c].parent == f
         && s.role[c].path == t.path * WORDS + i
       else s.role[c] == Data(t.path * WORDS + i)
  }

  ghost predicate EntryOk(s: S, f: nat, i: nat)
    requires f < |s.role| && s.role[f].Table?
  {
    var w := At(s.mem, f, i);
    w == 0 || (Linked(w) && (s.role[f].level == 3 ==> El0(w)) && ChildOk(s, f, i, FrameOf(w)))
  }

  ghost predicate TableOk(s: S, f: nat)
    requires f < |s.role|
  {
    s.role[f].Table? ==>
      ParentOk(s, f) && forall i :: s.role[f].cut <= i < WORDS ==> EntryOk(s, f, i)
  }

  /** The leaf entry `(f, i)` is in force and names page `p`. */
  ghost predicate Holds(s: S, f: nat, i: nat, p: nat)
  {
    IsTable(s, f, 3) && s.role[f].cut <= i < WORDS && Follow(s.mem, f, i) == Some(p)
  }

  ghost function Holders(s: S, p: nat): set<Slot>
  {
    set f, i | 0 <= f < |s.role| && 0 <= i < WORDS && Holds(s, f, i, p) :: Slot(f, i)
  }

  /** A page's holders are one more than its count, less those the count has lost. */
  ghost predicate CountOk(s: S, p: nat)
    requires Shape(s) && p < s.top
  {
    if s.role[p].Data? then |Holders(s, p)| + s.slack[p] == Extra(s, p) + 1
    else Extra(s, p) == 0 && s.slack[p] == 0
  }

  /** Nobody else holds a page that can be written. */
  ghost predicate SoleOk(s: S, f: nat, i: nat)
  {
    forall p :: Holds(s, f, i, p) && !Ro(At(s.mem, f, i)) ==> Holders(s, p) == {Slot(f, i)}
  }

  ghost predicate Tables(s: S)
    requires Shape(s)
  {
    forall f :: 0 <= f < s.top ==> TableOk(s, f)
  }

  ghost predicate Counts(s: S)
    requires Shape(s)
  {
    forall p :: 0 <= p < s.top ==> CountOk(s, p)
  }

  ghost predicate Soles(s: S)
  {
    forall f: nat, i: nat :: SoleOk(s, f, i)
  }

  ghost predicate Inv(s: S)
  {
    Shape(s) && FreeOk(s) && Tables(s) && Counts(s) && Soles(s)
  }

  /** An address space of which no part has been given up. */
  ghost predicate Whole(s: S, root: nat)
  {
    IsTable(s, root, 1) && forall f :: 0 <= f < |s.role| && s.role[f].Table? && s.role[f].root == root ==>
        s.role[f].cut == 0
  }

  // ---- paths ----

  lemma {:induction false} PathParts(path: nat, i: nat)
    requires i < WORDS
    ensures (path * WORDS + i) / WORDS == path && (path * WORDS + i) % WORDS == i
  {
  }

  lemma {:induction false} PathWhole(path: nat)
    ensures path / WORDS * WORDS + path % WORDS == path
  {
  }

  // ---- holders ----

  lemma {:induction false} HolderIn(s: S, f: nat, i: nat, p: nat)
    ensures Slot(f, i) in Holders(s, p) <==> Holds(s, f, i, p)
  {
  }

  /** Holders depend only on which entries hold what. */
  lemma {:induction false} HoldersSame(s: S, t: S, p: nat)
    requires |s.role| == |t.role|
    requires forall f: nat, i: nat :: Holds(s, f, i, p) <==> Holds(t, f, i, p)
    ensures Holders(s, p) == Holders(t, p)
  {
    hide Holds;
  }

}
