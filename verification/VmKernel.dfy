/** The page allocator and the address spaces of `mmu.c` and `vm.c` as the kernel changes
    them, each call proved to keep the invariant and to do to what programs see exactly
    what it should. Addresses are frame and page numbers; 0 is the null pointer. */
module VmKernel {
  import opened Options
  import opened VmWords
  import opened VmState
  import opened VmWalk
  import opened VmSteps
  import opened VmLinks
  import opened VmLeaves
  import opened VmShare
  import opened VmTeardown
  import opened VmGrowth
  import opened VmFork
  import opened VmRelease

  class Kernel {
    var mem: seq<seq<nat>>
    var refs: seq<nat>
    var freeList: nat
    var next: nat
    var top: nat
    var base: nat
    var returned: nat
    var touchedPages: nat
    ghost var free: seq<nat>
    ghost var role: seq<Role>
    ghost var slack: seq<nat>

    ghost function State(): S
      reads this
    {
      S(mem, refs, freeList, next, base, top, free, role, slack)
    }

    ghost predicate Sound()
      reads this
    {
      Inv(State()) && returned == |free|
    }

    ghost predicate Valid()
      reads this
    {
      Sound() && Settled(State())
    }

    /** Memory after `pmm_init` and `pmm_init_refs`: the frames below `start` are taken, the
        count bytes among them, and there is no space yet. */
    constructor (memory: seq<seq<nat>>, first: nat, start: nat, end: nat)
      requires 0 < first && first + (end - first + 4095) / 4096 <= start <= end <= MAX_FRAME
      requires |memory| == end && forall f :: 0 <= f < end ==> |memory[f]| == WORDS
      ensures Valid() && (forall f :: 0 <= f < |role| ==> !InUse(role[f])) && slack == seq(end, i => 0) && mem == memory
      ensures refs == seq(end - first, i => 0) && Left(State()) == end - start
    {
      mem, base, next, top := memory, first, start, end;
      refs := seq(end - first, i => 0);
      freeList, returned, touchedPages, free := 0, 0, 0, [];
      role := seq(end, i => if i < start then Held else Free);
      slack := seq(end, i => 0);
      new;
      StartOk(State());
    }

    /** A zeroed page outside every space, or 0 when there is none. The page handed out had
        not been written to since it was freed. */
    method AllocPage() returns (p: nat)
      requires Sound()
      modifies this
      ensures Sound() && touchedPages == old(touchedPages)
      ensures top == old(top) && base == old(base) && refs == old(refs) && slack == old(slack)
      ensures Kept(old(State()), State()) && SameViews(old(State()), State()) && NoNewRoots(old(State()), State())
      ensures p == 0 <==> Exhausted(old(State()))
      ensures p == 0 ==> State() == old(State()) && Left(State()) == 0
      ensures p != 0 ==> Left(State()) == Left(old(State())) - 1
      ensures p != 0 ==> Blank(State(), p) && old(State()).role[p] == Free
      ensures forall f :: 0 <= f < |role| && f != p ==> role[f] == old(role)[f] && mem[f] == old(mem)[f]
    {
      hide Tables, Counts, Soles, FreeOk;
      ghost var s := State();
      HeadNull(s);
      if freeList != 0 {
        TakeListedOk(s);
        var page := freeList / 4096;
        var touched := mem[page][1] != MAGIC;
        freeList := mem[page][0];
        returned := returned - 1;
        touchedPages := touchedPages + if touched then 1 else 0;
        mem := mem[page := Zeros()];
        free, role := free[1..], role[page := Held];
        assert State() == TakeListed(s);
        return page;
      }
      if next + 1 > top {
        NoneFree(s);
        return 0;
      }
      TakeFreshOk(s);
      p := next;
      next := next + 1;
      mem := mem[p := Zeros()];
      role := role[p := Held];
      assert State() == TakeFresh(s);
    }

    /** A page outside every space goes to the head of the list. */
    method FreePage(p: nat)
      requires Sound() && base <= p < top && role[p] == Held
      modifies this
      ensures Sound() && State() == Release(old(State()), p)
      ensures Kept(old(State()), State()) && SameViews(old(State()), State())
      ensures touchedPages == old(touchedPages)
    {
      hide FreeOk, Tables, Counts, Soles, SameViews, Kept;
      ghost var s := State();
      ReleaseOk(s, p);
      mem := PutWord(mem, p, 0, freeList);
      mem := PutWord(mem, p, 1, MAGIC);
      freeList := p * 4096;
      returned := returned + 1;
      free, role := [p] + free, role[p := Free];
      assert mem == s.mem[p := Freed(s.mem[p], s.head)];
      assert State() == Release(s, p);
    }

    /** One holder more, as far as a byte counts. */
    method PageRef(p: nat)
      modifies this`refs
      ensures refs == if base <= p < base + |old(refs)| && old(refs)[p - base] < 255 then
          old(refs)[p - base := old(refs)[p - base] + 1] else old(refs)
    {
      if p < base || p - base >= |refs| { return; }
      if refs[p - base] < 255 {
        refs := refs[p - base := refs[p - base] + 1];
      }
    }

    /** One holder fewer; how many are left. */
    method PageUnref(p: nat) returns (left: nat)
      modifies this`refs
      ensures left == old(Extra(State(), p))
      ensures refs == if left > 0 then old(refs)[p - base := left - 1] else old(refs)
    {
      if p < base || p - base >= |refs| { return 0; }
      left := 0;
      if refs[p - base] > 0 {
        refs := refs[p - base := refs[p - base] - 1];
        left := refs[p - base] + 1;
      }
    }

    method PageCount(p: nat) returns (n: nat)
      ensures n == Extra(State(), p) + 1
    {
      if p < base || p - base >= |refs| { return 1; }
      n := if refs[p - base] != 0 then refs[p - base] + 1 else 1;
    }

    /** `descend`: the table below entry `i` of table `f`, put there if there is none; 0 if
        there is no page for it. Entries of user tables are never blocks. */
    method Descend(f: nat, i: nat) returns (c: nat)
      requires Sound() && f < top && role[f].Table? && role[f].level < 3 && role[f].cut <= i < WORDS
      modifies this
      ensures Sound() && Extended(old(State()), State(), old(role)[f].root) && NoNewRoots(old(State()), State())
      ensures top == old(top) && base == old(base) && refs == old(refs) && slack == old(slack)
      ensures c != 0 ==>
          Follow(mem, f, i) == Some(c) && f < |role| && role[f] == old(role)[f] && ChildOk(State(), f, i, c)
      ensures c == 0 ==> Exhausted(old(State())) && Left(old(State())) == 0
      ensures Left(State()) >= Left(old(State())) - if c == 0 then 0 else 1
      ensures Exhausted(old(State())) ==> State() == old(State())
      ensures forall p :: 0 <= p < |role| && old(role)[p] == Held ==> role[p] == Held && mem[p] == old(mem)[p]
    {
      hide Tables, Counts, Soles, FreeOk, Extended, Whole, SameViews, Kept, Exhausted, Settled;
      ghost var s := State();
      ghost var root := role[f].root;
      StepOk(s, f, i);
      var d := At(mem, f, i);
      if d % 4 == 3 {
        c := FrameOf(d);
        ChildFrame(s, f, i, c);
        ExtendedSelf(s, root);
        return;
      }
      c := AllocPage();
      ghost var t := State();
      TakenExtends(s, t, root);
      if c == 0 { return; }
      AttachTaken(s, t, f, i, c);
      mem := PutWord(mem, f, i, TableDesc(c));
      role := role[c := Table(role[f].level + 1, root, f, role[f].path * WORDS + i, 0)];
      assert State() == Attached(t, f, i, c);
      assert NoNewRoots(t, State()) by { AttachedRoots(t, f, i, c); }
      NoNewThen(s, t, State());
      ExtendedTrans(s, t, State(), root);
      StepOk(State(), f, i);
    }

    /** A space with nothing in it, or 0. */
    method NewSpace() returns (root: nat)
      requires Valid()
      modifies this
      ensures Valid() && SameViews(old(State()), State())
      ensures base == old(base) && refs == old(refs) && slack == old(slack)
      ensures root == 0 <==> Exhausted(old(State()))
      ensures root == 0 ==> State() == old(State()) && Left(State()) == 0
      ensures root != 0 ==> Left(State()) == Left(old(State())) - 1
      ensures root != 0 ==>
          root < |old(role)| && old(role)[root] == Free && Whole(State(), root) && Grown(old(State()), State())
      ensures root != 0 ==> forall v: nat :: v < VPNS ==> ViewAt(mem, root, v) == Unmapped
      ensures |role| == |old(role)| && forall f :: 0 <= f < |role| && IsTable(State(), f, 1) ==>
          IsTable(old(State()), f, 1) || f == root
      ensures forall r: nat :: Whole(old(State()), r) && root != 0 ==> SameLows(old(State()), State(), r) && r != root
    {
      hide Tables, Counts, Soles, FreeOk, SameViews, Whole, Exhausted, ViewAt, SameLows, Holds, Grown;
      ghost var s := State();
      root := AllocPage();
      if root == 0 { return; }
      ghost var t := State();
      TakenExtends(s, t, root);
      RootedOk(t, root);
      role := role[root := Table(1, root, root, 0, 0)];
      assert State() == Rooted(t, root);
      forall r: nat | Whole(s, r)
        ensures SameLows(s, State(), r) && r != root { LowsKept(s, State(), r); FreeNotRoot(s, r, root); }
      SameTrans(s, t, State());
      RootedGrown(t, root);
      GrownTrans(s, t, State());
    }

    /** The third-level table for an address, with the tables above it put in as needed. */
    method LeafFor(root: nat, vpn: nat) returns (l: nat)
      requires Valid() && IsTable(State(), root, 1) && vpn < VPNS
      modifies this
      ensures Valid() && Extended(old(State()), State(), root) && NoNewRoots(old(State()), State())
      ensures top == old(top) && base == old(base) && refs == old(refs) && slack == old(slack)
      ensures l != 0 ==> LeafAt(State(), root, vpn, l)
      ensures l == 0 ==> Exhausted(State()) && Left(old(State())) < 2
      ensures Left(State()) >= Left(old(State())) - 2
      ensures forall p :: 0 <= p < |role| && old(role)[p] == Held ==> role[p] == Held && mem[p] == old(mem)[p]
    {
      hide Tables, Counts, Soles, FreeOk, Extended, SameViews, Exhausted, Whole, Grown, OtherLows;
      VpnPath(vpn);
      RootSelf(State(), root);
      ghost var s := State();
      var m := Descend(root, vpn / WORDS / WORDS);
      l := 0;
      assert Settled(State()) by { ExtendedSettled(s, State(), root); }
      if m != 0 {
        ghost var t := State();
        l := Descend(m, vpn / WORDS % WORDS);
        ExtendedTrans(s, t, State(), root);
        assert Settled(State()) by { ExtendedSettled(t, State(), root); }
        if l != 0 {
          assert IsTable(State(), root, 1) by { ExtendedRole(s, State(), root, root); }
          LeafReached(State(), root, vpn, m, l);
        }
      }
    }

    /** `map_user_page`: the page goes in at the address, over whatever was there. */
    method MapPage(root: nat, va: nat, page: nat, executable: bool) returns (ok: bool)
      requires Valid() && (root == 0 || IsTable(State(), root, 1))
      requires base <= page < top && role[page] == Held
      modifies this
      ensures Valid() && refs == old(refs) && NoNewRoots(old(State()), State())
      ensures root == 0 ==> !ok
      ensures Left(State()) >= Left(old(State())) - 2 && (!ok && root != 0 ==> Left(old(State())) < 2)
      ensures ok ==> ViewSet(old(State()), State(), root, Vpn(va), Mapped(old(mem)[page], UserAttrs(executable)))
      ensures !ok || EntryAt(old(mem), root, Vpn(va)) == 0 ==> slack == old(slack)
      ensures !ok ==>
          SameViews(old(State()), State()) && page < |role| && role[page] == Held && (root != 0 ==> Exhausted(State()))
    {
      hide Tables, Counts, Soles, FreeOk, SameViews, ViewSet, Grown, OtherLows, LowAt, EntryAt;
      ghost var s := State();
      if root == 0 {
        SameSelf(s);
        return false;
      }
      var l := LeafFor(root, Vpn(va));
      ghost var t := State();
      if l == 0 { return false; }
      var i := Vpn(va) % WORDS;
      UserFields(executable);
      MapOverOk(t, l, i, page, UserAttrs(executable));
      ghost var u := MapOver(t, l, i, page, UserAttrs(executable));
      ViewSetAfter(s, t, u, root, Vpn(va), Mapped(s.mem[page], UserAttrs(executable)));
      EntryKept(s, t, root, Vpn(va), l);
      mem := PutWord(mem, l, i, PageDesc(page, UserAttrs(executable)));
      slack, role := u.slack, role[page := Data(Vpn(va))];
      assert State() == u;
      ok := true;
    }

    /** The kernel writes a page it holds, as when loading a program. */
    method FillPage(p: nat, words: seq<nat>)
      requires Valid() && p < top && role[p] == Held && |words| == WORDS
      modifies this`mem
      ensures Valid() && SameViews(old(State()), State()) && mem == old(mem)[p := words]
    {
      hide FreeOk, Tables, Counts, Soles, SameViews, Kept;
      FilledOk(State(), p, words);
      mem := mem[p := words];
    }

    /** Word by word. */
    method CopyPage(from: nat, to: nat)
      requires from < |mem| && to < |mem| && from != to && |mem[from]| == WORDS && |mem[to]| == WORDS
      modifies this`mem
      ensures mem == old(mem)[to := old(mem)[from]]
    {
      for b := 0 to WORDS
        invariant |mem| == old(|mem|) && |mem[to]| == WORDS
        invariant forall f :: 0 <= f < |mem| && f != to ==> mem[f] == old(mem)[f]
        invariant mem[to][..b] == old(mem)[from][..b]
      {
        mem := PutWord(mem, to, b, mem[from][b]);
      }
      assert mem[to] == mem[to][..WORDS] == old(mem)[from][..WORDS] == old(mem)[from];
    }

    /** The hardware's walk to the third-level table; 0 if it does not get there. */
    method Walk(root: nat, vpn: nat) returns (l: nat)
      requires Valid() && IsTable(State(), root, 1) && vpn < VPNS
      ensures l == 0 ==> EntryAt(mem, root, vpn) == 0
      ensures l != 0 ==> LeafAt(State(), root, vpn, l) && EntryAt(mem, root, vpn) == At(mem, l, vpn % WORDS)
    {
      hide FreeOk, Tables, Counts, Soles, LeafAt;
      hide Linked, FrameOf;
      var d1 := At(mem, root, vpn / WORDS / WORDS);
      if !Linked(d1) { return 0; }
      var m := FrameOf(d1);
      var d2 := At(mem, m, vpn / WORDS % WORDS);
      if !Linked(d2) { return 0; }
      l := FrameOf(d2);
      LeafWalked(State(), root, vpn);
      LeafFrame(State(), root, vpn, l);
    }

    /** The entry lets go of its page and names its own copy. */
    method Replace(l: nat, i: nat, copy: nat)
      requires Leaf(State(), l, i) && copy < top && base <= FrameOf(At(mem, l, i)) < top
      requires Extra(State(), FrameOf(At(mem, l, i))) > 0
      modifies this`mem, this`refs, this`role
      ensures State() == Copied(old(State()), l, i, copy)
    {
      hide FreeOk, Tables, Counts, Soles, Holders;
      hide Linked, El0, Ro, FrameOf, Attrs, PageDesc;
      var d := At(mem, l, i);
      ghost var vpn := VpnOf(State(), l, i);
      var left := PageUnref(FrameOf(d));
      mem := PutWord(mem, l, i, PageDesc(copy, Attrs(d)));
      role := role[copy := Data(vpn)];
    }

    /** The half of `vm_cow_fault` for a page others hold too: a copy takes its place. */
    method CopyShared(root: nat, vpn: nat, l: nat) returns (ok: bool)
      requires Valid() && vpn < VPNS && LeafAt(State(), root, vpn, l) && Whole(State(), root)
      requires UserPage(At(mem, l, vpn % WORDS)) && Extra(State(), FrameOf(At(mem, l, vpn % WORDS))) > 0
      modifies this
      ensures Valid() && SameViews(old(State()), State()) && slack == old(slack) && NoNewRoots(old(State()), State())
      ensures ok ==> Writable(EntryAt(mem, root, vpn)) && OneEntry(old(mem), mem, root, vpn)
      ensures !ok ==> State() == old(State())
      ensures ok <==> !Exhausted(old(State()))
    {
      hide FreeOk, Tables, Counts, Soles, SameViews, Kept, Exhausted, LeafAt, EntryAt, Whole, Holders, Settled,
        OneEntry;
      hide Linked, El0, Ro, FrameOf, Attrs, PageDesc;
      ghost var s := State();
      SameSelf(s);
      var i := vpn % WORDS;
      LeafPlain(s, root, vpn, l);
      var d := At(mem, l, i);
      var p := FrameOf(d);
      LeafPage(s, l, i);
      var copy := AllocPage();
      if copy == 0 { return false; }
      ghost var t := State();
      KeptPage(s, t, p, copy);
      FilledOk(t, copy, t.mem[p]);
      CopyPage(p, copy);
      ghost var u := State();
      CopyFault(s, t, u, root, vpn, l, copy);
      LeafPlain(u, root, vpn, l);
      CopiedOk(u, l, i, copy);
      CopiedEntry(u, root, vpn, l, copy);
      ghost var v := Copied(u, l, i, copy);
      SameTrans(s, u, v);
      SettledKept(s, v);
      OneEntryAfter(s.mem, u.mem, v.mem, root, vpn);
      Replace(l, i, copy);
      ok := true;
    }

    /** `vm_cow_fault`: a write to a page that is shared. Nobody sees a difference, and the
        entry can be written afterwards. Anything but a user page without write permission
        is refused, and so is a copy there is no page for. */
    method CowFault(root: nat, va: nat) returns (ok: bool)
      requires Valid() && (root == 0 || IsTable(State(), root, 1))
      modifies this
      ensures Valid() && SameViews(old(State()), State()) && slack == old(slack) && NoNewRoots(old(State()), State())
      ensures ok ==> Writable(EntryAt(mem, root, Vpn(va))) && OneEntry(old(mem), mem, root, Vpn(va))
      ensures !ok ==> State() == old(State())
      ensures ok <==> root != 0 && Faulting(old(mem), root, Vpn(va)) &&
                      (Extra(old(State()), FrameOf(EntryAt(old(mem), root, Vpn(va)))) > 0 ==> !Exhausted(old(State())))
    {
      hide FreeOk, Tables, Counts, Soles, SameViews, Kept, Exhausted, LeafAt, EntryAt, Whole, Holders, Settled,
        OneEntry;
      hide Linked, El0, Ro, FrameOf, Attrs, ClearRo, PageDesc;
      ghost var s := State();
      SameSelf(s);
      ZeroWord();
      if root == 0 { return false; }
      SettledWhole(s, root);
      var l := Walk(root, Vpn(va));
      if l == 0 { return false; }
      var i := Vpn(va) % WORDS;
      LeafPlain(s, root, Vpn(va), l);
      var d := At(mem, l, i);
      if !Linked(d) { return false; }
      if !El0(d) { return false; }
      if !Ro(d) { return false; }
      var p := FrameOf(d);
      LeafPage(s, l, i);
      var n := PageCount(p);
      if n > 1 {
        ok := CopyShared(root, Vpn(va), l);
        return;
      } else {
        ReopenedOk(s, l, i);
        ReopenedEntry(s, root, Vpn(va), l);
        mem := PutWord(mem, l, i, ClearRo(d));
        assert State() == Reopened(s, l, i);
        SettledKept(s, State());
      }
      ok := true;
    }

    /** A program stores a word. The hardware walks the tables; when the entry is read-only
        it faults, the kernel resolves the fault or kills the program, and the store is
        tried again. Only the storing program sees the word. */
    method Store(root: nat, va: nat, x: nat) returns (ok: bool)
      requires Valid() && Whole(State(), root)
      modifies this
      ensures Valid() && slack == old(slack) && NoNewRoots(old(State()), State())
      ensures ok ==> ViewAt(old(mem), root, Vpn(va)).Mapped? && |ViewAt(old(mem), root, Vpn(va)).words| == WORDS
      ensures ok ==> ViewSet(old(State()), State(), root, Vpn(va), Put(ViewAt(old(mem), root, Vpn(va)), WordOf(va), x))
      ensures !ok ==> State() == old(State())
      ensures ok <== ViewAt(old(mem), root, Vpn(va)).Mapped? && !Exhausted(old(State()))
    {
      hide FreeOk, Tables, Counts, Soles, SameViews, ViewSet, Exhausted, LeafAt, EntryAt, Whole, Settled,
        OneEntry, ViewAt;
      hide Linked, El0, Ro, FrameOf, Attrs;
      ghost var s := State();
      RootIs(s, root);
      var vpn := Vpn(va);
      var l := Walk(root, vpn);
      ZeroWord();
      MappedIff(s, root, vpn);
      if l == 0 { return false; }
      var d := At(mem, l, vpn % WORDS);
      if !UserPage(d) { return false; }
      SameSelf(s);
      if Ro(d) {
        ok := CowFault(root, va);
        if !ok { return; }
      }
      ghost var t := State();
      assert Whole(t, root) by { StillWhole(s, t, root); }
      StoreThrough(root, va, x);
      StoreSeen(s, t, State(), root, vpn, WordOf(va), x);
      ok := true;
    }

    /** The store itself, through an entry that can be written. */
    method StoreThrough(root: nat, va: nat, x: nat)
      requires Valid() && Whole(State(), root) && Writable(EntryAt(mem, root, Vpn(va)))
      modifies this`mem
      ensures Valid()
      ensures ViewAt(old(mem), root, Vpn(va)).Mapped? && |ViewAt(old(mem), root, Vpn(va)).words| == WORDS
      ensures ViewSet(old(State()), State(), root, Vpn(va), Put(ViewAt(old(mem), root, Vpn(va)), WordOf(va), x))
    {
      hide FreeOk, Tables, Counts, Soles, ViewSet, EntryAt, Settled, ViewAt, LowAt;
      ZeroWord();
      hide Linked, El0, Ro, FrameOf, Attrs;
      ghost var s := State();
      var vpn := Vpn(va);
      RootIs(s, root);
      var l := Walk(root, vpn);
      EntrySeen(s, root, vpn);
      var d := At(mem, l, vpn % WORDS);
      StoredOk(s, l, vpn % WORDS, WordOf(va), x);
      mem := PutWord(mem, FrameOf(d), WordOf(va), x);
      SettledKept(s, State());
    }

    /** `cow_share` and `map_user_page_raw` for one page of a fork. */
    method CopySlot(src: nat, child: nat, vpn: nat, l: nat) returns (ok: bool)
      requires Valid() && src != child && Whole(State(), src) && Whole(State(), child) && vpn < VPNS
      requires LeafAt(State(), src, vpn, l) && Linked(At(mem, l, vpn % WORDS))
      requires Extra(State(), FrameOf(At(mem, l, vpn % WORDS))) < 255
      requires EntryAt(mem, child, vpn) == 0
      modifies this
      ensures Valid() && CopyStep(old(State()), State(), src, child, vpn, ok) && NoNewRoots(old(State()), State())
      ensures !ok ==> Exhausted(State()) && Left(old(State())) < 2
      ensures ok ==> Left(State()) >= Left(old(State())) - 2 && CountedAt(old(State()), State(), src, vpn, 1)
    {
      hide FreeOk, Tables, Counts, Soles, SameViews, Exhausted, EntryAt, LowAt, Whole, OneEntry, CopyStep;
      hide SameLows, CountsOff, ViewSet, AllRo, Grown, OtherLows, SameEntries, ViewAt, Holds, Holders, Settled;
      ghost var s := State();
      var i := vpn % WORDS;
      var d := At(mem, l, i);
      SetRoFields(d);
      ZeroWord();
      hide Linked, El0, Ro, FrameOf, Attrs, SetRo;
      LeafPage(s, l, i);
      ForkPinned(s, src, vpn, l);
      var w := SetRo(d);
      Share(l, i);
      ghost var a := State();
      assert IsTable(a, child, 1) by { StillWhole(s, a, child); RootIs(a, child); }
      assert Whole(a, src) by { StillWhole(s, a, src); }
      var k := LeafFor(child, vpn);
      ghost var b := State();
      ForkGrown(a, b, src, child, FrameOf(d));
      ForkHalf(s, a, b, src, child, vpn);
      if k == 0 { return false; }
      LeafPlain(b, child, vpn, k);
      ChildEmpty(s, b, child, vpn, k);
      EntriesAt(a.mem, b.mem, src, vpn);
      ForkJoined(b, src, child, vpn, k, w);
      ForkWhole(s, b, JoinedIn(b, k, i, w), src, child, vpn);
      mem := PutWord(mem, k, i, w);
      slack := slack[FrameOf(w) := slack[FrameOf(w)] - 1];
      assert State() == JoinedIn(b, k, i, w);
      NoNewThen(s, b, State());
      EntriesAt(b.mem, mem, src, vpn);
      CountedOnce(s, State(), src, vpn, l);
      ok := true;
    }

    /** `cow_share` */
    method Share(l: nat, i: nat)
      requires Leaf(State(), l, i) && base <= FrameOf(At(mem, l, i)) < top
      requires Extra(State(), FrameOf(At(mem, l, i))) < 255
      modifies this`mem, this`refs, this`slack
      ensures State() == Pinned(old(State()), l, i)
    {
      hide FreeOk, Tables, Counts, Soles, Holders;
      hide Linked, El0, Ro, FrameOf, Attrs, SetRo;
      var d := At(mem, l, i);
      mem := PutWord(mem, l, i, SetRo(d));
      PageRef(FrameOf(d));
      slack := slack[FrameOf(d) := slack[FrameOf(d)] + 1];
    }

    /** The innermost loop of `vm_copy_space`. */
    method CopyLow(ghost s0: S, src: nat, child: nat, path: nat, l: nat) returns (ok: bool)
      requires Valid() && path < WORDS * WORDS && Copying(s0, State(), src, child, path * WORDS)
      requires LowAt(s0.mem, src, path) == Some(l) && Tally(s0, State(), src, path * WORDS)
      modifies this
      ensures Valid() && OthersSame(s0, State(), child) && NoNewRoots(old(State()), State())
      ensures ok ==> Copying(s0, State(), src, child, (path + 1) * WORDS) && Tally(s0, State(), src, (path + 1) * WORDS)
      ensures ok ==> Paid(s0.mem, src, path * WORDS, (path + 1) * WORDS, Left(old(State())), Left(State()))
      ensures !ok ==> Exhausted(State()) && Short(s0.mem, src, path * WORDS, (path + 1) * WORDS, Left(old(State())))
    {
      hide Inv, Settled, Exhausted, LowAt, Whole, SameLows, OthersSame, RoomFrom, EntriesFrom, SeenTo, CopyStep,
        LeafAt, EntryAt, Tally, Pages, CountedAt;
      hide Linked;
      ghost var t0 := State();
      for i := 0 to WORDS
        invariant Valid() && Copying(s0, State(), src, child, path * WORDS + i) && NoNewRoots(t0, State())
        invariant Tally(s0, State(), src, path * WORDS + i)
        invariant Paid(s0.mem, src, path * WORDS, path * WORDS + i, Left(t0), Left(State()))
      {
        ghost var s := State();
        ghost var vpn := path * WORDS + i;
        PathParts(path, i);
        assert vpn < VPNS;
        CopyingEntry(s0, s, src, child, vpn, l);
        if Linked(At(mem, l, i)) {
          ok := CopySlot(src, child, path * WORDS + i, l);
          PagesNext(s0.mem, src, vpn);
          if !ok {
            StepOthers(s0, s, State(), src, child, vpn);
            PagesMono(s0.mem, src, vpn + 1, (path + 1) * WORDS);
            return;
          }
          CopyingStep(s0, s, State(), src, child, vpn);
          TallyStep(s0, s, State(), src, child, vpn);
        } else {
          CopyingSkip(s0, s, src, child, vpn, vpn + 1);
          TallySkip(s0, s, src, vpn, vpn + 1);
          PagesNone(s0.mem, src, vpn, vpn + 1);
        }
      }
      ok := true;
    }

    method CopyMid(ghost s0: S, src: nat, child: nat, i1: nat, m: nat) returns (ok: bool)
      requires Valid() && i1 < WORDS && Copying(s0, State(), src, child, i1 * (WORDS * WORDS))
      requires Follow(s0.mem, src, i1) == Some(m) && Tally(s0, State(), src, i1 * (WORDS * WORDS))
      modifies this
      ensures Valid() && OthersSame(s0, State(), child) && NoNewRoots(old(State()), State())
      ensures ok ==> Copying(s0, State(), src, child, (i1 + 1) * (WORDS * WORDS))
      ensures ok ==> Tally(s0, State(), src, (i1 + 1) * (WORDS * WORDS))
      ensures ok ==> Paid(s0.mem, src, i1 * (WORDS * WORDS), (i1 + 1) * (WORDS * WORDS), Left(old(State())),
          Left(State()))
      ensures !ok ==> Exhausted(State())
      ensures !ok ==> Short(s0.mem, src, i1 * (WORDS * WORDS), (i1 + 1) * (WORDS * WORDS), Left(old(State())))
    {
      hide Inv, Settled, Exhausted, LowAt, Whole, OthersSame, RoomFrom, EntriesFrom, SeenTo, EntryAt, Tally, Pages;
      hide Linked, FrameOf;
      ghost var t0 := State();
      for i := 0 to WORDS
        invariant Valid() && Copying(s0, State(), src, child, (i1 * WORDS + i) * WORDS) && NoNewRoots(t0, State())
        invariant Tally(s0, State(), src, (i1 * WORDS + i) * WORDS)
        invariant Paid(s0.mem, src, i1 * (WORDS * WORDS), (i1 * WORDS + i) * WORDS, Left(t0), Left(State()))
      {
        ghost var path := i1 * WORDS + i;
        PathParts(i1, i);
        assert path < WORDS * WORDS;
        LowStep(s0, State(), src, child, i1, m, i);
        var d := At(mem, m, i);
        if Linked(d) {
          ok := CopyLow(s0, src, child, i1 * WORDS + i, FrameOf(d));
          if !ok {
            PagesMono(s0.mem, src, (path + 1) * WORDS, (i1 + 1) * (WORDS * WORDS));
            return;
          }
        } else {
          forall v: nat | path * WORDS <= v < (path + 1) * WORDS
            ensures EntryAt(s0.mem, src, v) == 0 { NoLow(s0, src, path, v); }
          CopyingSkip(s0, State(), src, child, path * WORDS, (path + 1) * WORDS);
          TallySkip(s0, State(), src, path * WORDS, (path + 1) * WORDS);
          PagesNone(s0.mem, src, path * WORDS, (path + 1) * WORDS);
        }
      }
      ok := true;
    }

    /** `vm_copy_space`: the child's programs see what the parent's do, and nobody else sees
        a thing. 0 if there was no page for a table; what had been built by then stays. */
    method Fork(src: nat) returns (child: nat)
      requires Valid() && Whole(State(), src) && RoomFrom(State(), src, 0)
      modifies this
      ensures Valid() && SameViews(old(State()), State())
      ensures child != 0 ==>
          child < |old(role)| && old(role)[child] == Free && Whole(State(), child) && slack == old(slack)
      ensures child != 0 ==> forall v: nat :: v < VPNS ==> ViewAt(mem, child, v) == ViewAt(old(mem), src, v)
      ensures child != 0 ==> |role| == |old(role)| && forall f :: 0 <= f < |role| && IsTable(State(), f, 1) ==>
          IsTable(old(State()), f, 1) || f == child
      ensures child != 0 ==> Tally(old(State()), State(), src, VPNS)
      ensures child != 0 ==> Left(State()) >= Left(old(State())) - 1 - 2 * Pages(old(mem), src, VPNS)
      ensures child == 0 ==> Exhausted(State()) && Left(old(State())) < 1 + 2 * Pages(old(mem), src, VPNS)
    {
      hide Inv, Settled, Exhausted, Whole, RoomFrom, EntriesFrom, EntryAt, ViewAt, SameViews, OthersSame,
        SameLows, Grown, Tally, Pages;
      hide Linked, FrameOf;
      ghost var s0 := State();
      var c := NewSpace();
      if c == 0 { return 0; }
      assert Whole(State(), src) by { StillWhole(s0, State(), src); }
      EntriesFor(s0, State(), src);
      CopyingStart(s0, State(), src, c);
      TallyStart(s0, State(), src);
      ghost var t0 := State();
      for i := 0 to WORDS
        invariant Valid() && Copying(s0, State(), src, c, i * (WORDS * WORDS)) && NoNewRoots(t0, State())
        invariant Tally(s0, State(), src, i * (WORDS * WORDS))
        invariant Paid(s0.mem, src, 0, i * (WORDS * WORDS), Left(t0), Left(State()))
      {
        TopStep(s0, State(), src, c, i);
        var d := At(mem, src, i);
        if Linked(d) {
          var ok := CopyMid(s0, src, c, i, FrameOf(d));
          if !ok {
            OrphanUnseen(s0, State(), c);
            PagesMono(s0.mem, src, (i + 1) * (WORDS * WORDS), VPNS);
            return 0;
          }
        } else {
          forall v: nat | i * (WORDS * WORDS) <= v < (i + 1) * (WORDS * WORDS)
            ensures EntryAt(s0.mem, src, v) == 0 { NoMid(s0, src, i, v); }
          CopyingSkip(s0, State(), src, c, i * (WORDS * WORDS), (i + 1) * (WORDS * WORDS));
          TallySkip(s0, State(), src, i * (WORDS * WORDS), (i + 1) * (WORDS * WORDS));
          PagesNone(s0.mem, src, i * (WORDS * WORDS), (i + 1) * (WORDS * WORDS));
        }
      }
      OrphanUnseen(s0, State(), c);
      child := c;
    }

    /** Give one leaf entry back: the page too, if nobody else holds it. */
    method FreeSlot(l: nat, i: nat)
      requires Sound() && Next(State(), l) && role[l].level == 3 && role[l].cut == i
      modifies this
      ensures Sound() && PassedTo(old(State()), State(), l, i + 1)
      ensures OthersSame(old(State()), State(), old(role)[l].root) && touchedPages == old(touchedPages)
    {
      hide FreeOk, Tables, Counts, Soles, OthersSame, Holders, SameViews, Kept;
      ZeroWord();
      hide Linked, El0, FrameOf;
      ghost var s := State();
      ghost var root := role[l].root;
      if Linked(At(mem, l, i)) {
        var p := FrameOf(At(mem, l, i));
        LeafPage(s, l, i);
        var left := PageUnref(p);
        if left == 0 {
          CutLastOk(s, l, p);
          role := Advance(role, l)[p := Held];
          assert State() == CutLast(s, l, p);
          FreePage(p);
          OthersRelease(s, CutLast(s, l, p), State(), root);
          PassedFreed(s, l, p);
        } else {
          CutSharedOk(s, l, p);
          role := Advance(role, l);
          assert State() == CutShared(s, l, p);
        }
      } else {
        EmptyNext(s, l);
        CutEmptyOk(s, l);
        role := Advance(role, l);
        assert State() == CutEmpty(s, l);
      }
    }

    /** The innermost loop of `vm_free_space`. */
    method FreeLow(l: nat)
      requires Sound() && IsTable(State(), l, 3) && role[l].cut == 0
      modifies this
      ensures Sound() && PassedTo(old(State()), State(), l, WORDS)
      ensures OthersSame(old(State()), State(), old(role)[l].root) && touchedPages == old(touchedPages)
    {
      hide FreeOk, Tables, Counts, Soles, OthersSame;
      ghost var s := State();
      ghost var root := role[l].root;
      OthersSelf(s, root);
      for i := 0 to WORDS
        invariant Sound() && PassedTo(s, State(), l, i) && OthersSame(s, State(), root)
        invariant touchedPages == old(touchedPages)
      {
        ghost var t := State();
        FreeSlot(l, i);
        PassedMore(s, t, State(), l, i, i + 1);
        OthersThen(s, t, State(), root);
      }
    }

    /** A table that has been walked through goes back, and its parent passes the entry. */
    method Dismiss(f: nat, c: nat)
      requires Sound() && Next(State(), f) && role[f].level < 3 && Follow(mem, f, role[f].cut) == Some(c)
      requires base <= c < top && role[c].Table? && role[c].cut == WORDS
      modifies this
      ensures Sound() && State() == Dismissed(old(State()), f, c)
      ensures OthersSame(old(State()), State(), old(role)[f].root) && touchedPages == old(touchedPages)
    {
      hide FreeOk, Tables, Counts, Soles, OthersSame, Kept, SameViews, Follow;
      ghost var s := State();
      CutTableOk(s, f, c);
      role := Advance(role, f)[c := Held];
      assert State() == CutTable(s, f, c);
      FreePage(c);
      OthersRelease(s, CutTable(s, f, c), State(), s.role[f].root);
    }

    /** The middle loop. */
    method FreeMid(m: nat)
      requires Sound() && IsTable(State(), m, 2) && role[m].cut == 0 && CutOnly(State(), {role[m].root})
      modifies this
      ensures Sound() && PassedBelow(old(State()), State(), m, WORDS) && CutOnly(State(), {old(role)[m].root, m})
      ensures OthersSame(old(State()), State(), old(role)[m].root) && touchedPages == old(touchedPages)
    {
      hide FreeOk, Tables, Counts, Soles, OthersSame, Follow;
      hide Linked, FrameOf;
      ghost var s := State();
      ghost var root := role[m].root;
      OthersSelf(s, root);
      for i := 0 to WORDS
        invariant Sound() && PassedBelow(s, State(), m, i) && CutOnly(State(), {root, m})
        invariant OthersSame(s, State(), root) && touchedPages == old(touchedPages)
      {
        ghost var t := State();
        var d := At(mem, m, i);
        if Linked(d) {
          BelowOk(t, m);
          var l := FrameOf(d);
          LowNotIn(t, l, root, m);
          FreeLow(l);
          ghost var u := State();
          PassedIsBelow(t, u, l, WORDS);
          BelowStep(s, t, u, m, l);
          CutOnlyStep(t, u, m, l, {root, m});
          LinkStays(t, u, m, i);
          Dismiss(m, l);
          OthersThen(s, t, u, root);
          OthersThen(s, u, State(), root);
        } else {
          EmptyNext(t, m);
          CutEmptyOk(t, m);
          BelowEmpty(s, t, m, {root, m});
          role := Advance(role, m);
          assert State() == CutEmpty(t, m);
          OthersThen(s, t, State(), root);
        }
      }
    }

    /** `vm_free_space`: the space is gone, and every other program sees what it saw. */
    method FreeSpace(root: nat)
      requires Valid() && (root == 0 || Whole(State(), root))
      modifies this
      ensures Valid() && OthersSame(old(State()), State(), root) && slack == old(slack)
          && NoNewRoots(old(State()), State())
      ensures touchedPages == old(touchedPages)
      ensures root == 0 ==> State() == old(State())
      ensures root != 0 ==> root < |role| && role[root] == Free && forall f :: 0 <= f < |role| && role[f].Table? ==>
          role[f].root != root
    {
      hide FreeOk, Tables, Counts, Soles, OthersSame, Follow;
      hide Linked, FrameOf;
      ghost var s := State();
      OthersSelf(s, root);
      if root == 0 { return; }
      RootSelf(s, root);
      for i := 0 to WORDS
        invariant Sound() && PassedBelow(s, State(), root, i) && CutOnly(State(), {root})
        invariant OthersSame(s, State(), root) && touchedPages == old(touchedPages)
      {
        ghost var t := State();
        var d := At(mem, root, i);
        if Linked(d) {
          BelowOk(t, root);
          var m := FrameOf(d);
          FreeMid(m);
          ghost var u := State();
          BelowStep(s, t, u, root, m);
          CutOnlyStep(t, u, root, m, {root});
          LinkStays(t, u, root, i);
          Dismiss(root, m);
          OthersThen(s, t, u, root);
          OthersThen(s, u, State(), root);
        } else {
          EmptyNext(t, root);
          CutEmptyOk(t, root);
          BelowEmpty(s, t, root, {root});
          role := Advance(role, root);
          assert State() == CutEmpty(t, root);
          OthersThen(s, t, State(), root);
        }
      }
      ghost var t := State();
      RootAt(t, root);
      CutRootOk(t, root);
      role := role[root := Held];
      assert State() == CutRoot(t, root);
      FreePage(root);
      OthersThen(s, t, CutRoot(t, root), root);
      OthersRelease(s, CutRoot(t, root), State(), root);
      SettledAfter(t, State(), root);
      NoSpaceOf(State(), root);
    }

    /** `vm_user_ok`: may the kernel read, or write, this range on the program's behalf? A
        yes means every page of it is there, and for a write that every page can be written
        without a fault; nobody sees the copies that took. */
    method UserOk(root: nat, va: nat, len: nat, write: bool) returns (ok: bool)
      requires Valid() && Whole(State(), root) && va < 0x1_0000_0000_0000_0000 && len < 0x1_0000_0000_0000_0000
      modifies this
      ensures Valid() && SameViews(old(State()), State()) && slack == old(slack)
      ensures ok && len > 0 ==> va + len <= USER_LIMIT
      ensures ok && len > 0 ==> forall v: nat :: va / 4096 <= v <= (va + len - 1) / 4096 ==>
        ViewAt(mem, root, v).Mapped? && (write ==> Writable(EntryAt(mem, root, v)))
      ensures !write ==> State() == old(State())
      ensures len == 0 ==> ok
      ensures !write && len > 0 && va + len <= USER_LIMIT && !ok ==>
          exists v: nat :: va / 4096 <= v <= (va + len - 1) / 4096 && ViewAt(mem, root, v) == Unmapped
    {
      hide Inv, Settled, SameViews, Whole, EntryAt, ViewAt, OneEntry;
      hide Linked, El0, Ro;
      ghost var s := State();
      SameSelf(s);
      if len == 0 { return true; }
      if va + len >= 0x1_0000_0000_0000_0000 { return false; }
      if va >= USER_LIMIT || va + len > USER_LIMIT { return false; }
      var p := va / 4096;
      while p * 4096 < va + len
        invariant va / 4096 <= p <= (va + len - 1) / 4096 + 1
        invariant Valid() && SameViews(s, State()) && Whole(State(), root) && slack == old(slack)
        invariant !write ==> State() == s
        invariant forall v: nat :: va / 4096 <= v < p ==>
            ViewAt(mem, root, v).Mapped? && (write ==> Writable(EntryAt(mem, root, v)))
      {
        ghost var t := State();
        assert p < VPNS && Vpn(p * 4096) == p by { PageNumber(p, va, len); }
        ok := TouchPage(root, p, write);
        if !ok {
          SameTrans(s, t, State());
          return;
        }
        StillWhole(t, State(), root);
        SameTrans(s, t, State());
        EntriesBut(t.mem, mem, root, p);
        p := p + 1;
      }
      ok := true;
    }

    /** One page of `vm_user_ok`. */
    method TouchPage(root: nat, p: nat, write: bool) returns (ok: bool)
      requires Valid() && Whole(State(), root) && p < VPNS && Vpn(p * 4096) == p
      modifies this
      ensures Valid() && SameViews(old(State()), State()) && slack == old(slack)
      ensures ok ==> ViewAt(mem, root, p).Mapped? && (write ==> Writable(EntryAt(mem, root, p)))
      ensures OneEntry(old(mem), mem, root, p)
      ensures !write ==> State() == old(State()) && (ok <==> ViewAt(mem, root, p).Mapped?)
    {
      hide FreeOk, Tables, Counts, Soles, Settled, SameViews, Whole, EntryAt, OneEntry, LeafAt;
      ZeroWord();
      hide Linked, El0, Ro, FrameOf, Attrs, ViewAt;
      ghost var s := State();
      SameSelf(s);
      OneEntrySelf(mem, root, p);
      RootIs(s, root);
      MappedIff(s, root, p);
      var l := Walk(root, p);
      if l == 0 { return false; }
      var d := At(mem, l, p % WORDS);
      if !Linked(d) { return false; }
      if !El0(d) { return false; }
      if write && Ro(d) {
        ok := CowFault(root, p * 4096);
        if !ok { return false; }
        StillWhole(s, State(), root);
        return true;
      }
      ok := true;
    }
  }
}
