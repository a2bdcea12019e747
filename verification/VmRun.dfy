/** Whole runs. The simple form of a fork copies everything: processes are maps from page
    numbers to pages and share nothing. A run of the kernel shows every program exactly what
    that form shows it, until a fork meets a page whose count is full. */
module VmRun {
  import opened VmWords
  import opened VmState
  import opened VmSteps
  import opened VmShare
  import opened VmTeardown
  import opened VmGrowth
  import opened VmFork
  import opened VmWalk
  import opened VmBounds
  import opened VmKernel

  /** What a process has: the pages that are there, by number. */
  datatype Proc = Gone | Alive(pages: map<nat, View>)

  /** What programs do. Processes are named by the order in which they were made. */
  datatype Op =
    | Spawn
    | Load(who: nat, va: nat, words: seq<nat>, executable: bool)
    | Fork(who: nat)
    | Write(who: nat, va: nat, x: nat)
    | Exit(who: nat)

  predicate Lives(procs: seq<Proc>, who: nat)
  {
    who < |procs| && procs[who].Alive?
  }

  /** One operation in the simple form; `ok` is whether memory sufficed and the process was
      entitled to it. */
  function Copied(procs: seq<Proc>, op: Op, ok: bool): (r: seq<Proc>)
  {
    match op
    case Spawn => procs + [if ok then Alive(map[]) else Gone]
    case Fork(who) => procs + [if ok && Lives(procs, who) then procs[who] else Gone]
    case Load(who, va, words, executable) =>
      if ok && Lives(procs, who) then
          procs[who := Alive(procs[who].pages[Vpn(va) := Mapped(words, UserAttrs(executable))])] else procs
    case Write(who, va, x) =>
      if ok && Lives(procs, who) && Vpn(va) in procs[who].pages && Full(procs[who].pages[Vpn(va)])
      then procs[who := Alive(procs[who].pages[Vpn(va) := Put(procs[who].pages[Vpn(va)], WordOf(va), x)])] else procs
    case Exit(who) => if Lives(procs, who) then procs[who := Gone] else procs
  }

  predicate Full(x: View)
  {
    x.Mapped? && |x.words| == WORDS
  }

  function CopiedAll(ops: seq<Op>, oks: seq<bool>): (r: seq<Proc>)
    requires |ops| == |oks|
  {
    if ops == [] then [] else Copied(CopiedAll(ops[..|ops| - 1], oks[..|ops| - 1]), ops[|ops| - 1], oks[|ops| - 1])
  }

  function PageOf(p: Proc, v: nat): View
  {
    if p.Alive? && v in p.pages then p.pages[v] else Unmapped
  }

  /** The space of `root` shows what the process has. */
  ghost predicate Shows(s: S, root: nat, p: Proc)
  {
    p.Alive? ==> Whole(s, root) && forall v: nat :: v < VPNS ==> ViewAt(s.mem, root, v) == PageOf(p, v)
  }

  /** Every process has a space of its own that shows what it has. */
  ghost predicate Agrees(s: S, roots: seq<nat>, procs: seq<Proc>)
  {
    |roots| == |procs|
    && (forall j :: 0 <= j < |procs| ==> Shows(s, roots[j], procs[j]))
    && (forall i, j :: 0 <= i < j < |procs| && procs[i].Alive? && procs[j].Alive? ==> roots[i] != roots[j])
  }

  lemma {:induction false} AgreesSame(s: S, t: S, roots: seq<nat>, procs: seq<Proc>)
    requires Agrees(s, roots, procs) && SameViews(s, t)
    ensures Agrees(t, roots, procs)
  {
    hide Whole, ViewAt;
    forall j | 0 <= j < |procs| ensures Shows(t, roots[j], procs[j]) {
      assert SpaceSame(s, t, roots[j]);
    }
  }

  /** A process more. */
  lemma {:induction false} AgreesMore(s: S, t: S, roots: seq<nat>, procs: seq<Proc>, root: nat, p: Proc)
    requires Agrees(s, roots, procs) && SameViews(s, t) && Shows(t, root, p)
    requires p.Alive? ==> root < |s.role| && s.role[root] == Free
    ensures Agrees(t, roots + [root], procs + [p])
  {
    hide ViewAt;
    forall j | 0 <= j < |procs| ensures Shows(t, roots[j], procs[j]) {
      assert SpaceSame(s, t, roots[j]);
      assert Shows(s, roots[j], procs[j]);
    }
    forall j | 0 <= j < |procs| && procs[j].Alive? ensures p.Alive? ==> roots[j] != root {
      assert Shows(s, roots[j], procs[j]);
    }
  }

  /** One page of one process changes. */
  lemma {:induction false} AgreesSet(s: S, t: S, roots: seq<nat>, procs: seq<Proc>, who: nat, vpn: nat, x: View)
    requires Agrees(s, roots, procs) && Lives(procs, who) && ViewSet(s, t, roots[who], vpn, x) && vpn < VPNS
    ensures Agrees(t, roots, procs[who := Alive(procs[who].pages[vpn := x])])
  {
    hide Whole, ViewAt;
    var after := procs[who := Alive(procs[who].pages[vpn := x])];
    forall j | 0 <= j < |after| ensures Shows(t, roots[j], after[j]) {
      assert SpaceSet(s, t, roots[j], roots[who], vpn, x);
      assert Shows(s, roots[j], procs[j]);
    }
  }

  lemma {:induction false} AgreesGone(s: S, t: S, roots: seq<nat>, procs: seq<Proc>, who: nat)
    requires Agrees(s, roots, procs) && Lives(procs, who) && OthersSame(s, t, roots[who])
    ensures Agrees(t, roots, procs[who := Gone])
  {
    hide Whole, ViewAt;
    var after := procs[who := Gone];
    forall j | 0 <= j < |after| ensures Shows(t, roots[j], after[j]) {
      assert Shows(s, roots[j], procs[j]);
      if j != who && procs[j].Alive? { assert SpaceSame(s, t, roots[j]); }
    }
  }

  lemma {:induction false} ShowsAt(s: S, roots: seq<nat>, procs: seq<Proc>, who: nat)
    requires Agrees(s, roots, procs) && Lives(procs, who)
    ensures Whole(s, roots[who]) && forall v: nat :: v < VPNS ==> ViewAt(s.mem, roots[who], v) == PageOf(procs[who], v)
  {
    hide Whole, ViewAt;
    assert Shows(s, roots[who], procs[who]);
  }

  /** The count behind a frame, from the kernel's own fields. */
  function CountOf(refs: seq<nat>, base: nat, f: nat): nat
  {
    if base <= f < base + |refs| then refs[f - base] else 0
  }

  /** No page of the space has a full count. */
  predicate Roomy(mem: seq<seq<nat>>, refs: seq<nat>, base: nat, root: nat)
  {
    forall v: nat | v < VPNS :: Linked(EntryAt(mem, root, v)) ==>
        CountOf(refs, base, FrameOf(EntryAt(mem, root, v))) < 255
  }

  lemma {:induction false} RoomyIs(s: S, root: nat)
    ensures Roomy(s.mem, s.refs, s.base, root) <==> RoomFrom(s, root, 0)
  {
    hide EntryAt, Linked, FrameOf;
  }

  /** Which operations have a program that can carry them out. */
  predicate WellFormed(op: Op)
  {
    op.Load? ==> |op.words| == WORDS
  }

  /** The operation is one its process can carry out if there is memory for it. */
  ghost predicate Entitled(procs: seq<Proc>, op: Op)
  {
    match op
    case Spawn => true
    case Fork(who) => Lives(procs, who)
    case Load(who, va, words, executable) => Lives(procs, who)
    case Write(who, va, x) => Lives(procs, who) && PageOf(procs[who], Vpn(va)).Mapped?
    case Exit(who) => false
  }

  /** The operation leaves no count astray: a load goes where nothing is, and a fork has memory enough. */
  predicate Tidy(procs: seq<Proc>, op: Op, ok: bool)
  {
    match op
    case Load(who, va, words, executable) => Lives(procs, who) ==> PageOf(procs[who], Vpn(va)) == Unmapped
    case Fork(who) => Lives(procs, who) ==> ok
    case _ => true
  }

  predicate AllTidy(ops: seq<Op>, oks: seq<bool>)
    requires |ops| == |oks|
  {
    ops == [] || (AllTidy(ops[..|ops| - 1], oks[..|ops| - 1])
                  && Tidy(CopiedAll(ops[..|ops| - 1], oks[..|ops| - 1]), ops[|ops| - 1], oks[|ops| - 1]))
  }

  /** How many processes are alive. */
  function Living(procs: seq<Proc>): nat
  {
    if procs == [] then 0 else Living(procs[..|procs| - 1]) + if procs[|procs| - 1].Alive? then 1 else 0
  }

  ghost predicate OfAlive(roots: seq<nat>, procs: seq<Proc>, r: nat)
  {
    exists j :: 0 <= j < |procs| && j < |roots| && procs[j].Alive? && roots[j] == r
  }

  /** Every space is some living process's. */
  ghost predicate Owned(s: S, roots: seq<nat>, procs: seq<Proc>)
  {
    forall r :: 0 <= r < |s.role| && IsTable(s, r, 1) ==> OfAlive(roots, procs, r)
  }

  lemma {:induction false} OwnedSame(s: S, t: S, roots: seq<nat>, procs: seq<Proc>, procs': seq<Proc>)
    requires Owned(s, roots, procs) && NoNewRoots(s, t)
    requires |procs'| == |procs| && forall j :: 0 <= j < |procs| && procs[j].Alive? ==> procs'[j].Alive?
    ensures Owned(t, roots, procs')
  {
    forall r | 0 <= r < |t.role| && IsTable(t, r, 1) ensures OfAlive(roots, procs', r) {
      assert OfAlive(roots, procs, r);
    }
  }

  lemma {:induction false} OwnedMore(s: S, t: S, roots: seq<nat>, procs: seq<Proc>, root: nat, p: Proc)
    requires Owned(s, roots, procs) && |roots| == |procs| && |t.role| == |s.role|
    requires forall r :: 0 <= r < |t.role| && IsTable(t, r, 1) ==> IsTable(s, r, 1) || (r == root && p.Alive?)
    ensures Owned(t, roots + [root], procs + [p])
  {
    forall r | 0 <= r < |t.role| && IsTable(t, r, 1) ensures OfAlive(roots + [root], procs + [p], r) {
      if IsTable(s, r, 1) {
        var j :| 0 <= j < |procs| && j < |roots| && procs[j].Alive? && roots[j] == r;
        assert (procs + [p])[j].Alive? && (roots + [root])[j] == r;
      } else {
        assert (procs + [p])[|procs|].Alive? && (roots + [root])[|procs|] == r;
      }
    }
  }

  lemma {:induction false} OwnedGone(s: S, t: S, roots: seq<nat>, procs: seq<Proc>, who: nat)
    requires Owned(s, roots, procs) && NoNewRoots(s, t) && who < |procs| == |roots|
    requires forall r :: 0 <= r < |t.role| && IsTable(t, r, 1) ==> r != roots[who]
    ensures Owned(t, roots, procs[who := Gone])
  {
    forall r | 0 <= r < |t.role| && IsTable(t, r, 1) ensures OfAlive(roots, procs[who := Gone], r) {
      var j :| 0 <= j < |procs| && j < |roots| && procs[j].Alive? && roots[j] == r;
      assert procs[who := Gone][j].Alive?;
    }
  }

  lemma {:induction false} AtMostLiving(rs: set<nat>, roots: seq<nat>, procs: seq<Proc>)
    requires forall r :: r in rs ==> OfAlive(roots, procs, r)
    ensures |rs| <= Living(procs)
    decreases |procs|
  {
    if procs == [] {
      assert forall r :: !OfAlive(roots, procs, r);
    } else {
      var n := |procs| - 1;
      var less := if procs[n].Alive? && n < |roots| then rs - {roots[n]} else rs;
      forall r | r in less ensures OfAlive(roots, procs[..n], r) {
        var j :| 0 <= j < |procs| && j < |roots| && procs[j].Alive? && roots[j] == r;
        assert procs[..n][j].Alive?;
      }
      AtMostLiving(less, roots, procs[..n]);
    }
  }

  /** So there are no more spaces than living processes. */
  lemma {:induction false} SpacesAtMost(s: S, roots: seq<nat>, procs: seq<Proc>)
    requires Owned(s, roots, procs)
    ensures |Roots(s)| <= Living(procs)
  {
    AtMostLiving(Roots(s), roots, procs);
  }

  /** Nothing has gone astray: every count is one below the page's holders. */
  ghost predicate Exact(s: S)
  {
    forall p :: 0 <= p < |s.role| && s.role[p].Data? ==> |Holders(s, p)| == Extra(s, p) + 1
  }

  lemma {:induction false} ExactIs(s: S)
    requires Inv(s) && forall p :: 0 <= p < |s.slack| ==> s.slack[p] == 0
    ensures Exact(s)
  {
    hide FreeOk, Tables, Soles, Holders;
    forall p | 0 <= p < |s.role| && s.role[p].Data? ensures |Holders(s, p)| == Extra(s, p) + 1 {
      assert CountOk(s, p);
    }
  }

  lemma {:induction false} NothingThere(s: S, root: nat, vpn: nat)
    requires Inv(s) && Whole(s, root) && vpn < VPNS && ViewAt(s.mem, root, vpn) == Unmapped
    ensures EntryAt(s.mem, root, vpn) == 0
  {
    hide Inv, Whole, EntryAt, ViewAt;
    MappedIff(s, root, vpn);
    EntryHeld(s, root, vpn);
  }

  /** One operation. It fails only when its process is not entitled to it or the kernel has
      run out of pages. */
  method Perform(k: Kernel, ghost procs: seq<Proc>, roots: seq<nat>, alive: seq<bool>, op: Op)
      returns (roots': seq<nat>, alive': seq<bool>, ok: bool)
    requires k.Valid() && Agrees(k.State(), roots, procs) && WellFormed(op)
    requires op.Fork? && op.who < |roots| && op.who < |alive| && alive[op.who] ==> RoomFrom(k.State(), roots[op.who], 0)
    requires |alive| == |procs| && forall j :: 0 <= j < |procs| ==> alive[j] == procs[j].Alive?
    modifies k
    ensures k.Valid() && Agrees(k.State(), roots', Copied(procs, op, ok))
    ensures !ok && Entitled(procs, op) ==> Exhausted(k.State())
    ensures |alive'| == |Copied(procs, op, ok)|
    ensures forall j :: 0 <= j < |alive'| ==> alive'[j] == Copied(procs, op, ok)[j].Alive?
    ensures Tidy(procs, op, ok) ==> k.slack == old(k.slack)
    ensures Tidy(procs, op, ok) && Owned(old(k.State()), roots, procs) ==>
        Owned(k.State(), roots', Copied(procs, op, ok))
  {
    hide Inv, Settled, Agrees, SameViews, ViewSet, OthersSame, Whole, ViewAt, Exhausted, Grown, SameLows, EntryAt;
    hide Owned;
    ghost var s := k.State();
    roots', alive', ok := roots, alive, false;
    assert |roots| == |procs| by { AgreesLength(s, roots, procs); }
    match op
    case Spawn =>
      var r := k.NewSpace();
      ok := r != 0;
      AgreesMore(s, k.State(), roots, procs, r, if ok then Alive(map[]) else Gone);
      if Owned(s, roots, procs) { OwnedMore(s, k.State(), roots, procs, r, if ok then Alive(map[]) else Gone); }
      roots', alive' := roots + [r], alive + [ok];
    case Fork(who) =>
      var r := 0;
      SameSelf(s);
      if who < |alive| && alive[who] {
        ShowsAt(s, roots, procs, who);
        r := k.Fork(roots[who]);
      }
      ok := r != 0;
      AgreesMore(s, k.State(), roots, procs, r, if ok then procs[who] else Gone);
      if Owned(s, roots, procs) && Tidy(procs, op, ok) {
        OwnedMore(s, k.State(), roots, procs, r, if ok then procs[who] else Gone);
      }
      roots', alive' := roots + [r], alive + [ok];
    case Load(who, va, words, executable) =>
      if who < |alive| && alive[who] {
        ok := LoadPage(k, procs, roots, who, va, words, executable);
        if Owned(s, roots, procs) { OwnedSame(s, k.State(), roots, procs, Copied(procs, op, ok)); }
      }
    case Write(who, va, x) =>
      if who < |alive| && alive[who] {
        ShowsAt(s, roots, procs, who);
        ok := k.Store(roots[who], va, x);
        if ok {
          AgreesSet(s, k.State(), roots, procs, who, Vpn(va), Put(procs[who].pages[Vpn(va)], WordOf(va), x));
        }
        if Owned(s, roots, procs) { OwnedSame(s, k.State(), roots, procs, Copied(procs, op, ok)); }
      }
    case Exit(who) =>
      if who < |alive| && alive[who] {
        ShowsAt(s, roots, procs, who);
        RootIs(s, roots[who]);
        k.FreeSpace(roots[who]);
        AgreesGone(s, k.State(), roots, procs, who);
        if Owned(s, roots, procs) { OwnedGone(s, k.State(), roots, procs, who); }
        alive' := alive[who := false];
      }
  }

  lemma {:induction false} AgreesLength(s: S, roots: seq<nat>, procs: seq<Proc>)
    requires Agrees(s, roots, procs)
    ensures |roots| == |procs|
  {
  }

  /** A page of a program is loaded: a page is taken, filled and mapped. */
  method LoadPage(k: Kernel, ghost procs: seq<Proc>, roots: seq<nat>, who: nat, va: nat, words: seq<nat>,
      executable: bool) returns (ok: bool)
    requires k.Valid() && Agrees(k.State(), roots, procs) && Lives(procs, who) && |words| == WORDS && |roots| == |procs|
    modifies k
    ensures k.Valid() && Agrees(k.State(), roots, Copied(procs, Load(who, va, words, executable), ok))
    ensures !ok ==> Exhausted(k.State())
    ensures PageOf(procs[who], Vpn(va)) == Unmapped ==> k.slack == old(k.slack)
    ensures NoNewRoots(old(k.State()), k.State())
  {
    hide FreeOk, Tables, Counts, Soles, Agrees, SameViews, ViewSet, Whole, ViewAt, Exhausted, EntryAt, Kept;
    ghost var s := k.State();
    ShowsAt(s, roots, procs, who);
    var page := k.AllocPage();
    ghost var t := k.State();
    TakenSettled(s, t);
    AgreesSame(s, t, roots, procs);
    if page == 0 { return false; }
    k.FillPage(page, words);
    ghost var u := k.State();
    AgreesSame(t, u, roots, procs);
    ShowsAt(u, roots, procs, who);
    RootIs(u, roots[who]);
    if PageOf(procs[who], Vpn(va)) == Unmapped { NothingThere(u, roots[who], Vpn(va)); }
    ok := k.MapPage(roots[who], va, page, executable);
    if ok {
      AgreesSet(u, k.State(), roots, procs, who, Vpn(va), Mapped(words, UserAttrs(executable)));
    } else {
      AgreesSame(u, k.State(), roots, procs);
    }
  }

  lemma {:induction false} TakenSettled(s: S, t: S)
    requires Settled(s) && Kept(s, t)
    ensures Settled(t)
  {
  }

  /** The machine has no space yet, and every count is right. */
  ghost predicate Empty(s: S)
  {
    (forall f :: 0 <= f < |s.role| ==> !IsTable(s, f, 1)) && forall p :: 0 <= p < |s.slack| ==> s.slack[p] == 0
  }

  /** Whatever programs do, each sees what it would see if every fork had copied everything: the run is
      carried through to the end, or to a fork of a process one of whose own pages has a full count. From an
      empty machine on, while loads go where nothing is and forks have memory enough, every page has one
      holder more than its count says, and with at most 255 living processes the run is carried through. */
  method Run(k: Kernel, ops: seq<Op>) returns (done: nat, roots: seq<nat>, oks: seq<bool>)
    requires k.Valid() && forall op :: op in ops ==> WellFormed(op)
    modifies k
    ensures k.Valid() && done <= |ops| && |oks| == done
    ensures Agrees(k.State(), roots, CopiedAll(ops[..done], oks))
    ensures done < |ops| ==> ops[done].Fork? && ops[done].who < |roots| && Whole(k.State(), roots[ops[done].who])
    ensures done < |ops| ==> !RoomFrom(k.State(), roots[ops[done].who], 0)
    ensures Empty(old(k.State())) && AllTidy(ops[..done], oks) ==>
        Exact(k.State()) && |Roots(k.State())| <= Living(CopiedAll(ops[..done], oks))
        && (Living(CopiedAll(ops[..done], oks)) <= 255 ==> done == |ops|)
  {
    hide Inv, Settled, Agrees, Copied, Roomy, RoomFrom, Roots, Whole, Owned, Living, Tidy, Exact;
    var alive: seq<bool> := [];
    done, roots, oks := 0, [], [];
    assert Agrees(k.State(), [], CopiedAll(ops[..0], [])) by { AgreesNone(k.State()); }
    ghost var first := k.State();
    if Empty(first) { OwnedNone(first); }
    while done < |ops|
      invariant done <= |ops| && |oks| == done && k.Valid()
      invariant Agrees(k.State(), roots, CopiedAll(ops[..done], oks))
      invariant |alive| == |CopiedAll(ops[..done], oks)|
      invariant forall j :: 0 <= j < |alive| ==> alive[j] == CopiedAll(ops[..done], oks)[j].Alive?
      invariant Empty(first) && AllTidy(ops[..done], oks) ==>
          k.slack == first.slack && Owned(k.State(), roots, CopiedAll(ops[..done], oks))
    {
      ghost var state, procs := k.State(), CopiedAll(ops[..done], oks);
      assert |roots| == |procs| by { AgreesLength(state, roots, procs); }
      if ops[done].Fork? && ops[done].who < |roots| && alive[ops[done].who]
         && !Roomy(k.mem, k.refs, k.base, roots[ops[done].who]) {
        ShowsAt(state, roots, procs, ops[done].who);
        RoomyIs(state, roots[ops[done].who]);
        if Empty(first) && AllTidy(ops[..done], oks) {
          InOrder(state, roots, procs);
          StopsOnlyFull(state, roots[ops[done].who]);
        }
        return;
      }
      RoomWhereNeeded(state, roots, alive, ops[done]);
      var ok;
      roots, alive, ok := Perform(k, procs, roots, alive, ops[done]);
      OneMore(ops, done, oks, ok);
      oks := oks + [ok];
      done := done + 1;
    }
    if Empty(first) && AllTidy(ops[..done], oks) { InOrder(k.State(), roots, CopiedAll(ops[..done], oks)); }
  }

  lemma {:induction false} OneMore(ops: seq<Op>, n: nat, oks: seq<bool>, ok: bool)
    requires n < |ops| && |oks| == n
    ensures CopiedAll(ops[..n + 1], oks + [ok]) == Copied(CopiedAll(ops[..n], oks), ops[n], ok)
    ensures AllTidy(ops[..n + 1], oks + [ok]) <==>
        AllTidy(ops[..n], oks) && Tidy(CopiedAll(ops[..n], oks), ops[n], ok)
  {
    hide Copied, Tidy;
    assert ops[..n + 1][..n] == ops[..n] && (oks + [ok])[..n] == oks;
  }

  lemma {:induction false} OwnedNone(s: S)
    requires Empty(s)
    ensures Owned(s, [], [])
  {
  }

  lemma {:induction false} InOrder(s: S, roots: seq<nat>, procs: seq<Proc>)
    requires Inv(s) && Owned(s, roots, procs) && forall p :: 0 <= p < |s.slack| ==> s.slack[p] == 0
    ensures Exact(s) && |Roots(s)| <= Living(procs)
  {
    hide Inv, Owned, Exact, Roots, Living;
    ExactIs(s);
    SpacesAtMost(s, roots, procs);
  }

  lemma {:induction false} RoomWhereNeeded(s: S, roots: seq<nat>, alive: seq<bool>, op: Op)
    requires |alive| == |roots|
    requires op.Fork? && op.who < |roots| && alive[op.who] ==> Roomy(s.mem, s.refs, s.base, roots[op.who])
    ensures op.Fork? && op.who < |roots| && op.who < |alive| && alive[op.who] ==> RoomFrom(s, roots[op.who], 0)
  {
    hide Roomy, RoomFrom;
    if op.Fork? && op.who < |roots| { RoomyIs(s, roots[op.who]); }
  }

  /** A page can be full only with more than 255 spaces or a count gone astray. */
  lemma {:induction false} StopsOnlyFull(s: S, root: nat)
    requires Inv(s) && Whole(s, root) && !RoomFrom(s, root, 0)
    ensures !(|Roots(s)| <= 255 && forall p :: 0 <= p < |s.slack| ==> s.slack[p] == 0)
  {
    hide FreeOk, Tables, Counts, Soles, RoomFrom, Whole, Roots;
    if |Roots(s)| <= 255 && forall p :: 0 <= p < |s.slack| ==> s.slack[p] == 0 {
      RoomToFork(s, root);
    }
  }

  lemma {:induction false} AgreesNone(s: S)
    ensures Agrees(s, [], [])
  {
  }
}
