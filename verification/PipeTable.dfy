/** `file.c` and the descriptor system calls, each as one step: pipe, dup, dup3, close, fork, exit, and the
    pipe halves of read and write. */
module PipeTable {
  import opened Bits
  import opened Seqs
  import opened PipeRing
  import opened PipeState

  datatype Outcome = Bytes(x: seq<Byte>) | EndOfFile | Wait | Refused(code: int) | Elsewhere

  class Table {
    var files: seq<File>
    var pipes: seq<Pipe>
    var fds: seq<seq<int>>
    ghost var held: multiset<nat>
    ghost var sent: seq<seq<Byte>>
    ghost var got: seq<seq<Byte>>

    ghost function State(): S
      reads this
    {
      S(files, pipes, fds, held, sent, got)
    }

    ghost predicate Valid()
      reads this
    {
      Inv(State()) && held == multiset{}
    }

    /** Empty pools and one process without descriptors. */
    constructor ()
      ensures Valid() && fds == [Repeat(-1, NFD)] && forall q :: 0 <= q < NPIPE ==> !pipes[q].used
    {
      files := Repeat(File(FREE, 0, 0), NFILE);
      pipes := Repeat(Pipe(Repeat(0, SIZE), 0, 0, 0, 0, false), NPIPE);
      fds := [Repeat(-1, NFD)];
      held, sent, got := multiset{}, Repeat([], NPIPE), Repeat([], NPIPE);
      new;
      EmptyOk(State());
    }

    // ------------------------------------------------------------------ parts of calls

    /** The search of `file_alloc`. */
    method FreeFile(but: int) returns (i: int)
      requires Shape(State())
      ensures i >= 0 ==> i < NFILE && files[i].kind == FREE && i != but
      ensures i < 0 ==> i == -1 && forall j :: 0 <= j < NFILE && j != but ==> files[j].kind != FREE
    {
      i := 0;
      while i < NFILE
        invariant 0 <= i <= NFILE && forall j :: 0 <= j < i && j != but ==> files[j].kind != FREE
      {
        if files[i].kind == FREE && i != but { return; }
        i := i + 1;
      }
      i := -1;
    }

    /** `fd_alloc`: the first empty slot. */
    method FdAlloc(p: nat, i: nat) returns (k: int)
      requires Inv(State()) && p < |fds| && i in held && i < NFILE
      modifies this`fds, this`held
      ensures Inv(State())
      ensures k < 0 ==> k == -1 && fds == old(fds) && held == old(held) && forall j :: 0 <= j < NFD ==> fds[p][j] >= 0
      ensures k >= 0 ==>
          k < NFD && First(old(fds)[p], k) && fds == old(fds)[p := old(fds)[p][k := i]]
          && held == old(held) - multiset{i}
    {
      hide Inv;
      InvShape(State());
      k := 0;
      while k < NFD
        invariant 0 <= k <= NFD && forall j :: 0 <= j < k ==> fds[p][j] >= 0
      {
        if fds[p][k] < 0 {
          StoredOk(State(), p, k, i);
          fds := fds[p := fds[p][k := i]];
          held := held - multiset{i};
          return;
        }
        k := k + 1;
      }
      k := -1;
    }

    /** `file_ref` */
    method FileRef(i: nat)
      requires Inv(State()) && i < NFILE && files[i].kind != FREE
      modifies this`files, this`held
      ensures Inv(State()) && State() == Refd(old(State()), i)
    {
      RefdOk(State(), i);
      files := files[i := files[i].(refs := files[i].refs + 1)];
      held := held + multiset{i};
    }

    /** `file_close` */
    method FileClose(i: nat)
      requires Inv(State()) && i in held && i < NFILE
      modifies this`files, this`held, this`pipes
      ensures Inv(State()) && files == Closed(old(State()), i).files && pipes == Closed(old(State()), i).pipes
      ensures held == old(held) - multiset{i} && OnlyClosed(old(State()), State())
    {
      ClosedOk(State(), i);
      ClosedOnly(State(), i);
      held := held - multiset{i};
      var f := files[i];
      if f.refs - 1 > 0 {
        files := files[i := f.(refs := f.refs - 1)];
        return;
      }
      files := files[i := File(FREE, f.refs - 1, 0)];
      if f.kind == PIPE_R || f.kind == PIPE_W {
        pipes := pipes[f.pipe := PipeClosed(pipes[f.pipe], f.kind)];
      }
    }

    /** A slot's file is closed and the slot is empty. */
    method Vacate(p: nat, b: nat)
      requires Inv(State()) && p < |fds| && b < NFD && Shape(State()) && fds[p][b] >= 0
      modifies this`files, this`pipes, this`fds, this`held
      ensures Inv(State()) && held == old(held) && fds == old(fds)[p := old(fds)[p][b := -1]]
      ensures OnlyClosed(old(State()), State())
    {
      hide Inv;
      LiftedOk(State(), p, b);
      var j := fds[p][b];
      held := held + multiset{j};
      fds := fds[p := fds[p][b := -1]];
      FileClose(j);
      assert held == old(held);
    }

    /** A slot names a file for which a reference has been taken; what it named before is let go. */
    method Replace(p: nat, b: nat, i: nat)
      requires Inv(State()) && p < |fds| && b < NFD && i in held && i < NFILE
      modifies this`files, this`pipes, this`fds, this`held
      ensures Inv(State()) && held == old(held) - multiset{i} && fds == old(fds)[p := old(fds)[p][b := i]]
      ensures OnlyClosed(old(State()), State())
    {
      hide Inv;
      InvShape(State());
      if fds[p][b] >= 0 {
        Vacate(p, b);
        InvShape(State());
      }
      ghost var row := old(fds)[p];
      assert fds[p][b := i] == row[b := i];
      StoredOk(State(), p, b, i);
      fds := fds[p := fds[p][b := i]];
      held := held - multiset{i};
    }

    // ------------------------------------------------------------------------- calls

    /** `close`: the slot is empty, and no other changes. */
    method Close(p: nat, a: nat) returns (r: int)
      requires Valid() && p < |fds|
      modifies this`files, this`pipes, this`fds, this`held
      ensures Valid() && OnlyClosed(old(State()), State())
      ensures a >= NFD || old(fds)[p][a] < 0 ==> r == -9 && State() == old(State())
      ensures a < NFD && old(fds)[p][a] >= 0 ==> r == 0 && fds == old(fds)[p := old(fds)[p][a := -1]]
    {
      hide Inv;
      InvShape(State());
      if a >= NFD || fds[p][a] < 0 { return -9; }
      Vacate(p, a);
      r := 0;
    }

    /** An open that makes a file object of another kind: a slot names it, or nothing has changed. */
    method Open(p: nat) returns (r: int)
      requires Valid() && p < |fds|
      modifies this`files, this`pipes, this`fds, this`held
      ensures Valid() && OnlyClosed(old(State()), State())
      ensures r < 0 ==> r == -24 && fds == old(fds)
      ensures r < 0 ==>
          (forall j :: 0 <= j < NFILE ==> old(files)[j].kind != FREE)
          || (forall j :: 0 <= j < NFD ==> fds[p][j] >= 0)
      ensures r >= 0 ==>
          r < NFD && First(old(fds)[p], r) && p < |fds| && r < |fds[p]|
          && 0 <= fds[p][r] < NFILE == |files|
      ensures r >= 0 ==> fds == old(fds)[p := old(fds)[p][r := fds[p][r]]] && files[fds[p][r]] == File(OTHER, 1, 0)
    {
      hide Inv;
      InvShape(State());
      var i := FreeFile(-1);
      if i < 0 { return -24; }
      AllocatedOk(State(), i);
      files := files[i := File(OTHER, 1, 0)];
      held := held + multiset{i};
      var k := FdAlloc(p, i);
      if k < 0 {
        FileClose(i);
        assert held == multiset{};
        return -24;
      }
      assert held == multiset{};
      return k;
    }

    /** `dup`: the first empty slot names the same file. */
    method Dup(p: nat, a: nat) returns (r: int)
      requires Valid() && p < |fds|
      modifies this`files, this`pipes, this`fds, this`held
      ensures Valid() && OnlyClosed(old(State()), State())
      ensures a >= NFD || old(fds)[p][a] < 0 ==> r == -9 && State() == old(State())
      ensures a < NFD && old(fds)[p][a] >= 0 ==>
          if r < 0 then r == -24 && State() == old(State()) && forall j :: 0 <= j < NFD ==> fds[p][j] >= 0
          else r < NFD && First(old(fds)[p], r) && fds == old(fds)[p := old(fds)[p][r := old(fds)[p][a]]]
    {
      hide Inv;
      InvShape(State());
      if a >= NFD || fds[p][a] < 0 { return -9; }
      var i := fds[p][a];
      InSlot(State(), p, a);
      RefdClosed(State(), i);
      FileRef(i);
      var k := FdAlloc(p, i);
      if k < 0 {
        FileClose(i);
        assert State() == old(State());
        return -24;
      }
      assert held == multiset{};
      return k;
    }

    /** `dup3`: the second slot names what the first does; what it named before is let go. */
    method Dup3(p: nat, a: nat, b: nat) returns (r: int)
      requires Valid() && p < |fds|
      modifies this`files, this`pipes, this`fds, this`held
      ensures Valid() && OnlyClosed(old(State()), State())
      ensures a >= NFD || old(fds)[p][a] < 0 || b >= NFD ==> r == -9 && State() == old(State())
      ensures a == b && b < NFD && old(fds)[p][a] >= 0 ==> r == -22 && State() == old(State())
      ensures a < NFD && b < NFD && a != b && old(fds)[p][a] >= 0 ==>
          r == b && fds == old(fds)[p := old(fds)[p][b := old(fds)[p][a]]]
    {
      hide Inv;
      InvShape(State());
      if a >= NFD || fds[p][a] < 0 || b >= NFD { return -9; }
      if a == b { return -22; }
      var i := fds[p][a];
      InSlot(State(), p, a);
      FileRef(i);
      Replace(p, b, i);
      assert held == multiset{};
      return b;
    }

    /** `file_pipe`: a pipe nobody has, and two file objects for its ends. */
    method FilePipe() returns (q: int, r: nat, w: nat)
      requires Inv(State())
      modifies this`files, this`pipes, this`held, this`sent, this`got
      ensures Inv(State()) && SameStreams(old(State()), State())
      ensures q < 0 ==> held == old(held) && OnlyClosed(old(State()), State())
      ensures q < 0 ==> forall p: nat :: NoRoom(old(State()), p)
      ensures q >= 0 ==>
          q < NPIPE && r < NFILE && w < NFILE && r != w && !old(pipes)[q].used
          && State() == Piped(old(State()), q, r, w)
    {
      hide Inv;
      InvShape(State());
      q, r, w := 0, 0, 0;
      while q < NPIPE && pipes[q].used
        invariant 0 <= q <= NPIPE && forall u :: 0 <= u < q ==> pipes[u].used
      {
        q := q + 1;
      }
      if q == NPIPE { return -1, 0, 0; }
      InvPipe(State(), q);
      ghost var s := State();
      var i := FreeFile(-1);
      if i < 0 {
        assert NoneFreeBut(s.files, -1);
        pipes := pipes[q := pipes[q].(head := 0, tail := 0, readers := 1, writers := 1, used := false)];
        IdleOk(s, State(), q);
        return -1, 0, 0;
      }
      var j := FreeFile(i);
      if j < 0 {
        assert NoneFreeBut(s.files, i);
        files := files[i := File(FREE, 0, q)];
        pipes := pipes[q := pipes[q].(head := 0, tail := 0, readers := 1, writers := 1, used := false)];
        IdleOk(s, State(), q);
        return -1, 0, 0;
      }
      r, w := i, j;
      PipedOk(s, q, r, w);
      pipes := pipes[q := Pipe(pipes[q].buf, 0, 0, 1, 1, true)];
      files := files[r := File(PIPE_R, 1, q)][w := File(PIPE_W, 1, q)];
      held := held + multiset{r, w};
      sent, got := sent[q := []], got[q := []];
    }

    /** Both ends of a pipe that found no slots are given back. */
    method GiveUp(ghost s: S, ghost q: nat, r: nat, w: nat)
      requires Inv(State()) && held == multiset{r, w} && r < NFILE && w < NFILE && r != w && Shape(s) && q < NPIPE
      requires files == Piped(s, q, r, w).files && pipes == Piped(s, q, r, w).pipes
      modifies this`files, this`pipes, this`held
      ensures Valid() && OnlyClosed(s, State())
    {
      hide Inv, Closed, OnlyClosed;
      ghost var t := State();
      FileClose(r);
      ghost var u := State();
      InvShape(u);
      FileClose(w);
      assert held == multiset{};
      BothClosed(s, t, u, State(), q, r, w);
    }

    /** `pipe2`: two slots name the ends of a new pipe; on failure no slot has changed. */
    method Pipe2(p: nat) returns (rf: int, wf: int)
      requires Valid() && p < |fds|
      modifies this
      ensures Valid() && SameStreams(old(State()), State())
      ensures wf < 0 ==> fds == old(fds) && OnlyClosed(old(State()), State()) && NoRoom(old(State()), p)
      ensures wf >= 0 ==>
          0 <= rf < NFD && wf < NFD && First(old(fds)[p], rf) && NewPipe(old(State()), State(), p, rf, wf)
    {
      hide Inv, SameStreams, Shape, OnlyClosed, NoRoom, NewPipe;
      InvShape(State());
      PipeRows(State(), p);
      var q, r, w := FilePipe();
      if q < 0 { return -1, -1; }
      ghost var s := State();
      assert held == multiset{r, w};
      rf, wf := TwoSlots(p, r, w);
      if wf < 0 {
        NoSlotsLeft(old(State()), p, rf);
        GiveUp(old(State()), q, r, w);
        StreamsKept(old(State()), s, State());
        return -1, -1;
      }
      StreamsKept(old(State()), s, State());
      InvShape(State());
      PipedSlots(old(State()), s, State(), p, rf, wf, q, r, w);
    }

    /** Both ends go into slots, or neither: then no slot was empty but perhaps `rf`. */
    method TwoSlots(p: nat, r: nat, w: nat) returns (rf: int, wf: int)
      requires Inv(State()) && p < |fds| && held == multiset{r, w} && r < NFILE && w < NFILE && r != w
      modifies this`fds, this`held
      ensures Inv(State())
      ensures wf < 0 ==> fds == old(fds) && held == multiset{r, w} && NoneEmptyBut(fds[p], rf)
      ensures wf >= 0 ==>
          held == multiset{} && 0 <= rf < NFD && wf < NFD && First(old(fds)[p], rf)
          && old(fds)[p][rf := r][wf] < 0
      ensures wf >= 0 ==> fds == old(fds)[p := old(fds)[p][rf := r]][p := old(fds)[p][rf := r][wf := w]]
    {
      hide Inv, Shape;
      InvShape(State());
      PipeRows(State(), p);
      rf := FdAlloc(p, r);
      if rf < 0 { return -1, -1; }
      assert held == multiset{w};
      wf := FdAlloc(p, w);
      if wf < 0 {
        OnlySlot(old(fds)[p], fds[p], rf, r);
        Unslot(p, rf, r, old(fds));
        assert held == multiset{r, w};
        return;
      }
      assert held == multiset{};
    }

    /** A slot is emptied again without closing what it named. */
    method Unslot(p: nat, k: nat, r: nat, ghost was: seq<seq<int>>)
      requires Inv(State()) && p < |fds| == |was| && k < NFD && r < NFILE && |was[p]| == NFD && was[p][k] == -1
      requires fds == was[p := was[p][k := r]]
      modifies this`fds, this`held
      ensures Inv(State()) && fds == was && held == old(held) + multiset{r}
    {
      hide Inv;
      InvShape(State());
      LiftedOk(State(), p, k);
      held := held + multiset{r};
      fds := fds[p := fds[p][k := -1]];
      assert fds[p] == was[p];
    }

    /** `thread_fork`: a process with the same descriptors. */
    method Fork(p: nat) returns (child: nat)
      requires Valid() && p < |fds|
      modifies this`files, this`pipes, this`fds, this`held
      ensures Valid() && OnlyClosed(old(State()), State())
      ensures child == |old(fds)| && fds == old(fds) + [old(fds)[p]]
    {
      hide Inv, InRow;
      InvShape(State());
      ghost var s := State();
      var row: seq<int> := [];
      NoRow();
      for k := 0 to NFD
        invariant Inv(State()) && fds == old(fds) && pipes == old(pipes)
        invariant row == fds[p][..k] && forall i: nat :: held[i] == InRow(row, i)
      {
        var x := fds[p][k];
        RowsSnoc(row, x);
        if x >= 0 {
          InvShape(State());
          InSlot(State(), p, k);
          FileRef(x);
        }
        row := row + [x];
      }
      assert row == fds[p];
      InvShape(State());
      JoinedOk(State(), row);
      child := |fds|;
      fds := fds + [row];
      held := multiset{};
    }

    /** `thread_exit`: the process names nothing any more. */
    method Exit(p: nat)
      requires Valid() && p < |fds|
      modifies this`files, this`pipes, this`fds, this`held
      ensures Valid() && OnlyClosed(old(State()), State())
      ensures fds == old(fds)[p := Repeat(-1, NFD)]
    {
      hide Inv;
      InvShape(State());
      for k := 0 to NFD
        invariant Valid() && |fds| == |old(fds)| && OnlyClosed(old(State()), State())
        invariant forall q :: 0 <= q < |fds| && q != p ==> fds[q] == old(fds)[q]
        invariant |fds[p]| == NFD && forall j :: 0 <= j < k ==> fds[p][j] == -1
      {
        InvShape(State());
        ghost var s := State();
        var r := Close(p, k);
        OnlyClosedThen(old(State()), s, State());
      }
      assert fds[p] == Repeat(-1, NFD);
    }

    // ----------------------------------------------------------------- reading, writing

    /** `read` on a pipe: the oldest bytes, as many as asked for or there are; end of file only when the ring is
        empty and no slot of any process names the write end; otherwise it waits. */
    method Read(p: nat, a: nat, len: nat) returns (r: Outcome)
      requires Valid() && p < |fds|
      modifies this`pipes, this`got
      ensures Valid() && Reads(old(State()), State(), p, a, len, r)
    {
      hide Inv, Contents;
      InvShape(State());
      if a >= NFD || fds[p][a] < 0 { return Refused(-9); }
      if len == 0 { return Bytes([]); }
      var f := files[fds[p][a]];
      if f.kind == PIPE_W { return Refused(-9); }
      if f.kind != PIPE_R { return Elsewhere; }
      InSlot(State(), p, a);
      var q := f.pipe;
      InvPipe(State(), q);
      EmptyIf(pipes[q]);
      if Fill(pipes[q]) == 0 {
        if pipes[q].writers <= 0 {
          NoWriterAnywhere(State(), q);
          return EndOfFile;
        }
        return Wait;
      }
      var pp, x := Take(pipes[q], len);
      ReadAll(sent[q], got[q], Contents(pipes[q]), x, Contents(pp));
      MovedOk(State(), q, pp, sent[q], got[q] + x);
      Nonempty(pipes[q]);
      pipes := pipes[q := pp];
      got := got[q := got[q] + x];
      assert State() == Moved(old(State()), q, pp, old(sent)[q], got[q]);
      return Bytes(x);
    }

    /** A round of `write` on a pipe, from the `n0`-th byte on: refused when no slot of any process names the read
        end; otherwise bytes go in behind until all are in or the ring is full. */
    method Write(p: nat, a: nat, buf: seq<Byte>, n0: nat) returns (r: Outcome, n: nat)
      requires Valid() && p < |fds| && n0 <= |buf|
      modifies this`pipes, this`sent
      ensures Valid() && Writes(old(State()), State(), p, a, buf, n0, r, n)
    {
      hide Inv, Contents;
      InvShape(State());
      n := n0;
      if a >= NFD || fds[p][a] < 0 { return Refused(-9), n; }
      var f := files[fds[p][a]];
      if f.kind == PIPE_R { return Refused(-9), n; }
      if f.kind != PIPE_W { return Elsewhere, n; }
      InSlot(State(), p, a);
      var q := f.pipe;
      InvPipe(State(), q);
      if n < |buf| && pipes[q].readers <= 0 {
        NoReaderAnywhere(State(), q);
        return Refused(-32), n;
      }
      var pp;
      pp, n := Fill_(pipes[q], buf, n0);
      Assoc(got[q], Contents(pipes[q]), buf[n0..n]);
      MovedOk(State(), q, pp, sent[q] + buf[n0..n], got[q]);
      pipes := pipes[q := pp];
      sent := sent[q := sent[q] + buf[n0..n]];
      assert State() == Moved(old(State()), q, pp, sent[q], old(got)[q]);
      return if n < |buf| then Wait else Bytes([]), n;
    }
  }

  /** A pipe whose two ends are given back is unused again. */
  lemma {:induction false} BothClosed(s: S, t: S, u: S, v: S, q: nat, r: nat, w: nat)
    requires Shape(s) && q < NPIPE && r < NFILE && w < NFILE && r != w && |t.files| == NFILE
    requires t.files == Piped(s, q, r, w).files && t.pipes == Piped(s, q, r, w).pipes
    requires u.files == Closed(t, r).files && u.pipes == Closed(t, r).pipes && |u.files| == NFILE
    requires v.pipes == Closed(u, w).pipes
    ensures OnlyClosed(s, v)
  {
    assert u.files[w] == File(PIPE_W, 1, q) && u.pipes[q].readers == 0 && u.pipes[q].writers == 1;
    assert v.pipes == s.pipes[q := v.pipes[q]] && !v.pipes[q].used;
  }

  /** Two slots name the ends of a pipe that nobody had, and whose streams are empty. */
  ghost predicate NewPipe(s: S, t: S, p: nat, rf: nat, wf: nat)
  {
    p < |s.fds| && |s.fds[p]| == NFD && rf < NFD && wf < NFD && Shape(t) && p < |t.fds|
    && t.fds == s.fds[p := s.fds[p][rf := t.fds[p][rf]][wf := t.fds[p][wf]]] && t.fds[p][rf] >= 0 && t.fds[p][wf] >= 0
    && t.files[t.fds[p][rf]].kind == PIPE_R && t.files[t.fds[p][wf]].kind == PIPE_W
    && var q := t.files[t.fds[p][rf]].pipe;
    t.files[t.fds[p][wf]].pipe == q < NPIPE == |s.pipes| == |s.sent| == |s.got| && !s.pipes[q].used
    && t.pipes == s.pipes[q := t.pipes[q]] && t.pipes[q].used && t.sent == s.sent[q := []] && t.got == s.got[q := []]
  }

  /** A descriptor is this end of a pipe. */
  ghost predicate OnPipe(s: S, p: nat, a: nat, kind: Kind)
  {
    p < |s.fds| && a < |s.fds[p]| && 0 <= s.fds[p][a] < |s.files| && s.files[s.fds[p][a]].kind == kind
    && s.files[s.fds[p][a]].pipe < NPIPE
    && |s.pipes| == |s.sent| == |s.got| == NPIPE
  }

  ghost function PipeOf(s: S, p: nat, a: nat): (q: nat)
    requires p < |s.fds| && a < |s.fds[p]| && 0 <= s.fds[p][a] < |s.files|
  {
    s.files[s.fds[p][a]].pipe
  }

  /** No slot of any process names this end. */
  ghost predicate Nobody(s: S, q: nat, kind: Kind)
  {
    forall p, k :: 0 <= p < |s.fds| && 0 <= k < NFD && k < |s.fds[p]| && 0 <= s.fds[p][k] < |s.files| ==>
      !(s.files[s.fds[p][k]].kind == kind && s.files[s.fds[p][k]].pipe == q)
  }

  /** Bytes have come out of one pipe; every other pipe is as it was. */
  ghost predicate Delivered(s: S, t: S, p: nat, a: nat, x: seq<Byte>)
  {
    OnPipe(s, p, a, PIPE_R) && var q := PipeOf(s, p, a);
    |t.pipes| == NPIPE && t == s.(pipes := s.pipes[q := t.pipes[q]], got := s.got[q := s.got[q] + x])
    && t.pipes[q].writers == s.pipes[q].writers
  }

  /** Bytes have gone into one pipe; every other pipe is as it was. */
  ghost predicate Accepted(s: S, t: S, p: nat, a: nat, x: seq<Byte>)
  {
    OnPipe(s, p, a, PIPE_W) && var q := PipeOf(s, p, a);
    |t.pipes| == NPIPE && t == s.(pipes := s.pipes[q := t.pipes[q]], sent := s.sent[q := s.sent[q] + x])
    && t.pipes[q].writers == s.pipes[q].writers
  }

  /** What a read does and returns. */
  ghost predicate Reads(s: S, t: S, p: nat, a: nat, len: nat, r: Outcome)
  {
    if !Taken(s, p, a) then r == Refused(-9) && t == s
    else if len == 0 then r == Bytes([]) && t == s
    else match s.files[s.fds[p][a]].kind
      case PIPE_W => r == Refused(-9) && t == s
      case PIPE_R => OnPipe(s, p, a, PIPE_R) && ReadsPipe(s, t, p, a, len, r)
      case _ => r == Elsewhere && t == s
  }

  ghost predicate ReadsPipe(s: S, t: S, p: nat, a: nat, len: nat, r: Outcome)
    requires OnPipe(s, p, a, PIPE_R)
  {
    var q := PipeOf(s, p, a);
    if Fill(s.pipes[q]) > 0 then
      r.Bytes? && |r.x| == Least(len, Fill(s.pipes[q])) && Delivered(s, t, p, a, r.x)
    else if s.pipes[q].writers > 0 then r == Wait && t == s
    else r == EndOfFile && t == s && Nobody(s, q, PIPE_W) && s.got[q] == s.sent[q]
  }

  /** What a round of a write does and returns. */
  ghost predicate Writes(s: S, t: S, p: nat, a: nat, buf: seq<Byte>, n0: nat, r: Outcome, n: nat)
  {
    n0 <= n <= |buf|
    && if !Taken(s, p, a) then r == Refused(-9) && t == s && n == n0
    else match s.files[s.fds[p][a]].kind
      case PIPE_R => r == Refused(-9) && t == s && n == n0
      case PIPE_W => OnPipe(s, p, a, PIPE_W) && WritesPipe(s, t, p, a, buf, n0, r, n)
      case _ => r == Elsewhere && t == s && n == n0
  }

  ghost predicate WritesPipe(s: S, t: S, p: nat, a: nat, buf: seq<Byte>, n0: nat, r: Outcome, n: nat)
    requires OnPipe(s, p, a, PIPE_W) && n0 <= n <= |buf|
  {
    var q := PipeOf(s, p, a);
    if n0 < |buf| && s.pipes[q].readers <= 0 then r == Refused(-32) && t == s && n == n0 && Nobody(s, q, PIPE_R)
    else Accepted(s, t, p, a, buf[n0..n])
         && (if n < |buf| then r == Wait && Fill(t.pipes[q]) == SIZE - 1 else r == Bytes([]))
  }

  /** The descriptor names something. */
  ghost predicate Taken(s: S, p: nat, a: nat)
  {
    p < |s.fds| && a < |s.fds[p]| && 0 <= s.fds[p][a] < |s.files|
  }

  function Least(a: nat, b: nat): nat
  {
    if a < b then a else b
  }

  /** There is no room for another pipe: every pipe is in use, or at most one file object is free, or at most one
      of the process's slots is empty. */
  ghost predicate NoRoom(s: S, p: nat)
  {
    (forall q :: 0 <= q < |s.pipes| ==> s.pipes[q].used)
    || (exists i :: NoneFreeBut(s.files, i))
    || (p < |s.fds| && exists k :: NoneEmptyBut(s.fds[p], k))
  }

  ghost predicate NoneFreeBut(files: seq<File>, i: int)
  {
    forall j :: 0 <= j < |files| && j != i ==> files[j].kind != FREE
  }

  ghost predicate NoneEmptyBut(row: seq<int>, k: int)
  {
    forall j :: 0 <= j < |row| && j != k ==> row[j] >= 0
  }

  lemma {:induction false} NoSlotsLeft(s: S, p: nat, k: int)
    requires p < |s.fds| && NoneEmptyBut(s.fds[p], k)
    ensures NoRoom(s, p)
  {
  }

  lemma {:induction false} OnlySlot(was: seq<int>, row: seq<int>, k: nat, r: nat)
    requires k < |was| && row == was[k := r] && forall j :: 0 <= j < |row| ==> row[j] >= 0
    ensures NoneEmptyBut(was, k)
  {
    assert forall j :: 0 <= j < |was| && j != k ==> was[j] == row[j];
  }

  lemma {:induction false} ReadAll(sent: seq<Byte>, got: seq<Byte>, before: seq<Byte>, x: seq<Byte>, after: seq<Byte>)
    requires sent == got + before && x + after == before
    ensures sent == (got + x) + after
  {
  }

  lemma {:induction false} Nonempty(p: Pipe)
    requires RingOk(p) && Fill(p) > 0
    ensures |Contents(p)| > 0
  {
  }

  /** Over every run: what has been read from a pipe is a beginning of what has been written to it. */
  lemma {:induction false} ReadIsPrefix(s: S, q: nat)
    requires Inv(s) && q < NPIPE && s.pipes[q].used
    ensures s.got[q] <= s.sent[q] && |s.sent[q]| - |s.got[q]| < SIZE
  {
    assert PipeOk(s, q);
  }

  lemma {:induction false} StreamsKept(s: S, t: S, u: S)
    requires SameStreams(s, t) && u.sent == t.sent && u.got == t.got
    ensures SameStreams(s, u)
  {
  }

  lemma {:induction false} PipeRows(s: S, p: nat)
    requires Shape(s) && p < |s.fds|
    ensures |s.fds[p]| == NFD && |s.pipes| == NPIPE && forall k :: 0 <= k < NFD && s.fds[p][k] < 0 ==> s.fds[p][k] == -1
  {
  }

  lemma {:induction false} PipedSlots(s: S, t: S, u: S, p: nat, rf: nat, wf: nat, q: nat, r: nat, w: nat)
    requires Shape(s) && Shape(u) && p < |s.fds| && q < NPIPE && !s.pipes[q].used && r < NFILE && w < NFILE && r != w
    requires t == Piped(s, q, r, w)
    requires rf < NFD && wf < NFD && s.fds[p][rf] < 0 && u == t.(fds := u.fds, held := u.held)
    requires u.fds == s.fds[p := s.fds[p][rf := r]][p := s.fds[p][rf := r][wf := w]] && s.fds[p][rf := r][wf] < 0
    ensures NewPipe(s, u, p, rf, wf)
  {
    assert rf != wf;
    assert u.fds[p] == s.fds[p][rf := r][wf := w];
    assert u.fds == s.fds[p := s.fds[p][rf := r][wf := w]];
  }

  lemma {:induction false} InvPipe(s: S, q: nat)
    requires Inv(s) && q < NPIPE
    ensures PipeOk(s, q)
  {
  }

  lemma {:induction false} NoRow()
    ensures forall i: nat :: InRow([], i) == 0
  {
  }

  lemma {:induction false} RowsSnoc(row: seq<int>, x: int)
    ensures forall i: nat :: InRow(row + [x], i) == InRow(row, i) + if x == i then 1 else 0
  {
    forall i: nat ensures InRow(row + [x], i) == InRow(row, i) + if x == i then 1 else 0 { RowSnoc(row, x, i); }
  }

  /** The first empty slot of a row. */
  ghost predicate First(row: seq<int>, k: int)
  {
    0 <= k < |row| && row[k] < 0 && forall j :: 0 <= j < k ==> row[j] >= 0
  }

  lemma {:induction false} InvShape(s: S)
    requires Inv(s)
    ensures Shape(s)
  {
  }

  lemma {:induction false} EmptyOk(s: S)
    requires s.files == Repeat(File(FREE, 0, 0), NFILE) && s.fds == [Repeat(-1, NFD)] && s.held == multiset{}
    requires s.pipes == Repeat(Pipe(Repeat(0, SIZE), 0, 0, 0, 0, false), NPIPE) && s.sent == Repeat([], NPIPE)
    requires s.got == Repeat([], NPIPE)
    ensures Inv(s)
  {
    forall i | 0 <= i < NFILE ensures FileOk(s, i) { NoSlots(NFD, i); }
    forall p | 0 <= p < NPIPE ensures PipeOk(s, p) {
      NoEnds(NFILE, PIPE_R, p);
      NoEnds(NFILE, PIPE_W, p);
    }
  }

  lemma {:induction false} NoSlots(n: nat, i: nat)
    ensures InRow(Repeat(-1, n), i) == 0 && Slots([Repeat(-1, n)], i) == 0
  {
    var row := Repeat(-1, n);
    if n > 0 {
      NoSlots(n - 1, i);
      assert row[..n - 1] == Repeat(-1, n - 1);
    }
  }

  lemma {:induction false} NoEnds(n: nat, kind: Kind, p: nat)
    requires kind != FREE
    ensures Ends(Repeat(File(FREE, 0, 0), n), kind, p) == 0
  {
    if n > 0 {
      NoEnds(n - 1, kind, p);
      assert Repeat(File(FREE, 0, 0), n)[..n - 1] == Repeat(File(FREE, 0, 0), n - 1);
    }
  }
}
