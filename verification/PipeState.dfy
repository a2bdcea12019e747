/** File objects, pipes and the descriptors that name them, over all processes. */
module PipeState {
  import opened Bits
  import opened PipeRing

  const NPIPE: nat := 8
  const NFILE: nat := 32
  const NFD: nat := 8

  datatype Kind = FREE | OTHER | PIPE_R | PIPE_W

  /** `struct file`: `pipe` is the pipe of a pipe's end. */
  datatype File = File(kind: Kind, refs: int, pipe: nat)

  /** Everything: the two pools, the descriptors of each process (-1 is none), references taken and not yet in
      a slot, and what has been written to and read from each pipe since it was made. The last three are
      specification state. */
  datatype S = S(files: seq<File>, pipes: seq<Pipe>, fds: seq<seq<int>>, held: multiset<nat>,
    sent: seq<seq<Byte>>, got: seq<seq<Byte>>)

  // --------------------------------------------------------------------- counting slots

  function InRow(row: seq<int>, i: int): nat
  {
    if row == [] then 0 else InRow(row[..|row| - 1], i) + if row[|row| - 1] == i then 1 else 0
  }

  /** In how many slots, of any process, a file is. */
  function Slots(fds: seq<seq<int>>, i: int): nat
  {
    if fds == [] then 0 else Slots(fds[..|fds| - 1], i) + InRow(fds[|fds| - 1], i)
  }

  lemma {:induction false} RowSet(row: seq<int>, s: nat, x: int, i: int)
    requires s < |row|
    ensures InRow(row[s := x], i) + (if row[s] == i then 1 else 0) == InRow(row, i) + if x == i then 1 else 0
  {
    var n := |row| - 1;
    if s < n {
      RowSet(row[..n], s, x, i);
      assert row[s := x][..n] == row[..n][s := x];
    } else {
      assert row[s := x][..n] == row[..n];
    }
  }

  lemma {:induction false} SlotsRow(fds: seq<seq<int>>, p: nat, row: seq<int>, i: int)
    requires p < |fds|
    ensures Slots(fds[p := row], i) + InRow(fds[p], i) == Slots(fds, i) + InRow(row, i)
  {
    var n := |fds| - 1;
    if p < n {
      SlotsRow(fds[..n], p, row, i);
      assert fds[p := row][..n] == fds[..n][p := row];
    } else {
      assert fds[p := row][..n] == fds[..n];
    }
  }

  /** One slot is rewritten. */
  lemma {:induction false} SlotSet(fds: seq<seq<int>>, p: nat, s: nat, x: int, i: int)
    requires p < |fds| && s < |fds[p]|
    ensures Slots(fds[p := fds[p][s := x]], i) + (if fds[p][s] == i then 1 else 0)
         == Slots(fds, i) + if x == i then 1 else 0
  {
    RowSet(fds[p], s, x, i);
    SlotsRow(fds, p, fds[p][s := x], i);
  }

  lemma {:induction false} SlotsMore(fds: seq<seq<int>>, row: seq<int>, i: int)
    ensures Slots(fds + [row], i) == Slots(fds, i) + InRow(row, i)
  {
    assert (fds + [row])[..|fds|] == fds;
  }

  /** A file in a slot is counted. */
  lemma {:induction false} SlotCounts(fds: seq<seq<int>>, p: nat, s: nat)
    requires p < |fds| && s < |fds[p]|
    ensures Slots(fds, fds[p][s]) > 0
  {
    SlotSet(fds, p, s, fds[p][s] + 1, fds[p][s]);
  }

  lemma {:induction false} RowHas(row: seq<int>, i: int) returns (s: nat)
    requires InRow(row, i) > 0
    ensures s < |row| && row[s] == i
  {
    var n := |row| - 1;
    if row[n] == i { return n; }
    s := RowHas(row[..n], i);
  }

  /** A file that is counted is in a slot. */
  lemma {:induction false} SlotHas(fds: seq<seq<int>>, i: int) returns (p: nat, s: nat)
    requires Slots(fds, i) > 0
    ensures p < |fds| && s < |fds[p]| && fds[p][s] == i
  {
    var n := |fds| - 1;
    if InRow(fds[n], i) > 0 {
      s := RowHas(fds[n], i);
      p := n;
    } else {
      p, s := SlotHas(fds[..n], i);
    }
  }

  // ---------------------------------------------------------------------- counting ends

  /** How many file objects are this end of the pipe. */
  function Ends(files: seq<File>, kind: Kind, p: nat): nat
  {
    if files == [] then 0
    else Ends(files[..|files| - 1], kind, p)
         + if files[|files| - 1].kind == kind && files[|files| - 1].pipe == p then 1 else 0
  }

  function IsEnd(f: File, kind: Kind, p: nat): nat
  {
    if f.kind == kind && f.pipe == p then 1 else 0
  }

  lemma {:induction false} EndsSet(files: seq<File>, i: nat, f: File, kind: Kind, p: nat)
    requires i < |files|
    ensures Ends(files[i := f], kind, p) + IsEnd(files[i], kind, p) == Ends(files, kind, p) + IsEnd(f, kind, p)
  {
    var n := |files| - 1;
    if i < n {
      EndsSet(files[..n], i, f, kind, p);
      assert files[i := f][..n] == files[..n][i := f];
    } else {
      assert files[i := f][..n] == files[..n];
    }
  }

  /** An end that is not counted is no file's. */
  lemma {:induction false} EndCounts(files: seq<File>, i: nat, kind: Kind, p: nat)
    requires i < |files| && files[i].kind == kind && files[i].pipe == p
    ensures Ends(files, kind, p) > 0
  {
    EndsSet(files, i, files[i].(pipe := p + 1), kind, p);
  }

  // ------------------------------------------------------------------------ in order

  ghost predicate Shape(s: S)
  {
    |s.files| == NFILE && |s.pipes| == NPIPE && |s.sent| == NPIPE && |s.got| == NPIPE
    && (forall p :: 0 <= p < |s.fds| ==> |s.fds[p]| == NFD)
    && (forall p, k :: 0 <= p < |s.fds| && 0 <= k < NFD ==> -1 <= s.fds[p][k] < NFILE)
  }

  /** A file's count is the number of slots that name it, and of references on their way to one. */
  ghost predicate FileOk(s: S, i: nat)
    requires i < |s.files|
  {
    if s.files[i].kind == FREE then Slots(s.fds, i) == 0 && s.held[i] == 0
    else s.files[i].refs == Slots(s.fds, i) + s.held[i] > 0
         && (s.files[i].kind == PIPE_R || s.files[i].kind == PIPE_W ==> s.files[i].pipe < NPIPE)
  }

  /** A pipe's ends are counted by the file objects that are its ends; it is in use while it has one; and what
      was written is what was read and what is in the ring. */
  ghost predicate PipeOk(s: S, p: nat)
    requires p < |s.pipes| && p < |s.sent| && p < |s.got|
  {
    RingOk(s.pipes[p])
    && (if s.pipes[p].used then
          s.pipes[p].readers == Ends(s.files, PIPE_R, p) && s.pipes[p].writers == Ends(s.files, PIPE_W, p)
          && Ends(s.files, PIPE_R, p) + Ends(s.files, PIPE_W, p) > 0
          && s.sent[p] == s.got[p] + Contents(s.pipes[p])
        else Ends(s.files, PIPE_R, p) == 0 && Ends(s.files, PIPE_W, p) == 0)
  }

  ghost predicate Inv(s: S)
  {
    Shape(s) && (forall i :: 0 <= i < NFILE ==> FileOk(s, i)) && (forall p :: 0 <= p < NPIPE ==> PipeOk(s, p))
  }

  // ----------------------------------------------------------------- what it means

  /** With no reference on its way, a file object's count is exactly the number of slots that name it, and it
      is taken exactly if some slot does: nothing leaks. */
  lemma {:induction false} CountsExact(s: S, i: nat)
    requires Inv(s) && s.held == multiset{} && i < NFILE
    ensures s.files[i].kind != FREE ==> s.files[i].refs == Slots(s.fds, i)
    ensures s.files[i].kind != FREE <==> exists p, k :: Names(s.fds, p, k, i)
  {
    assert FileOk(s, i);
    if s.files[i].kind != FREE {
      var p, k := SlotHas(s.fds, i);
      assert Names(s.fds, p, k, i);
    } else {
      forall p, k | Names(s.fds, p, k, i) ensures false { SlotCounts(s.fds, p, k); }
    }
  }

  ghost predicate Names(fds: seq<seq<int>>, p: nat, k: nat, i: nat)
  {
    p < |fds| && k < |fds[p]| && fds[p][k] == i
  }

  /** A pipe without writers is named for writing by no slot of any process. */
  lemma {:induction false} NoWriterAnywhere(s: S, p: nat)
    requires Inv(s) && p < NPIPE && s.pipes[p].used && s.pipes[p].writers <= 0
    ensures forall q, k :: 0 <= q < |s.fds| && 0 <= k < NFD && s.fds[q][k] >= 0 ==>
        !(s.files[s.fds[q][k]].kind == PIPE_W && s.files[s.fds[q][k]].pipe == p)
  {
    assert PipeOk(s, p);
    forall q, k | 0 <= q < |s.fds| && 0 <= k < NFD && s.fds[q][k] >= 0
      ensures !(s.files[s.fds[q][k]].kind == PIPE_W && s.files[s.fds[q][k]].pipe == p)
    {
      var i := s.fds[q][k];
      if s.files[i].kind == PIPE_W && s.files[i].pipe == p { EndCounts(s.files, i, PIPE_W, p); }
    }
  }

  lemma {:induction false} NoReaderAnywhere(s: S, p: nat)
    requires Inv(s) && p < NPIPE && s.pipes[p].used && s.pipes[p].readers <= 0
    ensures forall q, k :: 0 <= q < |s.fds| && 0 <= k < NFD && s.fds[q][k] >= 0 ==>
        !(s.files[s.fds[q][k]].kind == PIPE_R && s.files[s.fds[q][k]].pipe == p)
  {
    assert PipeOk(s, p);
    forall q, k | 0 <= q < |s.fds| && 0 <= k < NFD && s.fds[q][k] >= 0
      ensures !(s.files[s.fds[q][k]].kind == PIPE_R && s.files[s.fds[q][k]].pipe == p)
    {
      var i := s.fds[q][k];
      if s.files[i].kind == PIPE_R && s.files[i].pipe == p { EndCounts(s.files, i, PIPE_R, p); }
    }
  }

  /** A file in a slot is not free, and a pipe's end is one of a pipe in use. */
  lemma {:induction false} InSlot(s: S, p: nat, k: nat)
    requires Inv(s) && p < |s.fds| && k < NFD && s.fds[p][k] >= 0
    ensures var f := s.files[s.fds[p][k]];
            f.kind != FREE && f.refs > 0
            && (f.kind == PIPE_R || f.kind == PIPE_W ==> f.pipe < NPIPE && s.pipes[f.pipe].used)
  {
    var i := s.fds[p][k];
    SlotCounts(s.fds, p, k);
    assert FileOk(s, i);
    var f := s.files[i];
    if f.kind == PIPE_R || f.kind == PIPE_W {
      EndCounts(s.files, i, f.kind, f.pipe);
      assert PipeOk(s, f.pipe);
    }
  }

  // --------------------------------------------------------------------------- steps

  /** One more reference to a file. */
  ghost function Refd(s: S, i: nat): S
    requires i < |s.files|
  {
    s.(files := s.files[i := s.files[i].(refs := s.files[i].refs + 1)], held := s.held + multiset{i})
  }

  lemma {:induction false} SameEnds(files: seq<File>, i: nat, f: File)
    requires i < |files| && f.kind == files[i].kind && f.pipe == files[i].pipe
    ensures forall kind: Kind, p: nat :: Ends(files[i := f], kind, p) == Ends(files, kind, p)
  {
    forall kind: Kind, p: nat
      ensures Ends(files[i := f], kind, p) == Ends(files, kind, p) { EndsSet(files, i, f, kind, p); }
  }

  lemma {:induction false} RefdOk(s: S, i: nat)
    requires Inv(s) && i < NFILE && s.files[i].kind != FREE
    ensures Inv(Refd(s, i))
  {
    var t := Refd(s, i);
    SameEnds(s.files, i, t.files[i]);
    forall j | 0 <= j < NFILE ensures FileOk(t, j) { assert FileOk(s, j); }
    forall p | 0 <= p < NPIPE ensures PipeOk(t, p) { assert PipeOk(s, p); }
  }

  /** A reference goes into an empty slot, or one that is in a slot is taken out. */
  ghost function Stored(s: S, p: nat, k: nat, i: nat): S
    requires p < |s.fds| && k < |s.fds[p]| && i in s.held
  {
    s.(fds := s.fds[p := s.fds[p][k := i]], held := s.held - multiset{i})
  }

  lemma {:induction false} StoredOk(s: S, p: nat, k: nat, i: nat)
    requires Inv(s) && p < |s.fds| && k < NFD && s.fds[p][k] == -1 && i in s.held && i < NFILE
    ensures Inv(Stored(s, p, k, i))
  {
    var t := Stored(s, p, k, i);
    forall j | 0 <= j < NFILE ensures FileOk(t, j) {
      assert FileOk(s, j);
      SlotSet(s.fds, p, k, i, j);
    }
    forall q | 0 <= q < NPIPE ensures PipeOk(t, q) { assert PipeOk(s, q); }
  }

  ghost function Lifted(s: S, p: nat, k: nat): S
    requires p < |s.fds| && k < |s.fds[p]| && s.fds[p][k] >= 0
  {
    s.(fds := s.fds[p := s.fds[p][k := -1]], held := s.held + multiset{s.fds[p][k]})
  }

  lemma {:induction false} LiftedOk(s: S, p: nat, k: nat)
    requires Inv(s) && p < |s.fds| && k < NFD && s.fds[p][k] >= 0
    ensures Inv(Lifted(s, p, k))
  {
    var t, i := Lifted(s, p, k), s.fds[p][k];
    InSlot(s, p, k);
    forall j | 0 <= j < NFILE ensures FileOk(t, j) {
      assert FileOk(s, j);
      SlotSet(s.fds, p, k, -1, j);
    }
    forall q | 0 <= q < NPIPE ensures PipeOk(t, q) { assert PipeOk(s, q); }
  }

  /** A reference is given back, and with the last of a pipe's end that end is closed: `file_close`. */
  function PipeClosed(pp: Pipe, kind: Kind): Pipe
  {
    var q := if kind == PIPE_R then pp.(readers := pp.readers - 1) else pp.(writers := pp.writers - 1);
    if q.readers <= 0 && q.writers <= 0 then q.(used := false) else q
  }

  ghost function Closed(s: S, i: nat): S
    requires i < |s.files|
  {
    var f := s.files[i];
    var t := s.(held := s.held - multiset{i});
    if f.refs - 1 > 0 then t.(files := t.files[i := f.(refs := f.refs - 1)])
    else
      var u := t.(files := t.files[i := File(FREE, f.refs - 1, 0)]);
      if (f.kind == PIPE_R || f.kind == PIPE_W) && f.pipe < |u.pipes| then
          u.(pipes := u.pipes[f.pipe := PipeClosed(u.pipes[f.pipe], f.kind)]) else u
  }

  lemma {:induction false} ClosedOk(s: S, i: nat)
    requires Inv(s) && i in s.held && i < NFILE
    ensures s.files[i].kind != FREE
    ensures (s.files[i].kind == PIPE_R || s.files[i].kind == PIPE_W ==> s.files[i].pipe < NPIPE)
    ensures Inv(Closed(s, i))
  {
    hide Slots, Ends, Contents;
    assert FileOk(s, i);
    var f, t := s.files[i], Closed(s, i);
    forall j | 0 <= j < NFILE ensures FileOk(t, j) { assert FileOk(s, j); }
    forall p | 0 <= p < NPIPE ensures PipeOk(t, p) {
      assert PipeOk(s, p);
      EndsSet(s.files, i, t.files[i], PIPE_R, p);
      EndsSet(s.files, i, t.files[i], PIPE_W, p);
      if (f.kind == PIPE_R || f.kind == PIPE_W) && f.pipe == p {
        EndCounts(s.files, i, f.kind, p);
        SameRing(s.pipes[p], t.pipes[p]);
      }
    }
  }

  lemma {:induction false} SameRing(p: Pipe, q: Pipe)
    requires |p.buf| == SIZE && q.buf == p.buf && q.head == p.head && q.tail == p.tail
    ensures Contents(q) == Contents(p)
  {
  }

  /** A reference taken and given back. */
  lemma {:induction false} RefdClosed(s: S, i: nat)
    requires Inv(s) && i < NFILE && s.files[i].kind != FREE
    ensures i in Refd(s, i).held && (s.files[i].kind == PIPE_R || s.files[i].kind == PIPE_W ==> s.files[i].pipe < NPIPE)
    ensures Closed(Refd(s, i), i) == s
  {
    assert FileOk(s, i);
    var t := Refd(s, i);
    assert t.files[i := s.files[i]] == s.files;
    assert t.held - multiset{i} == s.held;
  }

  /** A file object other than a pipe's end. */
  ghost function Allocated(s: S, i: nat): S
    requires i < |s.files|
  {
    s.(files := s.files[i := File(OTHER, 1, 0)], held := s.held + multiset{i})
  }

  lemma {:induction false} AllocatedOk(s: S, i: nat)
    requires Inv(s) && i < NFILE && s.files[i].kind == FREE
    ensures Inv(Allocated(s, i))
  {
    var t := Allocated(s, i);
    forall j | 0 <= j < NFILE ensures FileOk(t, j) { assert FileOk(s, j); }
    forall p | 0 <= p < NPIPE ensures PipeOk(t, p) {
      assert PipeOk(s, p);
      EndsSet(s.files, i, t.files[i], PIPE_R, p);
      EndsSet(s.files, i, t.files[i], PIPE_W, p);
    }
  }

  /** A pipe with its two ends. */
  ghost function Piped(s: S, q: nat, r: nat, w: nat): S
    requires q < |s.pipes| && q < |s.sent| && q < |s.got| && r < |s.files| && w < |s.files|
  {
    s.(files := s.files[r := File(PIPE_R, 1, q)][w := File(PIPE_W, 1, q)], held := s.held + multiset{r, w},
       pipes := s.pipes[q := Pipe(s.pipes[q].buf, 0, 0, 1, 1, true)], sent := s.sent[q := []], got := s.got[q := []])
  }

  lemma {:induction false} PipedOk(s: S, q: nat, r: nat, w: nat)
    requires Inv(s) && q < NPIPE && !s.pipes[q].used && r < NFILE && w < NFILE && r != w
    requires s.files[r].kind == FREE && s.files[w].kind == FREE
    ensures Inv(Piped(s, q, r, w))
  {
    var t := Piped(s, q, r, w);
    forall j | 0 <= j < NFILE ensures FileOk(t, j) { assert FileOk(s, j); }
    var a := s.files[r := File(PIPE_R, 1, q)];
    forall p | 0 <= p < NPIPE ensures PipeOk(t, p) {
      assert PipeOk(s, p);
      EndsSet(s.files, r, a[r], PIPE_R, p);
      EndsSet(s.files, r, a[r], PIPE_W, p);
      EndsSet(a, w, t.files[w], PIPE_R, p);
      EndsSet(a, w, t.files[w], PIPE_W, p);
    }
  }

  /** An unused pipe's fields, and a free file's, may be anything. */
  lemma {:induction false} IdleOk(s: S, t: S, q: nat)
    requires Inv(s) && q < NPIPE && !s.pipes[q].used && t == s.(pipes := t.pipes, files := t.files)
    requires |t.pipes| == NPIPE && |t.files| == NFILE
    requires (forall p :: 0 <= p < NPIPE && p != q ==> t.pipes[p] == s.pipes[p]) && RingOk(t.pipes[q])
    requires !t.pipes[q].used
    requires forall i :: 0 <= i < NFILE ==>
        t.files[i] == s.files[i] || (t.files[i].kind == FREE && s.files[i].kind == FREE)
    ensures Inv(t)
  {
    forall j | 0 <= j < NFILE ensures FileOk(t, j) { assert FileOk(s, j); }
    forall p | 0 <= p < NPIPE ensures PipeOk(t, p) {
      assert PipeOk(s, p);
      FreeEnds(s.files, t.files, PIPE_R, p);
      FreeEnds(s.files, t.files, PIPE_W, p);
    }
  }

  lemma {:induction false} FreeEnds(a: seq<File>, b: seq<File>, kind: Kind, p: nat)
    requires |a| == |b| && kind != FREE
    requires forall i :: 0 <= i < |a| ==> b[i] == a[i] || (b[i].kind == FREE && a[i].kind == FREE)
    ensures Ends(b, kind, p) == Ends(a, kind, p)
  {
    if a != [] { FreeEnds(a[..|a| - 1], b[..|b| - 1], kind, p); }
  }

  /** A new process with copies of the slots, once a reference has been taken for each. */
  ghost function Joined(s: S, row: seq<int>): S
  {
    s.(fds := s.fds + [row], held := multiset{})
  }

  lemma {:induction false} JoinedOk(s: S, row: seq<int>)
    requires Inv(s) && |row| == NFD && (forall k :: 0 <= k < NFD ==> -1 <= row[k] < NFILE)
    requires forall i: nat :: s.held[i] == InRow(row, i)
    ensures Inv(Joined(s, row))
  {
    var t := Joined(s, row);
    forall j | 0 <= j < NFILE ensures FileOk(t, j) {
      assert FileOk(s, j);
      SlotsMore(s.fds, row, j);
    }
    forall p | 0 <= p < NPIPE ensures PipeOk(t, p) { assert PipeOk(s, p); }
  }

  lemma {:induction false} RowSnoc(row: seq<int>, x: int, i: int)
    ensures InRow(row + [x], i) == InRow(row, i) + if x == i then 1 else 0
  {
    assert (row + [x])[..|row|] == row;
  }

  /** No pipe has come into use, and none has got another writer. */
  ghost predicate OnlyClosed(s: S, t: S)
  {
    |t.pipes| == |s.pipes|
    && forall p :: 0 <= p < |s.pipes| && t.pipes[p].used ==> s.pipes[p].used && t.pipes[p].writers <= s.pipes[p].writers
  }

  lemma {:induction false} OnlyClosedThen(s: S, t: S, u: S)
    requires OnlyClosed(s, t) && OnlyClosed(t, u)
    ensures OnlyClosed(s, u)
  {
  }

  lemma {:induction false} ClosedOnly(s: S, i: nat)
    requires i < |s.files|
    ensures OnlyClosed(s, Closed(s, i))
  {
  }

  /** What happened to the streams of the pipes that were in use. */
  ghost predicate SameStreams(s: S, t: S)
  {
    |s.pipes| == |s.sent| == |s.got| == |t.sent| == |t.got|
    && forall p :: 0 <= p < |s.pipes| && s.pipes[p].used ==> t.sent[p] == s.sent[p] && t.got[p] == s.got[p]
  }

  /** A pipe's ring and streams change together. */
  ghost function Moved(s: S, p: nat, pp: Pipe, sent: seq<Byte>, got: seq<Byte>): S
    requires p < |s.pipes| && p < |s.sent| && p < |s.got|
  {
    s.(pipes := s.pipes[p := pp], sent := s.sent[p := sent], got := s.got[p := got])
  }

  lemma {:induction false} MovedOk(s: S, p: nat, pp: Pipe, sent: seq<Byte>, got: seq<Byte>)
    requires Inv(s) && p < NPIPE && s.pipes[p].used && RingOk(pp) && pp.used && pp.readers == s.pipes[p].readers
    requires pp.writers == s.pipes[p].writers
    requires sent == got + Contents(pp)
    ensures Inv(Moved(s, p, pp, sent, got))
  {
    var t := Moved(s, p, pp, sent, got);
    forall j | 0 <= j < NFILE ensures FileOk(t, j) { assert FileOk(s, j); }
    forall q | 0 <= q < NPIPE ensures PipeOk(t, q) { assert PipeOk(s, q); }
  }
}
