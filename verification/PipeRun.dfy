/** Every run of the descriptor calls from the empty table: what a pipe gives out is a beginning of what it
    took in, and after an end of file nothing more comes. */
module PipeRun {
  import opened Bits
  import opened Seqs
  import opened PipeRing
  import opened PipeState
  import opened PipeTable

  /** A call: `p` is the process, `a` and `b` are descriptors. */
  datatype Op =
    | Pipe(p: nat)
    | Dup(p: nat, a: nat)
    | Dup3(p: nat, a: nat, b: nat)
    | Close(p: nat, a: nat)
    | Open(p: nat)
    | Fork(p: nat)
    | Exit(p: nat)
    | Read(p: nat, a: nat, len: nat)
    | Write(p: nat, a: nat, buf: seq<Byte>, from: nat)

  /** What a call returned: a number, or the outcome of reading and writing and how far a write had come; and
      which pipe it was about. */
  datatype Done = Done(op: Op, v: int, r: Outcome, n: nat, q: nat)

  /** What a pipe's users saw. */
  datatype Event = Made(q: nat) | In(q: nat, x: seq<Byte>) | Out(q: nat, x: seq<Byte>) | End(q: nat)

  /** The event that a finished call is. */
  function Events(d: Done): seq<Event>
  {
    match d.op
    case Pipe(_) => if d.v >= 0 then [Made(d.q)] else []
    case Read(_, _, _) =>
      if d.r.Bytes? && d.r.x != [] then [Out(d.q, d.r.x)] else if d.r == EndOfFile then [End(d.q)] else []
    case Write(_, _, buf, from) =>
      if (d.r.Bytes? || d.r == Wait) && from <= d.n <= |buf| then [In(d.q, buf[from..d.n])] else []
    case _ => []
  }

  function Log(done: seq<Done>): seq<Event>
  {
    if done == [] then [] else Log(done[..|done| - 1]) + Events(done[|done| - 1])
  }

  /** The bytes a pipe has taken in since it was last made. */
  function Entered(log: seq<Event>, q: nat): seq<Byte>
  {
    if log == [] then [] else
      var e, before := log[|log| - 1], log[..|log| - 1];
      if e == Made(q) then [] else if e.In? && e.q == q then Entered(before, q) + e.x else Entered(before, q)
  }

  /** The bytes that have come out of it since. */
  function Given(log: seq<Event>, q: nat): seq<Byte>
  {
    if log == [] then [] else
      var e, before := log[|log| - 1], log[..|log| - 1];
      if e == Made(q) then [] else if e.Out? && e.q == q then Given(before, q) + e.x else Given(before, q)
  }

  /** A reader has seen the end since. */
  predicate Ended(log: seq<Event>, q: nat)
  {
    log != [] &&
    var e := log[|log| - 1];
    e == End(q) || (e != Made(q) && Ended(log[..|log| - 1], q))
  }

  /** Bytes come out in the order they went in, at most a page behind; the end is seen when all are out, and
      then nothing goes in any more. */
  ghost predicate EventOk(log: seq<Event>, e: Event)
  {
    match e
    case Made(_) => true
    case In(q, x) => !Ended(log, q) && |Entered(log, q)| + |x| - |Given(log, q)| < SIZE
    case Out(q, x) => x != [] && Given(log, q) + x <= Entered(log, q)
    case End(q) => Given(log, q) == Entered(log, q)
  }

  ghost predicate Faithful(log: seq<Event>)
  {
    forall i :: 0 <= i < |log| ==> EventOk(log[..i], log[i])
  }

  lemma {:induction false} FaithfulMore(log: seq<Event>, e: Event)
    requires Faithful(log) && EventOk(log, e)
    ensures Faithful(log + [e])
  {
    hide EventOk;
    var all := log + [e];
    forall i | 0 <= i < |all| ensures EventOk(all[..i], all[i]) {
      if i < |log| {
        assert all[..i] == log[..i];
        assert EventOk(log[..i], log[i]);
      } else {
        assert all[..i] == log;
      }
    }
  }

  /** Reading it off the log at any moment: what came out of a pipe is a beginning of what went in. */
  lemma {:induction false} PrefixAlways(log: seq<Event>, i: nat, q: nat)
    requires Faithful(log) && i <= |log|
    ensures Given(log[..i], q) <= Entered(log[..i], q)
    decreases i
  {
    hide Faithful;
    if i > 0 {
      PrefixAlways(log, i - 1, q);
      assert log[..i][..i - 1] == log[..i - 1];
      FaithfulAt(log, i - 1);
    }
  }

  lemma {:induction false} FaithfulAt(log: seq<Event>, i: nat)
    requires Faithful(log) && i < |log|
    ensures EventOk(log[..i], log[i])
  {
    hide EventOk;
  }

  // --------------------------------------------------------------- the log and the state

  /** The log tells the streams of the pipes in use. */
  ghost predicate Follows(s: S, log: seq<Event>)
  {
    |s.pipes| == |s.sent| == |s.got| == NPIPE
    && forall q :: 0 <= q < NPIPE && s.pipes[q].used ==>
         Entered(log, q) == s.sent[q] && Given(log, q) == s.got[q] && (Ended(log, q) ==> s.pipes[q].writers <= 0)
  }

  lemma {:induction false} More(log: seq<Event>, e: Event, q: nat)
    ensures Entered(log + [e], q) == if e == Made(q) then [] else if e.In? && e.q == q then Entered(log, q) + e.x
        else Entered(log, q)
    ensures Given(log + [e], q) == if e == Made(q) then [] else if e.Out? && e.q == q then Given(log, q) + e.x
        else Given(log, q)
    ensures Ended(log + [e], q) <==> e == End(q) || (e != Made(q) && Ended(log, q))
  {
    assert (log + [e])[..|log|] == log;
  }

  /** A call that only closes. */
  lemma {:induction false} Quiet(s: S, t: S, log: seq<Event>)
    requires Inv(s) && Inv(t) && Follows(s, log) && OnlyClosed(s, t) && SameStreams(s, t)
    ensures Follows(t, log)
  {
    hide Taken, Given, Ended, FileOk, PipeOk;
  }

  lemma {:induction false} PipeMade(s: S, t: S, log: seq<Event>, p: nat, rf: nat, wf: nat)
    requires Follows(s, log) && Faithful(log) && NewPipe(s, t, p, rf, wf)
    ensures var e := Made(PipeOf(t, p, rf)); Follows(t, log + [e]) && Faithful(log + [e])
  {
    hide Taken, Given, Ended, Faithful;
    var e := Made(PipeOf(t, p, rf));
    forall q: nat { More(log, e, q); }
    FaithfulMore(log, e);
  }

  lemma {:induction false} BytesOut(s: S, t: S, log: seq<Event>, p: nat, a: nat, x: seq<Byte>)
    requires Inv(s) && Inv(t) && Follows(s, log) && Faithful(log) && Delivered(s, t, p, a, x) && x != []
    ensures var e := Out(PipeOf(s, p, a), x); Follows(t, log + [e]) && Faithful(log + [e])
  {
    hide Inv, Taken, Given, Ended, Faithful;
    var q := PipeOf(s, p, a);
    var e := Out(q, x);
    EndUsed(s, p, a, PIPE_R);
    DeliveredUsed(s, t, p, a, x);
    ReadIsPrefix(t, q);
    forall q: nat { More(log, e, q); }
    FaithfulMore(log, e);
  }

  /** A pipe that a slot names is in use, and its writers are counted. */
  lemma {:induction false} EndUsed(s: S, p: nat, a: nat, kind: Kind)
    requires Inv(s) && OnPipe(s, p, a, kind) && (kind == PIPE_R || kind == PIPE_W)
    ensures s.pipes[PipeOf(s, p, a)].used && (kind == PIPE_W ==> s.pipes[PipeOf(s, p, a)].writers > 0)
  {
    hide Ends, Contents, Slots;
    InSlot(s, p, a);
    EndCounts(s.files, s.fds[p][a], kind, PipeOf(s, p, a));
    assert PipeOk(s, PipeOf(s, p, a));
  }

  lemma {:induction false} DeliveredUsed(s: S, t: S, p: nat, a: nat, x: seq<Byte>)
    requires Inv(s) && Inv(t) && Delivered(s, t, p, a, x)
    ensures t.pipes[PipeOf(s, p, a)].used
  {
    hide Inv;
    EndUsed(t, p, a, PIPE_R);
  }

  lemma {:induction false} BytesIn(s: S, t: S, log: seq<Event>, p: nat, a: nat, x: seq<Byte>)
    requires Inv(s) && Inv(t) && Follows(s, log) && Faithful(log) && Accepted(s, t, p, a, x)
    ensures var e := In(PipeOf(s, p, a), x); Follows(t, log + [e]) && Faithful(log + [e])
  {
    hide Inv, Taken, Given, Ended, Faithful;
    var q := PipeOf(s, p, a);
    var e := In(q, x);
    EndUsed(s, p, a, PIPE_W);
    EndUsed(t, p, a, PIPE_W);
    ReadIsPrefix(t, q);
    forall q: nat { More(log, e, q); }
    FaithfulMore(log, e);
  }

  lemma {:induction false} EndSeen(s: S, log: seq<Event>, p: nat, a: nat)
    requires Inv(s) && Follows(s, log) && Faithful(log) && OnPipe(s, p, a, PIPE_R)
    requires s.got[PipeOf(s, p, a)] == s.sent[PipeOf(s, p, a)] && s.pipes[PipeOf(s, p, a)].writers <= 0
    ensures var e := End(PipeOf(s, p, a)); Follows(s, log + [e]) && Faithful(log + [e])
  {
    hide Inv, Taken, Given, Ended, Faithful;
    var q := PipeOf(s, p, a);
    var e := End(q);
    EndUsed(s, p, a, PIPE_R);
    forall q: nat { More(log, e, q); }
    FaithfulMore(log, e);
  }

  // ------------------------------------------------------------------------------ runs

  /** What a call does and returns. A process that is not there calls nothing. */
  ghost predicate Does(s: S, d: Done, t: S)
  {
    if d.op.p >= |s.fds| then t == s && d.v == -1 && d.r == Elsewhere
    else match d.op
      case Pipe(p) => if d.v >= 0 then NewPipe(s, t, p, d.v, d.n) && d.q == PipeOf(t, p, d.v)
          else t.fds == s.fds && NoRoom(s, p)
      case Read(p, a, len) => Reads(s, t, p, a, len, d.r) && (Taken(s, p, a) ==> d.q == PipeOf(s, p, a))
      case Write(p, a, buf, from) =>
        if from > |buf| then t == s && d.r == Elsewhere
        else Writes(s, t, p, a, buf, from, d.r, d.n) && (Taken(s, p, a) ==> d.q == PipeOf(s, p, a))
      case _ => Renames(s, d, t) && OnlyClosed(s, t) && SameStreams(s, t)
  }

  /** What the slots name after a call that makes no pipe and moves no byte. */
  ghost predicate Renames(s: S, d: Done, t: S)
    requires d.op.p < |s.fds|
  {
    var row := s.fds[d.op.p];
    match d.op
    case Dup(p, a) =>
      if !Taken(s, p, a) then d.v == -9 && t == s
      else if d.v < 0 then d.v == -24 && t == s && NoneEmptyBut(row, -1)
      else First(row, d.v) && t.fds == s.fds[p := row[d.v := row[a]]]
    case Dup3(p, a, b) =>
      if !Taken(s, p, a) || b >= |row| then d.v == -9 && t == s
      else if a == b then d.v == -22 && t == s
      else d.v == b && t.fds == s.fds[p := row[b := row[a]]]
    case Close(p, a) => if !Taken(s, p, a) then d.v == -9 && t == s else d.v == 0 && t.fds == s.fds[p := row[a := -1]]
    case Open(p) =>
      if d.v < 0 then d.v == -24 && t.fds == s.fds && (NoneFreeBut(s.files, -1) || NoneEmptyBut(row, -1))
      else First(row, d.v) && p < |t.fds| && d.v < |t.fds[p]| && t.fds == s.fds[p := row[d.v := t.fds[p][d.v]]]
           && 0 <= t.fds[p][d.v] < |t.files| && t.files[t.fds[p][d.v]] == File(OTHER, 1, 0)
    case Fork(p) => d.v == |s.fds| && t.fds == s.fds + [row]
    case Exit(p) => t.fds == s.fds[p := Repeat(-1, NFD)]
    case _ => true
  }

  /** A call that makes no pipe and moves no byte. */
  method Quietly(t: Table, op: Op) returns (d: Done)
    requires t.Valid() && !op.Pipe? && !op.Read? && !op.Write? && op.p < |t.fds|
    modifies t
    ensures t.Valid() && d == Done(op, d.v, Elsewhere, 0, 0) && Renames(old(t.State()), d, t.State())
    ensures OnlyClosed(old(t.State()), t.State()) && SameStreams(old(t.State()), t.State())
  {
    hide Inv;
    InvShape(t.State());
    var v := 0;
    match op {
      case Dup(p, a) => v := t.Dup(p, a);
      case Dup3(p, a, b) => v := t.Dup3(p, a, b);
      case Close(p, a) => v := t.Close(p, a);
      case Open(p) => v := t.Open(p);
      case Fork(p) => v := t.Fork(p);
      case Exit(p) => t.Exit(p);
    }
    d := Done(op, v, Elsewhere, 0, 0);
  }

  method Perform(t: Table, op: Op, ghost log: seq<Event>) returns (d: Done)
    requires t.Valid() && Follows(t.State(), log) && Faithful(log)
    modifies t
    ensures t.Valid() && d.op == op && Does(old(t.State()), d, t.State())
    ensures Follows(t.State(), log + Events(d)) && Faithful(log + Events(d))
  {
    hide Inv, Follows, Faithful, Delivered, Accepted, NewPipe, OnlyClosed, SameStreams, Nobody, Renames, NoRoom;
    ghost var s := t.State();
    assert log + [] == log;
    d := Done(op, -1, Elsewhere, 0, 0);
    if op.p >= |t.fds| { return; }
    InvShape(s);
    if op.Pipe? {
      var rf, wf := t.Pipe2(op.p);
      if wf >= 0 {
        PipeMade(s, t.State(), log, op.p, rf, wf);
        NewPipeNames(s, t.State(), op.p, rf, wf);
        d := Done(op, rf, Elsewhere, wf, t.files[t.fds[op.p][rf]].pipe);
      } else {
        Quiet(s, t.State(), log);
      }
    } else if op.Read? {
      var q := if op.a < NFD && t.fds[op.p][op.a] >= 0 then t.files[t.fds[op.p][op.a]].pipe else 0;
      var r := t.Read(op.p, op.a, op.len);
      d := Done(op, -1, r, 0, q);
      if r.Bytes? && r.x != [] {
        BytesOut(s, t.State(), log, op.p, op.a, r.x);
      } else if r == EndOfFile {
        EndSeen(s, log, op.p, op.a);
      }
    } else if op.Write? && op.from <= |op.buf| {
      var q := if op.a < NFD && t.fds[op.p][op.a] >= 0 then t.files[t.fds[op.p][op.a]].pipe else 0;
      var r, n := t.Write(op.p, op.a, op.buf, op.from);
      d := Done(op, -1, r, n, q);
      if r.Bytes? || r == Wait { BytesIn(s, t.State(), log, op.p, op.a, op.buf[op.from..n]); }
    } else if !op.Write? {
      d := Quietly(t, op);
      Quiet(s, t.State(), log);
    }
  }

  lemma {:induction false} NewPipeNames(s: S, t: S, p: nat, rf: nat, wf: nat)
    requires NewPipe(s, t, p, rf, wf)
    ensures p < |t.fds| && rf < |t.fds[p]| && 0 <= t.fds[p][rf] < |t.files|
  {
  }

  /** Any calls of any processes, from the empty table. */
  method Run(ops: seq<Op>) returns (done: seq<Done>, ghost states: seq<S>)
    ensures |done| == |ops| && |states| == |ops| + 1 && forall i :: 0 <= i < |ops| ==> done[i].op == ops[i]
    ensures states[0].fds == [Repeat(-1, NFD)] && forall i :: 0 <= i < |ops| ==> Does(states[i], done[i], states[i + 1])
    ensures Faithful(Log(done))
    ensures forall i: nat, q: nat :: i <= |Log(done)| ==> Given(Log(done)[..i], q) <= Entered(Log(done)[..i], q)
  {
    hide Inv, Faithful, Events, Entered, Given, Does, Follows;
    var t := new Table();
    done, states := [], [t.State()];
    Nothing(t.State());
    for i := 0 to |ops|
      invariant t.Valid() && fresh(t) && Follows(t.State(), Log(done)) && Faithful(Log(done))
      invariant |done| == i && |states| == i + 1 && states[i] == t.State() && states[0].fds == [Repeat(-1, NFD)]
      invariant forall j :: 0 <= j < i ==> done[j].op == ops[j] && Does(states[j], done[j], states[j + 1])
    {
      var d := Perform(t, ops[i], Log(done));
      assert (done + [d])[..|done|] == done;
      done, states := done + [d], states + [t.State()];
    }
    ghost var log := Log(done);
    forall i: nat, q: nat | i <= |log| ensures Given(log[..i], q) <= Entered(log[..i], q) { PrefixAlways(log, i, q); }
  }

  lemma {:induction false} Nothing(s: S)
    requires Inv(s) && forall q :: 0 <= q < NPIPE ==> !s.pipes[q].used
    ensures Follows(s, []) && Faithful([])
  {
  }
}
