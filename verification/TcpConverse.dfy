/** Whenever a send is abandoned while both ends are open, the run can go on so that the receiver's bytes are
    no beginning of what was sent: that nothing is abandoned is needed. */
module TcpConverse {
  import opened Bits
  import opened Seqs
  import opened TcpSeq
  import opened Tcp
  import opened TcpStream

  // ---- one end and its peer, whichever is which ----

  function Me(s: System, side: bool): End
  {
    if side then s.a else s.b
  }

  function From(s: System, side: bool): set<Seg>
  {
    if side then s.fromA else s.fromB
  }

  function At(side: bool, ev: Event): Move
  {
    if side then AtA(ev) else AtB(ev)
  }

  /** One more move, at an end, of a run from `z`. */
  lemma {:induction false} Moves(z: System, s: System, mvs: seq<Move>, side: bool, ev: Event)
      returns (t: System, more: seq<Move>)
    requires s == Run(z, mvs) && (ev.Deliver? ==> ev.m in From(s, !side))
    ensures t == Run(z, more) && t == Step(s, At(side, ev)) && more == mvs + [At(side, ev)]
    ensures Me(t, side) == Act(Me(s, side), ev).end && Me(t, !side) == Me(s, !side)
    ensures From(t, side) == From(s, side) + Sent(Act(Me(s, side), ev).out) && From(t, !side) == From(s, !side)
  {
    hide Act;
    t, more := Step(s, At(side, ev)), mvs + [At(side, ev)];
    assert more[..|more| - 1] == mvs;
  }

  lemma {:induction false} RunOn(z: System, a: seq<Move>, b: seq<Move>)
    ensures Run(Run(z, a), b) == Run(z, a + b)
    decreases |b|
  {
    hide Step;
    if b == [] {
      assert a + b == a;
    } else {
      RunOn(z, a, b[..|b| - 1]);
      assert (a + b)[..|a + b| - 1] == a + b[..|b| - 1];
    }
  }

  // ---- what each event does ----

  predicate Usable(e: End)
  {
    Open(e.sock) && !e.sock.reset
  }

  predicate Idle(e: End)
  {
    Usable(e) && e.flight == [] && e.todo == []
  }

  /** A buffer of at most one chunk goes out. */
  lemma {:induction false} GoesOut(x: End, buf: seq<Byte>)
    requires Idle(x) && 0 < |buf| <= MSS
    ensures var y := Act(x, Send(buf)).end; var f := Act(y, NextChunk);
            f.end == x.(given := x.given + buf, stream := x.stream + buf, flight := buf, sock := Sending(x.sock, buf))
            && f.out == [DataSeg(f.end.sock, x.sock.sndNxt, buf)]
  {
    hide Plus;
    assert buf[..|buf|] == buf && buf[|buf|..] == [];
  }

  /** The receiver's side of an end. */
  predicate SameInbound(y: End, z: End)
  {
    z.got == y.got && z.sock.rx == y.sock.rx && z.sock.rcvNxt == y.sock.rcvNxt && z.sock.state == y.sock.state
    && z.sock.finSeen == y.sock.finSeen && z.sock.reset == y.sock.reset
  }

  predicate Plain(m: Seg)
  {
    !m.syn && !m.fin && !m.rst && m.acks
  }

  /** Data with another number is not taken, but answered. */
  lemma {:induction false} Stale(y: End, m: Seg)
    requires Usable(y) && Plain(m) && m.data != [] && m.num != y.sock.rcvNxt
    ensures var f := Act(y, Deliver(m));
            SameInbound(y, f.end) && |f.out| == 1 && Plain(f.out[0]) && f.out[0].data == []
                && f.out[0].ack == y.sock.rcvNxt
  {
    hide Plus, Minus, SeqGe;
  }

  /** Data with the number wanted goes into an empty buffer. */
  lemma {:induction false} Fresh1(y: End, m: Seg)
    requires Usable(y) && Plain(m) && 0 < |m.data| <= RXBUF && m.num == y.sock.rcvNxt && y.sock.rx == []
    ensures var f := Act(y, Deliver(m));
            f.end.sock.rx == m.data && f.end.got == y.got && !f.end.sock.reset
  {
    hide Plus, Minus, SeqGe;
    assert m.data[..|m.data|] == m.data;
  }

  lemma {:induction false} Empties(y: End)
    requires !y.sock.reset
    ensures var f := Act(y, Recv(|y.sock.rx|));
            f.end == y.(got := y.got + y.sock.rx, sock := y.sock.(rx := [])) && f.out == []
  {
    assert y.sock.rx[..|y.sock.rx|] == y.sock.rx && y.sock.rx[|y.sock.rx|..] == [];
  }

  /** An answer for exactly what has been sent ends the send. */
  lemma {:induction false} Ends(x: End, m: Seg, n: nat, u: nat)
    requires Usable(x) && x.flight != [] && x.todo == [] && |x.flight| <= MSS && Plain(m) && m.data == []
    requires u <= n < u + HALF && x.sock.sndNxt == Pos(x.iss, n) && m.ack == Pos(x.iss, n)
    requires x.sock.sndUna == Pos(x.iss, u)
    ensures var y := Act(x, Deliver(m)).end; var z := Act(y, Acked).end;
            Idle(z) && z.given == x.given && z.sock.sndNxt == x.sock.sndNxt && z.iss == x.iss
            && z.sock.sndUna == Pos(x.iss, n)
  {
    hide Pos, Minus, Plus;
    GeIff(x.iss, n, u);
    GeIff(x.iss, n, n);
    var y := Act(x, Deliver(m)).end;
    assert y.sock.sndUna == m.ack && y.sock.sndNxt == x.sock.sndNxt && y.flight == x.flight;
    BackPlus(y);
  }

  lemma {:induction false} BackPlus(x: End)
    requires |x.flight| <= MSS
    ensures Plus(Back(x), |x.flight|) == x.sock.sndNxt
  {
    var k := |x.flight|;
    assert k % SPACE == k;
    var d := x.sock.sndNxt - k;
    if d < 0 { assert Minus(x.sock.sndNxt, k) == d + SPACE; } else { assert Minus(x.sock.sndNxt, k) == d; }
  }

  // ---- after the send has been abandoned ----

  /** The sender is about to give out the number `1 + low` again; the receiver has the first `high` bytes of
      what was given and wants the number `1 + high`. */
  ghost predicate Rewound(x: End, y: End, low: nat, high: nat)
  {
    Idle(x) && Usable(y) && low <= high <= |x.given| && high - low <= MSS
    && x.sock.sndNxt == Pos(x.iss, 1 + low) && y.sock.rcvNxt == Pos(x.iss, 1 + high)
    && y.got + y.sock.rx == x.given[..high] && (low == high ==> high < |x.given|)
    && exists u: nat :: low < u <= 1 + high && x.sock.sndUna == Pos(x.iss, u)
  }

  lemma {:induction false} GivesUp(x: End, y: End)
    requires Sane(x) && SenderOk(x) && ReceiverOk(x, y) && x.flight != [] && Usable(x) && Usable(y)
    ensures Rewound(Act(x, GiveUp(true)).end, y, |x.stream| - |x.flight|, |y.got| + |y.sock.rx|)
  {
    hide Pos, Minus, Plus;
    BackIs(x);
    var low, high := |x.stream| - |x.flight|, |y.got| + |y.sock.rx|;
    assert Nxt(x) == 1 + |x.stream|;
    assert x.stream[..high] == x.given[..high];
    assert !y.sock.finSeen && Rcv(y) == 1 + high;
    assert low < x.una <= 1 + high && x.sock.sndUna == Pos(x.iss, x.una);
  }

  /** As many bytes as the receiver is ahead go out under numbers it has, and its answer, which is for others,
      ends the send. */
  lemma {:induction false} CatchUp(z: System, s: System, mvs: seq<Move>, side: bool, low: nat, high: nat)
      returns (t: System, more: seq<Move>)
    requires s == Run(z, mvs) && Rewound(Me(s, side), Me(s, !side), low, high) && low < high
    ensures t == Run(z, more) && Rewound(Me(t, side), Me(t, !side), high, high)
  {
    hide Act, Run, Step, Pos, Sending, DataSeg;
    var x, y := Me(s, side), Me(s, !side);
    var u: nat :| low < u <= 1 + high && x.sock.sndUna == Pos(x.iss, u);
    var buf: seq<Byte> := Repeat(0, high - low);
    GoesOut(x, buf);
    t, more := Moves(z, s, mvs, side, Send(buf));
    t, more := Moves(z, t, more, side, NextChunk);
    var x1 := Me(t, side);
    var m := DataSeg(x1.sock, x.sock.sndNxt, buf);
    assert m in From(t, side);
    Numbered(x, x1, buf, low, high);
    if Pos(x.iss, 1 + low) == Pos(x.iss, 1 + high) { PosUnique(x.iss, 1 + low, 1 + high); }
    Stale(y, m);
    var answer := Act(y, Deliver(m)).out[0];
    t, more := Moves(z, t, more, !side, Deliver(m));
    assert answer in From(t, !side);
    Ends(x1, answer, 1 + high, u);
    t, more := Moves(z, t, more, side, Deliver(answer));
    t, more := Moves(z, t, more, side, Acked);
    assert (x.given + buf)[..high] == x.given[..high];
  }

  lemma {:induction false} Numbered(x: End, x1: End, buf: seq<Byte>, low: nat, high: nat)
    requires x.sock.sndNxt == Pos(x.iss, 1 + low) && x1.sock == Sending(x.sock, buf) && |buf| == high - low
    ensures x1.sock.sndNxt == Pos(x.iss, 1 + high) && x1.sock.sndUna == x.sock.sndUna && x1.sock.state == x.sock.state
    ensures x1.sock.reset == x.sock.reset
    ensures Plain(DataSeg(x1.sock, x.sock.sndNxt, buf)) && DataSeg(x1.sock, x.sock.sndNxt, buf).data == buf
    ensures DataSeg(x1.sock, x.sock.sndNxt, buf).num == x.sock.sndNxt
  {
    hide Pos, Plus;
    PosPlus(x.iss, 1 + low, |buf|);
  }

  /** The receiver's program reads all there is. */
  lemma {:induction false} ReadsAll(z: System, s: System, mvs: seq<Move>, side: bool)
      returns (t: System, more: seq<Move>)
    requires s == Run(z, mvs) && !Me(s, side).sock.reset
    ensures t == Run(z, more) && Me(t, !side) == Me(s, !side)
    ensures var y := Me(s, side); Me(t, side) == y.(got := y.got + y.sock.rx, sock := y.sock.(rx := []))
  {
    hide Act, Run, Step;
    Empties(Me(s, side));
    t, more := Moves(z, s, mvs, side, Recv(|Me(s, side).sock.rx|));
  }

  /** A byte with the number the receiver wants is sent and taken. */
  lemma {:induction false} Passes(z: System, s: System, mvs: seq<Move>, side: bool, b: Byte)
      returns (t: System, more: seq<Move>)
    requires s == Run(z, mvs) && Idle(Me(s, side)) && Usable(Me(s, !side)) && Me(s, !side).sock.rx == []
    requires Me(s, side).sock.sndNxt == Me(s, !side).sock.rcvNxt
    ensures t == Run(z, more) && Me(t, side).given == Me(s, side).given + [b]
    ensures Me(t, !side).sock.rx == [b] && Me(t, !side).got == Me(s, !side).got && !Me(t, !side).sock.reset
  {
    hide Act, Run, Step, Sending;
    var x, y := Me(s, side), Me(s, !side);
    GoesOut(x, [b]);
    t, more := Moves(z, s, mvs, side, Send([b]));
    t, more := Moves(z, t, more, side, NextChunk);
    var m := DataSeg(Me(t, side).sock, x.sock.sndNxt, [b]);
    assert m in From(t, side);
    Fresh1(y, m);
    t, more := Moves(z, t, more, !side, Deliver(m));
  }

  /** A byte goes out in the place of one that was given before it. */
  lemma {:induction false} WrongByte(z: System, s: System, mvs: seq<Move>, side: bool, n: nat)
      returns (t: System, more: seq<Move>)
    requires s == Run(z, mvs) && Rewound(Me(s, side), Me(s, !side), n, n) && n < |Me(s, side).given|
    ensures t == Run(z, more) && !Prefix(Me(t, !side).got, Me(t, side).given)
  {
    hide Run, Me;
    var given := Me(s, side).given;
    var b: Byte := if given[n] == 0 then 1 else 0;
    t, more := ReadsAll(z, s, mvs, !side);
    t, more := Passes(z, t, more, side, b);
    t, more := ReadsAll(z, t, more, !side);
    OtherByte(given, n, b);
  }

  lemma {:induction false} OtherByte(given: seq<Byte>, n: nat, b: Byte)
    requires n < |given| && given[n] != b
    ensures !Prefix(given[..n] + [b], given + [b])
  {
    var got, all := given[..n] + [b], given + [b];
    assert got[n] == b && all[..n + 1][n] == given[n];
  }

  /** In every run: if a send is abandoned, with its numbers given back, while both ends are open, and it was
      the first, the run can go on so that the other end's program has read what is no beginning of what was
      sent. */
  lemma {:induction false} AbandonBreaks(issA: Word, issB: Word, mvs: seq<Move>, side: bool) returns (more: seq<Move>)
    requires var s := Run(Start(issA, issB), mvs);
             Sane(Me(s, side)) && Me(s, side).flight != [] && Usable(Me(s, side)) && Usable(Me(s, !side))
    ensures var t := Run(Start(issA, issB), mvs + [At(side, GiveUp(true))] + more);
            !Prefix(Me(t, !side).got, Me(t, side).given)
  {
    hide Act, Run, Step, Rewound, Flow, Prefix, Sane;
    var z := Start(issA, issB);
    var s := Run(z, mvs);
    RunGood(issA, issB, mvs);
    var x, y := Me(s, side), Me(s, !side);
    var t, all := Moves(z, s, mvs, side, GiveUp(true));
    InOrder(s, side);
    GivesUp(x, y);
    var low, high := |x.stream| - |x.flight|, |y.got| + |y.sock.rx|;
    var r, rest := t, [];
    NoMoves(t);
    if low < high { r, rest := CatchUp(t, t, [], side, low, high); }
    RewoundIs(Me(r, side), Me(r, !side), high);
    r, more := WrongByte(t, r, rest, side, high);
    RunOn(z, all, more);
  }

  lemma {:induction false} NoMoves(s: System)
    ensures Run(s, []) == s
  {
  }

  lemma {:induction false} InOrder(s: System, side: bool)
    requires Good(s) && Sane(Me(s, side))
    ensures SenderOk(Me(s, side)) && ReceiverOk(Me(s, side), Me(s, !side))
  {
    hide SenderOk, ReceiverOk, Sane;
  }

  lemma {:induction false} RewoundIs(x: End, y: End, n: nat)
    requires Rewound(x, y, n, n)
    ensures n < |x.given|
  {
  }
}
