/** A run in which a send is abandoned: the next send is reported as delivered and is not. */
module TcpAbandoned {
  import opened Bits
  import opened TcpSeq
  import opened Tcp
  import opened TcpStream

  /** The client's socket, established, with the given next and oldest numbers. */
  function Client(nxt: Word, una: Word): Sock
  {
    Sock(ESTABLISHED, nxt, una, 1, [], false, false)
  }

  function Server(rcv: Word): Sock
  {
    Sock(ESTABLISHED, 1, 1, rcv, [], false, false)
  }

  /** Three bytes in three sends. */
  const SYN: Seg := Seg(true, false, false, false, 0, 0, [])
  const SYNACK: Seg := Seg(true, false, false, true, 0, 1, [])
  const ACK: Seg := Seg(false, false, false, true, 1, 1, [])
  const FIRST: Seg := Seg(false, false, false, true, 1, 1, [97])
  const SECOND: Seg := Seg(false, false, false, true, 1, 1, [98])
  const ANSWER: Seg := Seg(false, false, false, true, 1, 2, [])
  const THIRD: Seg := Seg(false, false, false, true, 2, 1, [99])

  /** The client at each point, told by what has been given, put into segments, is in
      flight and is to do. */
  function A(nxt: Word, una: nat, given: seq<Byte>, stream: seq<Byte>, flight: seq<Byte>, todo: seq<Byte>,
      gaveUp: bool): End
    requires una < SPACE
  {
    End(Client(nxt, una), 0, true, true, una, given, stream, flight, todo, false, gaveUp, [])
  }

  /** The server at each point, told by what is in its buffer and what has been read. */
  function B(rcv: Word, rx: seq<Byte>, got: seq<Byte>): End
  {
    End(Server(rcv).(rx := rx), 0, true, true, 1, [], [], [], [], false, false, got)
  }

  /** One move more, at the client or the server. */
  lemma {:induction false} MoveA(s: System, mvs: seq<Move>, ev: Event, f: Effect) returns (t: System, more: seq<Move>)
    requires s == Run(Start(0, 0), mvs) && Act(s.a, ev) == f && (ev.Deliver? ==> ev.m in s.fromB)
    ensures t == Run(Start(0, 0), more) && t == System(f.end, s.b, s.fromA + Sent(f.out), s.fromB)
  {
    hide Act;
    t, more := Step(s, AtA(ev)), mvs + [AtA(ev)];
    assert more[..|more| - 1] == mvs;
  }

  lemma {:induction false} MoveB(s: System, mvs: seq<Move>, ev: Event, f: Effect) returns (t: System, more: seq<Move>)
    requires s == Run(Start(0, 0), mvs) && Act(s.b, ev) == f && (ev.Deliver? ==> ev.m in s.fromA)
    ensures t == Run(Start(0, 0), more) && t == System(s.a, f.end, s.fromA, s.fromB + Sent(f.out))
  {
    hide Act;
    t, more := Step(s, AtB(ev)), mvs + [AtB(ev)];
    assert more[..|more| - 1] == mvs;
  }

  // ---- what each event does ----

  function Asked(): End
  {
    Fresh(CLOSED, 0).(sock := Sock(SYN_SENT, 1, 0, 0, [], false, false), begun := true)
  }

  function Answered(): End
  {
    Fresh(LISTEN, 0).(sock := Sock(SYN_RCVD, 1, 0, 1, [], false, false), begun := true, synced := true)
  }

  lemma {:induction false} Asks()
    ensures Act(Fresh(CLOSED, 0), Connect) == Effect(Asked(), [SYN])
  {
  }

  lemma {:induction false} Answers()
    ensures Act(Fresh(LISTEN, 0), Deliver(SYN)) == Effect(Answered(), [SYNACK])
  {
  }

  lemma {:induction false} Confirms()
    ensures Act(Asked(), Deliver(SYNACK)) == Effect(A(1, 1, [], [], [], [], false), [ACK])
  {
  }

  lemma {:induction false} Accepts()
    ensures Act(Answered(), Deliver(ACK)) == Effect(B(1, [], []), [])
  {
  }

  lemma {:induction false} Gives(nxt: Word, given: seq<Byte>, x: Byte, gaveUp: bool)
    ensures Act(A(nxt, nxt, given, given, [], [], gaveUp), Send([x]))
        == Effect(A(nxt, nxt, given + [x], given, [], [x], gaveUp), [])
  {
  }

  lemma {:induction false} Sends(nxt: Word, given: seq<Byte>, x: Byte, gaveUp: bool)
    requires nxt + 1 < SPACE
    ensures Act(A(nxt, nxt, given + [x], given, [], [x], gaveUp), NextChunk)
         == Effect(A(nxt + 1, nxt, given + [x], given + [x], [x], [], gaveUp),
             [Seg(false, false, false, true, nxt, 1, [x])])
  {
    assert [x][..1] == [x] && [x][1..] == [];
  }

  lemma {:induction false} Receives(rcv: Word, rx: seq<Byte>, x: Byte)
    requires rcv + 1 < SPACE && |rx| < 2
    ensures Act(B(rcv, rx, []), Deliver(Seg(false, false, false, true, rcv, 1, [x])))
         == Effect(B(rcv + 1, rx + [x], []), [Seg(false, false, false, true, 1, rcv + 1, [])])
  {
    assert [x][..1] == [x];
  }

  lemma {:induction false} Abandons()
    ensures Act(A(2, 1, [97], [97], [97], [], false), GiveUp(true)) == Effect(A(1, 1, [97], [97], [], [], true), [])
  {
  }

  lemma {:induction false} Ignores()
    ensures Act(B(2, [97], []), Deliver(SECOND)) == Effect(B(2, [97], []), [ANSWER])
  {
  }

  lemma {:induction false} Believes()
    ensures Act(A(2, 1, [97, 98], [97, 98], [98], [], true), Deliver(ANSWER))
        == Effect(A(2, 2, [97, 98], [97, 98], [98], [], true), [])
    ensures Act(A(2, 2, [97, 98], [97, 98], [98], [], true), Acked)
        == Effect(A(2, 2, [97, 98], [97, 98], [], [], true), [])
  {
  }

  lemma {:induction false} Reads()
    ensures Act(B(3, [97, 99], []), Recv(2)) == Effect(B(3, [], [97, 99]), [])
  {
  }

  // ---- the run ----

  lemma {:induction false} Handshake() returns (s: System, mvs: seq<Move>)
    ensures s == Run(Start(0, 0), mvs) && s.a == A(1, 1, [], [], [], [], false) && s.b == B(1, [], [])
  {
    hide Act, Step, A, B, Asked, Answered, Fresh;
    s, mvs := Start(0, 0), [];
    Asks();
    s, mvs := MoveA(s, mvs, Connect, Effect(Asked(), [SYN]));
    Answers();
    s, mvs := MoveB(s, mvs, Deliver(SYN), Effect(Answered(), [SYNACK]));
    Confirms();
    s, mvs := MoveA(s, mvs, Deliver(SYNACK), Effect(A(1, 1, [], [], [], [], false), [ACK]));
    Accepts();
    s, mvs := MoveB(s, mvs, Deliver(ACK), Effect(B(1, [], []), []));
  }

  /** The client sends a byte; the segment is on its way. */
  lemma {:induction false} OneByte(s0: System, mvs0: seq<Move>, nxt: Word, given: seq<Byte>, x: Byte, gaveUp: bool)
      returns (s: System, mvs: seq<Move>)
    requires s0 == Run(Start(0, 0), mvs0) && s0.a == A(nxt, nxt, given, given, [], [], gaveUp) && nxt + 1 < SPACE
    ensures s == Run(Start(0, 0), mvs) && s.a == A(nxt + 1, nxt, given + [x], given + [x], [x], [], gaveUp)
    ensures s.b == s0.b
    ensures Seg(false, false, false, true, nxt, 1, [x]) in s.fromA
  {
    hide Act, Step, Run, A;
    Gives(nxt, given, x, gaveUp);
    s, mvs := MoveA(s0, mvs0, Send([x]), Effect(A(nxt, nxt, given + [x], given, [], [x], gaveUp), []));
    Sends(nxt, given, x, gaveUp);
    s, mvs := MoveA(s, mvs, NextChunk, Effect(A(nxt + 1, nxt, given + [x], given + [x], [x], [], gaveUp),
        [Seg(false, false, false, true, nxt, 1, [x])]));
  }

  /** The first byte arrives, its acknowledgement does not, and the send is abandoned. */
  lemma {:induction false} FirstLost() returns (s: System, mvs: seq<Move>)
    ensures s == Run(Start(0, 0), mvs) && s.a == A(1, 1, [97], [97], [], [], true) && s.b == B(2, [97], [])
  {
    hide Act, Step, Run, A, B;
    s, mvs := Handshake();
    s, mvs := OneByte(s, mvs, 1, [], 97, false);
    assert [] + [97] == [97];
    Receives(1, [], 97);
    s, mvs := MoveB(s, mvs, Deliver(FIRST), Effect(B(2, [97], []), [ANSWER]));
    Abandons();
    s, mvs := MoveA(s, mvs, GiveUp(true), Effect(A(1, 1, [97], [97], [], [], true), []));
  }

  /** The second byte gets the first one's number and the first one's acknowledgement. */
  lemma {:induction false} SecondTaken() returns (s: System, mvs: seq<Move>)
    ensures s == Run(Start(0, 0), mvs) && s.a == A(2, 2, [97, 98], [97, 98], [], [], true) && s.b == B(2, [97], [])
  {
    hide Act, Step, Run, A, B;
    s, mvs := FirstLost();
    s, mvs := OneByte(s, mvs, 1, [97], 98, true);
    assert [97] + [98] == [97, 98];
    Ignores();
    s, mvs := MoveB(s, mvs, Deliver(SECOND), Effect(B(2, [97], []), [ANSWER]));
    Believes();
    s, mvs := MoveA(s, mvs, Deliver(ANSWER), Effect(A(2, 2, [97, 98], [97, 98], [98], [], true), []));
    s, mvs := MoveA(s, mvs, Acked, Effect(A(2, 2, [97, 98], [97, 98], [], [], true), []));
  }

  /** The receiver gets the first and the third byte of what was sent: without the condition
      that no send is abandoned, what is received need not be a beginning of it. */
  lemma {:induction false} AbandonedSendBreaks() returns (mvs: seq<Move>)
    ensures var s := Run(Start(0, 0), mvs);
            s.a.given == [97, 98, 99] && s.b.got == [97, 99] && !Faithful(s.a, s.b) && !Sane(s.a)
  {
    hide Act, Step, Run;
    var s;
    s, mvs := SecondTaken();
    s, mvs := OneByte(s, mvs, 2, [97, 98], 99, true);
    assert [97, 98] + [99] == [97, 98, 99] && [97] + [99] == [97, 99];
    Receives(2, [97], 99);
    s, mvs := MoveB(s, mvs, Deliver(THIRD), Effect(B(3, [97, 99], []), [Seg(false, false, false, true, 1, 3, [])]));
    Reads();
    s, mvs := MoveB(s, mvs, Recv(2), Effect(B(3, [], [97, 99]), []));
    assert [97, 99][1] != [97, 98, 99][..2][1];
  }
}
