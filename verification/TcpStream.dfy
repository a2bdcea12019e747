/** Two sockets over a network that loses, duplicates and reorders, and the streams between
    them over every run. */
module TcpStream {
  import opened Bits
  import opened TcpSeq
  import opened Tcp

  /** An endpoint: its socket, its program's calls, and what has passed through them.
      `given` is what the program has passed to `tcp_send`, `stream` the part of it that has
      been put into segments, `flight` the last chunk while it is not acknowledged, `todo`
      the rest of the present call's buffer; `got` is what `tcp_recv` has returned. `una` is
      the position of the socket's `sndUna`. */
  datatype End = End(
    sock: Sock, iss: Word, begun: bool, synced: bool, una: nat,
    given: seq<Byte>, stream: seq<Byte>, flight: seq<Byte>, todo: seq<Byte>, closing: bool, gaveUp: bool,
    got: seq<Byte>)

  /** What can happen at an endpoint. */
  datatype Event =
    | Connect                      // tcp_connect sends its SYN
    | Resend                       // another try of whatever is waiting
    | ConnectFails                 // tcp_connect gives up
    | Send(buf: seq<Byte>)         // a program calls tcp_send
    | NextChunk                    // the loop of tcp_send takes the next chunk
    | Acked                        // it finds its chunk acknowledged
    | GiveUp(rolledBack: bool)     // it does not
    | Recv(max: nat)               // tcp_recv copies out of the buffer
    | Close                        // tcp_close sends its FIN
    | Release                      // the socket is free
    | Deliver(m: Seg)              // a segment arrives

  datatype Effect = Effect(end: End, out: seq<Seg>)

  /** The position after the last one used. */
  function Nxt(x: End): nat
  {
    (if x.begun then 1 else 0) + |x.stream| + (if x.closing then 1 else 0)
  }

  /** The position wanted next. */
  function Rcv(y: End): nat
  {
    1 + |y.got| + |y.sock.rx| + (if y.sock.finSeen then 1 else 0)
  }

  /** A segment arrives: history follows the socket. */
  function OnArrival(e: End, m: Seg): Effect
  {
    if e.sock.state == LISTEN then
      var r := OnListen(e.sock, m, e.iss);
      if r.out == [] then Effect(e, []) else Effect(e.(sock := r.sock, begun := true, synced := true), r.out)
    else
      var r := OnSegment(e.sock, m);
      Effect(
        e.(sock := r.sock,
           una := e.una + Minus(r.sock.sndUna, e.sock.sndUna),
           synced := e.synced || (e.sock.state == SYN_SENT && r.sock.state == ESTABLISHED)),
        r.out)
  }

  function Act(e: End, ev: Event): Effect
  {
    match ev
    case Connect =>
      if e.sock.state == CLOSED && !e.begun then
        var s := Connecting(e.sock, e.iss);
        Effect(e.(sock := s, begun := true), [SynSeg(s, e.iss)])
      else Effect(e, [])
    case Resend =>
      if e.sock.state == SYN_SENT then Effect(e, [SynSeg(e.sock, e.iss)])
      else if e.flight != [] then Effect(e, [DataSeg(e.sock, Back(e), e.flight)])
      else Effect(e, [])
    case ConnectFails =>
      if e.sock.state == SYN_SENT then Effect(e.(sock := e.sock.(state := CLOSED)), []) else Effect(e, [])
    case Send(buf) =>
      if Open(e.sock) && !e.sock.reset && e.flight == [] && e.todo == [] then
          Effect(e.(given := e.given + buf, todo := buf), []) else Effect(e, [])
    case NextChunk =>
      if e.flight == [] && e.todo != [] then
        var chunk := e.todo[..Min(|e.todo|, MSS)];
        var t := e.(sock := Sending(e.sock, chunk), stream := e.stream + chunk, flight := chunk,
            todo := e.todo[|chunk|..]);
        Effect(t, [DataSeg(t.sock, e.sock.sndNxt, chunk)])
      else Effect(e, [])
    case Acked =>
      if e.flight != [] && SeqGe(e.sock.sndUna, Plus(Back(e), |e.flight|)) then Effect(e.(flight := []), [])
          else Effect(e, [])
    case GiveUp(rolledBack) =>
      if e.flight != [] then
        Effect(e.(sock := if rolledBack then e.sock.(sndNxt := Back(e))
            else e.sock, flight := [], todo := [], gaveUp := true), [])
      else Effect(e, [])
    case Recv(max) =>
      if e.sock.reset then Effect(e, []) else
        var n := Min(|e.sock.rx|, max);
        Effect(e.(sock := e.sock.(rx := e.sock.rx[n..]), got := e.got + e.sock.rx[..n]), [])
    case Close =>
      if Open(e.sock) && e.flight == [] && e.todo == [] then
        Effect(e.(sock := Closing(e.sock), closing := true), [FinSeg(e.sock)])
      else Effect(e, [])
    case Release =>
      if e.flight == [] && e.todo == [] && !Open(e.sock) then Effect(e.(sock := e.sock.(state := FREE)), [])
          else Effect(e, [])
    case Deliver(m) => OnArrival(e, m)
  }

  /** The number of the chunk in flight: the `seq` that `tcp_send` remembers. */
  function Back(e: End): Word
  {
    Minus(e.sock.sndNxt, |e.flight| % SPACE)
  }

  // ---- the system ----

  /** Both ends and every segment each has ever sent. The network delivers any of them, any
      number of times, in any order, or never. */
  datatype System = System(a: End, b: End, fromA: set<Seg>, fromB: set<Seg>)

  datatype Move = AtA(ev: Event) | AtB(ev: Event)

  function Sent(out: seq<Seg>): set<Seg>
  {
    set m | m in out
  }

  predicate Possible(s: System, mv: Move)
  {
    match mv
    case AtA(ev) => ev.Deliver? ==> ev.m in s.fromB
    case AtB(ev) => ev.Deliver? ==> ev.m in s.fromA
  }

  function Step(s: System, mv: Move): System
  {
    if !Possible(s, mv) then s else
      match mv
      case AtA(ev) => var f := Act(s.a, ev); s.(a := f.end, fromA := s.fromA + Sent(f.out))
      case AtB(ev) => var f := Act(s.b, ev); s.(b := f.end, fromB := s.fromB + Sent(f.out))
  }

  function Run(s: System, mvs: seq<Move>): System
    decreases |mvs|
  {
    if mvs == [] then s else Step(Run(s, mvs[..|mvs| - 1]), mvs[|mvs| - 1])
  }

  function Fresh(state: Status, iss: Word): End
  {
    End(Sock(state, 0, 0, 0, [], false, false), iss, false, false, 0, [], [], [], [], false, false, [])
  }

  /** A socket just opened and a listener, with whatever initial numbers. */
  function Start(issA: Word, issB: Word): System
  {
    System(Fresh(CLOSED, issA), Fresh(LISTEN, issB), {}, {})
  }

  // ---- what holds of the stream from x to y ----

  /** Nothing has been abandoned, and numbers do not repeat within the connection. */
  predicate Sane(x: End)
  {
    !x.gaveUp && |x.given| + 2 < SPACE
  }

  predicate Prefix(a: seq<Byte>, b: seq<Byte>)
  {
    |a| <= |b| && a == b[..|a|]
  }

  /** A segment that carries part of the stream, or its end, carries it where it belongs. */
  ghost predicate SegOk(x: End, m: Seg)
  {
    !m.rst
    && (m.syn ==> x.begun && !m.fin && m.data == [] && m.num == Pos(x.iss, 0))
    && (m.data != [] ==> !m.fin && exists k: nat :: Carries(x, m, k))
    && (m.fin ==> x.closing && m.num == Pos(x.iss, 1 + |x.stream|))
  }

  predicate Carries(x: End, m: Seg, k: nat)
  {
    k + |m.data| <= |x.stream| && m.num == Pos(x.iss, 1 + k) && m.data == x.stream[k..k + |m.data|]
  }

  /** A segment acknowledges no more than has been received. */
  ghost predicate AckOk(x: End, y: End, m: Seg)
  {
    m.acks ==> y.synced && exists a: nat :: 1 <= a <= Rcv(y) && m.ack == Pos(x.iss, a)
  }

  /** What has been put into segments and what has not make up what was given. */
  predicate Parts(given: seq<Byte>, stream: seq<Byte>, flight: seq<Byte>, todo: seq<Byte>)
  {
    given == stream + todo && |flight| <= |stream| && flight == stream[|stream| - |flight|..]
  }

  /** The sender's numbers are those of its positions. */
  ghost predicate SenderOk(x: End)
  {
    Parts(x.given, x.stream, x.flight, x.todo)
    && |x.given| == |x.stream| + |x.todo| && |x.flight| <= MSS && |x.flight| <= |x.stream|
    && x.una <= Nxt(x)
    && (x.begun ==> x.sock.sndNxt == Pos(x.iss, Nxt(x)) && x.sock.sndUna == Pos(x.iss, x.una))
    && (!x.begun ==> x.una == 0 && (x.sock.state == CLOSED || x.sock.state == LISTEN || x.sock.state == FREE))
    && (x.una == 0 ==> x.given == [] && !x.closing && !Open(x.sock) && x.sock.state != FIN_WAIT)
    && (x.una > 0 && !x.closing ==> x.una + |x.flight| >= Nxt(x))
    && (x.closing ==> x.una + 1 >= Nxt(x) && x.flight == [] && x.todo == [] && !Open(x.sock))
    && (x.sock.state == SYN_SENT ==> x.una == 0)
    && (x.sock.state == SYN_RCVD ==> x.una == 0)
    && (x.sock.state == LISTEN ==> !x.begun)
  }

  /** An end that sends segments with acknowledgements of its own accord. */
  predicate Speaking(y: End)
  {
    Open(y.sock) || y.sock.state == SYN_RCVD || y.sock.state == FIN_WAIT || y.flight != [] || y.todo != []
  }

  /** The receiver has a beginning of the stream, and its number is that of the position
      after it. */
  ghost predicate ReceiverOk(x: End, y: End)
  {
    Prefix(y.got + y.sock.rx, x.stream)
    && (y.sock.finSeen ==> x.closing && y.got + y.sock.rx == x.stream)
    && (!y.synced ==> y.got == [] && y.sock.rx == [] && !y.sock.finSeen && x.una == 0)
    && (y.synced ==> x.begun && y.sock.rcvNxt == Pos(x.iss, Rcv(y)) && x.una <= Rcv(y) <= Nxt(x))
    && (y.sock.state == SYN_SENT || y.sock.state == LISTEN || !y.begun ==> !y.synced)
    && (Speaking(y) ==> y.synced)
    && (y.sock.state == SYN_SENT ==> y.begun)
    && !y.sock.reset && |y.sock.rx| <= RXBUF
  }

  ghost predicate Flow(x: End, y: End, fromX: set<Seg>, fromY: set<Seg>)
  {
    SenderOk(x) && ReceiverOk(x, y)
    && (forall m :: m in fromX ==> SegOk(x, m))
    && (forall m :: m in fromY ==> AckOk(x, y, m) && !m.rst)
  }

  // ---- a segment arrives at the receiver ----

  /** A chunk that carries what comes next continues the prefix. */
  lemma {:induction false} PrefixGrows(got: seq<Byte>, rx: seq<Byte>, data: seq<Byte>, take: nat, stream: seq<Byte>)
    requires Prefix(got + rx, stream) && take <= |data|
    requires |got| + |rx| + |data| <= |stream| && data == stream[|got| + |rx|..|got| + |rx| + |data|]
    ensures Prefix(got + (rx + data[..take]), stream)
  {
    var n := |got| + |rx|;
    assert data[..take] == stream[n..n + take];
    assert got + (rx + data[..take]) == stream[..n] + stream[n..n + take] == stream[..n + take];
  }

  /** A data segment with the number wanted next carries what comes next. */
  lemma {:induction false} DataNext(x: End, y: End, m: Seg)
    requires Sane(x) && SenderOk(x) && ReceiverOk(x, y) && SegOk(x, m) && m.data != []
    ensures y.synced && x.una != 0
    ensures y.sock.rcvNxt == m.num ==> !y.sock.finSeen && Carries(x, m, |y.got| + |y.sock.rx|)
  {
    hide Parts, Pos;
    var k: nat :| Carries(x, m, k);
    assert x.una != 0;
    if y.sock.rcvNxt == m.num {
      assert Rcv(y) < SPACE && 1 + k < SPACE;
      PosUnique(x.iss, Rcv(y), 1 + k);
    }
  }

  /** Where the data of a segment goes. */
  lemma {:induction false} DataArrives(x: End, y: End, m: Seg)
    requires Sane(x) && SenderOk(x) && ReceiverOk(x, y) && SegOk(x, m) && m.data != [] && y.sock.rcvNxt == m.num
    ensures ReceiverOk(x, y.(sock := TakeData(y.sock, m).sock)) && Rcv(y.(sock := TakeData(y.sock, m).sock)) >= Rcv(y)
  {
    DataNext(x, y, m);
    hide Pos, Plus, SegOk, SenderOk;
    var take := Min(|m.data|, RXBUF - |y.sock.rx|);
    PrefixGrows(y.got, y.sock.rx, m.data, take, x.stream);
    hide Prefix;
    PosPlus(x.iss, Rcv(y), take);
    var z := y.(sock := TakeData(y.sock, m).sock);
    assert z.sock.rx == y.sock.rx + m.data[..take];
    assert Rcv(z) == Rcv(y) + take <= 1 + |x.stream|;
  }

  /** A reply acknowledges what has been received by then. */
  ghost predicate RepliesOk(x: End, y: End, out: seq<Seg>)
  {
    forall m :: m in out ==> AckOk(x, y, m) && SegPlain(m)
  }

  /** A segment that carries nothing of its sender's stream. */
  predicate SegPlain(m: Seg)
  {
    !m.rst && !m.fin && m.data == []
  }

  lemma {:induction false} AckSegOk(x: End, y: End)
    requires ReceiverOk(x, y) && y.synced
    ensures AckOk(x, y, AckSeg(y.sock)) && SegPlain(AckSeg(y.sock))
  {
    hide Pos;
    assert 1 <= Rcv(y) && AckSeg(y.sock).ack == Pos(x.iss, Rcv(y));
  }

  lemma {:induction false} TakeDataOk(x: End, y: End, m: Seg)
    requires Sane(x) && SenderOk(x) && ReceiverOk(x, y) && SegOk(x, m)
    ensures var d := TakeData(y.sock, m); var z := y.(sock := d.sock);
            ReceiverOk(x, z) && Rcv(z) >= Rcv(y) && RepliesOk(x, z, d.out)
            && z.sock == y.sock.(rx := z.sock.rx, rcvNxt := z.sock.rcvNxt)
  {
    hide Pos, Plus, ReceiverOk, SenderOk, SegOk, AckOk, Rcv;
    if m.data != [] {
      DataNext(x, y, m);
      if m.num == y.sock.rcvNxt { DataArrives(x, y, m); }
      AckSegOk(x, y.(sock := TakeData(y.sock, m).sock));
    }
  }

  lemma {:induction false} TakeFinOk(x: End, y: End, m: Seg)
    requires Sane(x) && SenderOk(x) && ReceiverOk(x, y) && SegOk(x, m)
    ensures var f := TakeFin(y.sock, m); var z := y.(sock := f.sock);
            ReceiverOk(x, z) && Rcv(z) >= Rcv(y) && RepliesOk(x, z, f.out)
            && z.sock == y.sock.(rcvNxt := z.sock.rcvNxt, finSeen := z.sock.finSeen, state := z.sock.state)
  {
    hide Parts, Pos, Plus;
    if m.fin && SeqGe(y.sock.rcvNxt, m.num) {
      var z := y.(sock := TakeFin(y.sock, m).sock);
      assert x.una != 0;
      PosPlus(x.iss, 1 + |x.stream|, 1);
      assert Rcv(y) >= 1 + |x.stream|;
      assert y.got + y.sock.rx == x.stream;
      assert z.sock.rcvNxt == Pos(x.iss, Rcv(z));
      assert ReceiverOk(x, z);
      AckSegOk(x, z);
    }
  }

  lemma {:induction false} RepliesStay(x: End, y: End, z: End, out: seq<Seg>)
    requires RepliesOk(x, y, out) && Rcv(z) >= Rcv(y) && (y.synced ==> z.synced)
    ensures RepliesOk(x, z, out)
  {
    hide Pos, Rcv, SegPlain;
    forall m | m in out ensures AckOk(x, z, m) && SegPlain(m) {
      AckStays(x, y, z, m);
    }
  }

  lemma {:induction false} AckStays(x: End, y: End, z: End, m: Seg)
    requires AckOk(x, y, m) && Rcv(z) >= Rcv(y) && (y.synced ==> z.synced)
    ensures AckOk(x, z, m)
  {
    hide Pos, Rcv;
    if m.acks {
      var a: nat :| 1 <= a <= Rcv(y) && m.ack == Pos(x.iss, a);
      assert a <= Rcv(z);
    }
  }

  lemma {:induction false} TakeRestOk(x: End, y: End, m: Seg)
    requires Sane(x) && SenderOk(x) && ReceiverOk(x, y) && SegOk(x, m)
    ensures var r := TakeRest(y.sock, m); var z := y.(sock := r.sock);
            ReceiverOk(x, z) && Rcv(z) >= Rcv(y) && RepliesOk(x, z, r.out)
  {
    hide SenderOk, SegOk, TakeData, TakeFin, RepliesOk, Pos;
    var y1 := y.(sock := TakeAck(y.sock, m));
    assert ReceiverOk(x, y1);
    TakeDataOk(x, y1, m);
    var d := TakeData(y1.sock, m);
    var y2 := y1.(sock := d.sock);
    TakeFinOk(x, y2, m);
    var f := TakeFin(y2.sock, m);
    var z := y2.(sock := f.sock);
    RepliesStay(x, y2, z, d.out);
    assert z == y.(sock := TakeRest(y.sock, m).sock);
    RepliesJoin(x, z, d.out, f.out);
  }

  lemma {:induction false} RepliesJoin(x: End, y: End, a: seq<Seg>, b: seq<Seg>)
    requires RepliesOk(x, y, a) && RepliesOk(x, y, b)
    ensures RepliesOk(x, y, a + b)
  {
    hide AckOk, SegPlain;
  }

  /** What arrival at the receiver keeps. */
  ghost predicate Arrived(x: End, y: End, f: Effect)
  {
    ReceiverOk(x, f.end) && Rcv(f.end) >= Rcv(y) && (y.synced ==> f.end.synced)
    && forall r :: r in f.out ==> AckOk(x, f.end, r) && !r.rst
  }

  lemma {:induction false} ListenArrives(x: End, y: End, m: Seg)
    requires ReceiverOk(x, y) && SegOk(x, m) && y.sock.state == LISTEN
    ensures Arrived(x, y, OnArrival(y, m))
  {
    hide Parts, Pos, Plus;
    if m.syn && !m.acks {
      var f := OnArrival(y, m);
      PosPlus(x.iss, 0, 1);
      assert ReceiverOk(x, f.end);
      SynAckOk(x, f.end, f.out[0]);
    }
  }

  lemma {:induction false} SynSentArrives(x: End, y: End, m: Seg)
    requires ReceiverOk(x, y) && SegOk(x, m) && y.sock.state == SYN_SENT
    ensures Arrived(x, y, OnArrival(y, m))
  {
    hide Pos, Plus;
    if m.syn && m.acks && m.ack == y.sock.sndNxt {
      var f := OnArrival(y, m);
      PosPlus(x.iss, 0, 1);
      assert ReceiverOk(x, f.end);
      AckSegOk(x, f.end);
    }
  }

  lemma {:induction false} SynRcvdArrives(x: End, y: End, m: Seg)
    requires Sane(x) && SenderOk(x) && ReceiverOk(x, y) && SegOk(x, m) && y.sock.state == SYN_RCVD && m.acks
    requires m.ack == y.sock.sndNxt
    ensures Arrived(x, y, OnArrival(y, m))
  {
    hide Pos, Plus, TakeRest, SenderOk, AckOk;
    var y1 := y.(sock := y.sock.(sndUna := m.ack, state := ESTABLISHED));
    assert ReceiverOk(x, y1);
    RestArrives(x, y1, m);
    ReceiverUna(x, y1.(sock := TakeRest(y1.sock, m).sock), OnArrival(y, m).end);
  }

  lemma {:induction false} OpenArrives(x: End, y: End, m: Seg)
    requires Sane(x) && SenderOk(x) && ReceiverOk(x, y) && SegOk(x, m)
    requires y.sock.state != LISTEN && y.sock.state != FREE && y.sock.state != SYN_SENT && y.sock.state != SYN_RCVD
    ensures Arrived(x, y, OnArrival(y, m))
  {
    hide Pos, Plus, TakeRest, SenderOk, AckOk, ReceiverOk;
    RestArrives(x, y, m);
    ReceiverUna(x, y.(sock := TakeRest(y.sock, m).sock), OnArrival(y, m).end);
  }

  /** What a segment of the stream does to the end it reaches. */
  lemma {:induction false} ArrivesOk(x: End, y: End, m: Seg)
    requires Sane(x) && SenderOk(x) && ReceiverOk(x, y) && SegOk(x, m)
    ensures Arrived(x, y, OnArrival(y, m))
  {
    hide Pos, Plus, TakeRest, SenderOk, AckOk, ReceiverOk;
    if y.sock.state == LISTEN {
      ListenArrives(x, y, m);
    } else if y.sock.state == SYN_SENT {
      SynSentArrives(x, y, m);
    } else if y.sock.state == FREE {
      ReceiverUna(x, y, OnArrival(y, m).end);
    } else if y.sock.state == SYN_RCVD {
      if m.acks && m.ack == y.sock.sndNxt {
        SynRcvdArrives(x, y, m);
      } else {
        ReceiverUna(x, y, OnArrival(y, m).end);
      }
    } else {
      OpenArrives(x, y, m);
    }
  }

  /** What the receiver has received does not depend on how much of its own is acknowledged. */
  lemma {:induction false} ReceiverUna(x: End, y: End, z: End)
    requires ReceiverOk(x, y) && z == y.(una := z.una)
    ensures ReceiverOk(x, z) && Rcv(z) == Rcv(y)
    ensures forall m :: AckOk(x, y, m) <==> AckOk(x, z, m)
  {
    hide Pos;
  }

  lemma {:induction false} SynAckOk(x: End, y: End, m: Seg)
    requires ReceiverOk(x, y) && y.synced && m.ack == y.sock.rcvNxt
    ensures AckOk(x, y, m)
  {
    hide Pos;
    assert 1 <= Rcv(y) && m.ack == Pos(x.iss, Rcv(y));
  }

  lemma {:induction false} RestArrives(x: End, y: End, m: Seg)
    requires Sane(x) && SenderOk(x) && ReceiverOk(x, y) && SegOk(x, m)
    ensures var r := TakeRest(y.sock, m); var z := y.(sock := r.sock);
            ReceiverOk(x, z) && Rcv(z) >= Rcv(y)
            && forall n :: n in r.out ==> AckOk(x, z, n) && !n.rst
  {
    hide SenderOk, SegOk, ReceiverOk, TakeRest, AckOk;
    TakeRestOk(x, y, m);
  }

  // ---- a segment arrives at the sender ----

  /** What a segment from the other end keeps of the sender's side. */
  ghost predicate Heard(x: End, y: End, f: Effect)
  {
    SenderOk(f.end) && ReceiverOk(f.end, y) && SameStream(x, f.end)
    && forall r :: r in f.out ==> SegOk(f.end, r)
  }

  ghost predicate SameStream(x: End, z: End)
  {
    z.iss == x.iss && z.given == x.given && z.stream == x.stream && z.flight == x.flight && z.todo == x.todo
    && z.closing == x.closing && z.gaveUp == x.gaveUp && (x.begun ==> z.begun)
  }

  /** An acknowledgement moves `una` to the position it names, or not at all. */
  lemma {:induction false} AckHeard(x: End, y: End, m: Seg)
    requires Sane(x) && SenderOk(x) && ReceiverOk(x, y) && AckOk(x, y, m) && x.sock.state != SYN_SENT
    requires x.sock.state != SYN_RCVD
    ensures var t := TakeAck(x.sock, m); var z := x.(sock := t, una := x.una + Minus(t.sndUna, x.sock.sndUna));
            SenderOk(z) && ReceiverOk(z, y)
  {
    hide Parts, Pos, Minus, SeqGe, Prefix;
    assert Minus(x.sock.sndUna, x.sock.sndUna) == 0 by { SelfMinus(x.sock.sndUna); }
    if m.acks {
      var a: nat :| 1 <= a <= Rcv(y) && m.ack == Pos(x.iss, a);
      assert x.una <= Nxt(x) && Nxt(x) - x.una <= MSS + 1;
      AckIff(x.iss, x.una, Nxt(x), a);
    }
  }

  lemma {:induction false} SelfMinus(w: Word)
    ensures Minus(w, w) == 0
  {
  }

  /** Data and FIN of the other stream leave the sender's numbers alone. */
  lemma {:induction false} RestHeard(s: Sock, m: Seg)
    ensures var r := TakeRest(s, m); var t := TakeAck(s, m);
            r.sock.sndNxt == s.sndNxt && r.sock.sndUna == t.sndUna && r.sock.reset == s.reset
            && (r.sock.state == s.state || (s.state == ESTABLISHED && r.sock.state == CLOSE_WAIT)
                || (s.state == FIN_WAIT && r.sock.state == CLOSED))
            && forall n :: n in r.out ==> SegPlain(n) && !n.syn
  {
    hide Plus, SeqGe;
  }

  /** The sender's side reads only these parts of the socket. */
  lemma {:induction false} SenderReads(x: End, z: End)
    requires SenderOk(x) && z == x.(sock := z.sock, synced := z.synced) && z.sock.sndNxt == x.sock.sndNxt
    requires z.sock.sndUna == x.sock.sndUna
    requires z.sock.state == x.sock.state || (x.sock.state == ESTABLISHED && z.sock.state == CLOSE_WAIT)
        || (x.sock.state == FIN_WAIT && z.sock.state == CLOSED)
    ensures SenderOk(z) && forall y :: ReceiverOk(x, y) ==> ReceiverOk(z, y)
  {
    hide Parts, Pos, Prefix;
  }

  lemma {:induction false} OpenHeard(x: End, y: End, m: Seg)
    requires Sane(x) && SenderOk(x) && ReceiverOk(x, y) && AckOk(x, y, m)
    requires x.sock.state != SYN_SENT && x.sock.state != SYN_RCVD
    ensures var r := TakeRest(x.sock, m);
            Heard(x, y, Effect(x.(sock := r.sock, una := x.una + Minus(r.sock.sndUna, x.sock.sndUna)), r.out))
  {
    hide Pos, Minus, SenderOk, ReceiverOk, TakeRest, AckOk;
    var r := TakeRest(x.sock, m);
    RestHeard(x.sock, m);
    AckHeard(x, y, m);
    var t := TakeAck(x.sock, m);
    var z := x.(sock := t, una := x.una + Minus(t.sndUna, x.sock.sndUna));
    SenderReads(z, z.(sock := r.sock));
  }

  lemma {:induction false} ListenHeard(x: End, y: End, m: Seg)
    requires Sane(x) && SenderOk(x) && ReceiverOk(x, y) && x.sock.state == LISTEN
    ensures Heard(x, y, OnArrival(x, m))
  {
    hide Parts, Prefix;
  }

  lemma {:induction false} SynSentHeard(x: End, y: End, m: Seg)
    requires Sane(x) && SenderOk(x) && ReceiverOk(x, y) && AckOk(x, y, m) && x.sock.state == SYN_SENT && !m.rst
    ensures Heard(x, y, OnArrival(x, m))
  {
    hide Parts, Prefix, Pos, Minus, Plus;
    SelfMinus(x.sock.sndUna);
    if m.syn && m.acks && m.ack == x.sock.sndNxt {
      PosMinus(x.iss, 1, 0);
    }
  }

  /** Before anything is acknowledged nothing has been sent but the SYN. */
  lemma {:induction false} NothingYet(x: End)
    requires SenderOk(x) && x.una == 0
    ensures x.stream == [] && x.todo == [] && x.flight == [] && !x.closing && Nxt(x) == if x.begun then 1 else 0
  {
    hide Parts, Pos;
    assert |x.given| == |x.stream| + |x.todo|;
  }

  /** The acknowledgement that completes the passive side's handshake. */
  lemma {:induction false} SynRcvdHeard(x: End, y: End, m: Seg)
    requires Sane(x) && SenderOk(x) && ReceiverOk(x, y) && AckOk(x, y, m) && x.sock.state == SYN_RCVD && m.acks
    requires m.ack == x.sock.sndNxt
    ensures var z := x.(sock := x.sock.(sndUna := m.ack, state := ESTABLISHED), una := 1);
            SenderOk(z) && ReceiverOk(z, y)
    ensures x.una == 0 && m.ack == Pos(x.iss, 1) && x.sock.sndUna == Pos(x.iss, 0)
  {
    hide Parts, Prefix, Pos;
    assert x.begun && x.una == 0;
    NothingYet(x);
    var z := x.(sock := x.sock.(sndUna := m.ack, state := ESTABLISHED), una := 1);
    assert Nxt(z) == 1;
    assert z.given == z.stream + z.todo;
    assert SenderOk(z);
  }

  /** The same segment's acknowledgement changes nothing more. */
  lemma {:induction false} AckTwice(s: Sock, m: Seg)
    requires s.sndUna == m.ack
    ensures TakeAck(s, m) == s
  {
  }

  lemma {:induction false} SynRcvdRest(x: End, y: End, m: Seg)
    requires Sane(x) && SenderOk(x) && ReceiverOk(x, y) && AckOk(x, y, m) && x.sock.state == SYN_RCVD && m.acks
    requires m.ack == x.sock.sndNxt && !m.rst
    ensures Heard(x, y, OnArrival(x, m))
  {
    hide Prefix, Pos, Minus, SenderOk, ReceiverOk, TakeRest, AckOk, Plus, SeqGe;
    SynRcvdHeard(x, y, m);
    PosMinus(x.iss, 1, 0);
    var z := x.(sock := x.sock.(sndUna := m.ack, state := ESTABLISHED), una := 1);
    AckTwice(z.sock, m);
    RestHeard(z.sock, m);
    var r := TakeRest(z.sock, m);
    SenderReads(z, z.(sock := r.sock));
    assert OnArrival(x, m) == Effect(z.(sock := r.sock), r.out);
  }

  lemma {:induction false} HeardOk(x: End, y: End, m: Seg)
    requires Sane(x) && SenderOk(x) && ReceiverOk(x, y) && AckOk(x, y, m) && !m.rst
    ensures Heard(x, y, OnArrival(x, m))
  {
    hide Prefix, Pos, Minus, SenderOk, ReceiverOk, TakeRest, AckOk;
    SelfMinus(x.sock.sndUna);
    if x.sock.state == LISTEN {
      ListenHeard(x, y, m);
    } else if x.sock.state == SYN_SENT {
      SynSentHeard(x, y, m);
    } else if x.sock.state == SYN_RCVD {
      if m.acks && m.ack == x.sock.sndNxt { SynRcvdRest(x, y, m); }
    } else if x.sock.state != FREE {
      OpenHeard(x, y, m);
    }
  }

  // ---- the sender's program acts ----

  /** What the sender's own calls keep. */
  ghost predicate Acted(x: End, y: End, f: Effect)
  {
    SenderOk(f.end) && ReceiverOk(f.end, y)
    && (forall m :: SegOk(x, m) ==> SegOk(f.end, m))
    && (forall r :: r in f.out ==> SegOk(f.end, r))
  }

  lemma {:induction false} BackIs(x: End)
    requires SenderOk(x) && x.begun
    ensures Back(x) == Pos(x.iss, Nxt(x) - |x.flight|)
    ensures Plus(Back(x), |x.flight|) == x.sock.sndNxt
  {
    hide Parts;
    var n := Nxt(x) - |x.flight|;
    assert |x.flight| % SPACE == |x.flight|;
    assert Pos(x.iss, n) == Minus(Pos(x.iss, Nxt(x)), |x.flight|) by { BackMod(x.iss, Nxt(x), |x.flight|); }
    PosPlus(x.iss, n, |x.flight|);
  }

  lemma {:induction false} BackMod(iss: Word, n: nat, k: nat)
    requires k <= n && k < SPACE
    ensures Minus(Pos(iss, n), k) == Pos(iss, n - k)
  {
    var q := (iss + n) / SPACE;
    assert Pos(iss, n) - k == (iss + n - k) - q * SPACE;
    ShiftMod(iss + n - k, -q);
  }

  lemma {:induction false} ConnectOk(x: End, y: End)
    requires Sane(x) && SenderOk(x) && ReceiverOk(x, y)
    ensures Acted(x, y, Act(x, Connect))
  {
    hide Parts, Prefix, Carries;
    SegsStay(x, Act(x, Connect).end);
  }

  /** A segment stays in its place while the stream grows behind it. */
  lemma {:induction false} StreamGrows(x: End, z: End, m: Seg)
    requires SegOk(x, m) && z.iss == x.iss && (x.begun ==> z.begun) && Prefix(x.stream, z.stream)
    requires z.stream == x.stream || !x.closing
    requires x.closing ==> z.closing
    ensures SegOk(z, m)
  {
    hide Pos;
    if m.data != [] {
      var k: nat :| Carries(x, m, k);
      SliceOfPrefix(x.stream, z.stream, k, k + |m.data|);
      assert Carries(z, m, k);
    }
  }

  lemma {:induction false} SliceOfPrefix(a: seq<Byte>, b: seq<Byte>, i: nat, j: nat)
    requires Prefix(a, b) && i <= j <= |a|
    ensures a[i..j] == b[i..j]
  {
    assert a[i..j] == b[..|a|][i..j] == b[i..j];
  }

  lemma {:induction false} SegsStay(x: End, z: End)
    requires z.iss == x.iss && (x.begun ==> z.begun) && z.stream == x.stream && (x.closing ==> z.closing)
    ensures forall m :: SegOk(x, m) ==> SegOk(z, m)
  {
    hide SegOk;
    forall m | SegOk(x, m) ensures SegOk(z, m) { StreamGrows(x, z, m); }
  }

  /** The chunk in flight belongs at the end of the stream. */
  lemma {:induction false} FlightOk(x: End, m: Seg)
    requires SenderOk(x) && x.flight != [] && m == DataSeg(x.sock, Back(x), x.flight)
    ensures SegOk(x, m)
  {
    assert x.una != 0;
    hide Pos;
    BackIs(x);
    assert Carries(x, m, |x.stream| - |x.flight|);
  }

  lemma {:induction false} ResendOk(x: End, y: End)
    requires Sane(x) && SenderOk(x) && ReceiverOk(x, y)
    ensures Acted(x, y, Act(x, Resend))
  {
    hide Parts, Prefix, Carries, Minus, Plus;
    if x.sock.state != SYN_SENT && x.flight != [] {
      FlightOk(x, DataSeg(x.sock, Back(x), x.flight));
    }
  }

  lemma {:induction false} NextChunkSender(x: End)
    requires Sane(x) && SenderOk(x) && x.flight == [] && x.todo != []
    ensures var z := Act(x, NextChunk).end;
            SenderOk(z) && !x.closing && Prefix(x.stream, z.stream) && x.sock.sndNxt == Back(z) && Nxt(z) >= Nxt(x)
  {
    hide Pos, Plus;
    assert x.una != 0;
    var chunk := x.todo[..Min(|x.todo|, MSS)];
    var z := Act(x, NextChunk).end;
    PosPlus(x.iss, Nxt(x), |chunk|);
    assert x.stream + x.todo == z.stream + z.todo;
    assert SenderOk(z);
    BackIs(z);
  }

  lemma {:induction false} PrefixTrans(a: seq<Byte>, b: seq<Byte>, c: seq<Byte>)
    requires Prefix(a, b) && Prefix(b, c)
    ensures Prefix(a, c)
  {
    assert a == b[..|a|] == c[..|b|][..|a|] == c[..|a|];
  }

  /** A receiver of part of a stream is a receiver of part of a longer one. */
  lemma {:induction false} LongerStream(x: End, z: End, y: End)
    requires ReceiverOk(x, y) && Prefix(x.stream, z.stream) && !x.closing
    requires z.iss == x.iss && z.begun == x.begun && z.una == x.una && Nxt(x) <= Nxt(z)
    ensures ReceiverOk(z, y)
  {
    hide Pos;
    PrefixTrans(y.got + y.sock.rx, x.stream, z.stream);
    hide Prefix;
  }

  lemma {:induction false} NextChunkOk(x: End, y: End)
    requires Sane(x) && SenderOk(x) && ReceiverOk(x, y) && x.flight == [] && x.todo != []
    ensures Acted(x, y, Act(x, NextChunk))
  {
    hide SenderOk, SegOk, ReceiverOk, Pos, Plus, Minus, Back, Prefix, Nxt;
    NextChunkSender(x);
    var f := Act(x, NextChunk);
    FlightOk(f.end, f.out[0]);
    forall m | SegOk(x, m) ensures SegOk(f.end, m) { StreamGrows(x, f.end, m); }
    LongerStream(x, f.end, y);
  }

  lemma {:induction false} PartsNone(given: seq<Byte>, stream: seq<Byte>, flight: seq<Byte>, todo: seq<Byte>)
    requires Parts(given, stream, flight, todo)
    ensures Parts(given, stream, [], todo)
  {
    assert stream[|stream|..] == [];
  }

  lemma {:induction false} AckedOk(x: End, y: End)
    requires Sane(x) && SenderOk(x) && ReceiverOk(x, y)
    ensures Acted(x, y, Act(x, Acked))
  {
    hide Parts, Prefix, Carries, Pos, Plus, Minus, SeqGe, Back;
    SegsStay(x, Act(x, Acked).end);
    PartsNone(x.given, x.stream, x.flight, x.todo);
    if x.flight != [] {
      assert x.una != 0;
      BackIs(x);
      GeIff(x.iss, x.una, Nxt(x));
    }
  }

  lemma {:induction false} CloseOk(x: End, y: End)
    requires Sane(x) && SenderOk(x) && ReceiverOk(x, y)
    ensures Acted(x, y, Act(x, Close))
  {
    hide Parts, Prefix, Carries, Pos, Plus;
    PosPlus(x.iss, Nxt(x), 1);
    SegsStay(x, Act(x, Close).end);
  }

  /** A program passes a buffer to `tcp_send`. */
  lemma {:induction false} SendOk(x: End, y: End, buf: seq<Byte>)
    requires SenderOk(x) && ReceiverOk(x, y)
    ensures Acted(x, y, Act(x, Send(buf)))
  {
    hide Prefix, SegOk, Pos;
    var z := Act(x, Send(buf)).end;
    SegsStay(x, z);
    if z != x {
      assert x.todo == [] && x.stream + [] == x.stream;
      assert z.given == z.stream + z.todo;
      assert SenderOk(z);
    }
  }

  /** Reading from the buffer does not touch the sender's side. */
  lemma {:induction false} RecvOk(x: End, y: End, max: nat)
    requires SenderOk(x) && ReceiverOk(x, y)
    ensures Acted(x, y, Act(x, Recv(max)))
  {
    hide SenderOk, ReceiverOk, SegOk;
    var z := Act(x, Recv(max)).end;
    SegsStay(x, z);
    SenderFields(x, z, y);
  }

  lemma {:induction false} SenderFields(x: End, z: End, y: End)
    requires SenderOk(x) && ReceiverOk(x, y)
    requires z == x.(sock := z.sock, got := z.got)
    requires z.sock.sndNxt == x.sock.sndNxt && z.sock.sndUna == x.sock.sndUna && z.sock.state == x.sock.state
    ensures SenderOk(z) && ReceiverOk(z, y)
  {
    hide Parts, Prefix, Pos;
  }

  lemma {:induction false} SenderDrop(x: End, z: End, y: End)
    requires SenderOk(x) && ReceiverOk(x, y)
    requires z == x.(sock := x.sock.(state := z.sock.state)) && (z.sock.state == CLOSED || z.sock.state == FREE)
    ensures SenderOk(z) && ReceiverOk(z, y)
  {
    hide Parts, Prefix, Pos;
  }

  lemma {:induction false} ConnectFailsOk(x: End, y: End)
    requires SenderOk(x) && ReceiverOk(x, y)
    ensures Acted(x, y, Act(x, ConnectFails))
  {
    hide SenderOk, ReceiverOk, SegOk;
    var z := Act(x, ConnectFails).end;
    SegsStay(x, z);
    if z != x { SenderDrop(x, z, y); }
  }

  lemma {:induction false} ReleaseOk(x: End, y: End)
    requires SenderOk(x) && ReceiverOk(x, y)
    ensures Acted(x, y, Act(x, Release))
  {
    hide SenderOk, ReceiverOk, SegOk;
    var z := Act(x, Release).end;
    SegsStay(x, z);
    if z != x { SenderDrop(x, z, y); }
  }

  lemma {:induction false} ActsOk(x: End, y: End, ev: Event)
    requires SenderOk(x) && ReceiverOk(x, y) && !ev.Deliver? && Sane(x) && !Act(x, ev).end.gaveUp
    ensures Acted(x, y, Act(x, ev))
  {
    hide SenderOk, ReceiverOk, SegOk;
    match ev
    case Connect => ConnectOk(x, y);
    case Resend => ResendOk(x, y);
    case NextChunk => if x.flight == [] && x.todo != [] { NextChunkOk(x, y); }
    case Acked => AckedOk(x, y);
    case GiveUp(_) =>
    case Close => CloseOk(x, y);
    case ConnectFails => ConnectFailsOk(x, y);
    case Send(buf) => SendOk(x, y, buf);
    case Recv(max) => RecvOk(x, y, max);
    case Release => ReleaseOk(x, y);
  }

  // ---- the receiver's program acts ----

  lemma {:induction false} Moved(got: seq<Byte>, rx: seq<Byte>, n: nat)
    requires n <= |rx|
    ensures (got + rx[..n]) + rx[n..] == got + rx
  {
    assert rx == rx[..n] + rx[n..];
  }

  /** What has been received is the same wherever it is kept. */
  lemma {:induction false} ReceiverSame(x: End, y: End, z: End)
    requires ReceiverOk(x, y) && z == y.(got := z.got, sock := y.sock.(rx := z.sock.rx))
    requires z.got + z.sock.rx == y.got + y.sock.rx && |z.sock.rx| <= |y.sock.rx|
    ensures ReceiverOk(x, z) && Rcv(z) == Rcv(y)
  {
    hide Pos, Prefix;
    assert |z.got| + |z.sock.rx| == |z.got + z.sock.rx| == |y.got + y.sock.rx| == |y.got| + |y.sock.rx|;
    if !y.synced { assert |z.got| == 0 && |z.sock.rx| == 0; }
  }

  lemma {:induction false} ReceiverRecv(x: End, y: End, max: nat)
    requires ReceiverOk(x, y)
    ensures Arrived(x, y, Act(y, Recv(max)))
  {
    hide ReceiverOk, AckOk, Rcv;
    var f := Act(y, Recv(max));
    Moved(y.got, y.sock.rx, Min(|y.sock.rx|, max));
    ReceiverSame(x, y, f.end);
  }

  lemma {:induction false} ReceiverKept(x: End, y: End, ev: Event)
    requires ReceiverOk(x, y) && !ev.Deliver? && !ev.Recv?
    ensures ReceiverOk(x, Act(y, ev).end) && Rcv(Act(y, ev).end) == Rcv(y)
    ensures y.synced == Act(y, ev).end.synced && y.sock.rx == Act(y, ev).end.sock.rx
    ensures forall r :: r in Act(y, ev).out ==> !r.rst
  {
    hide Pos, Plus, Minus, SeqGe, Back, Prefix;
  }

  lemma {:induction false} ReceiverActs(x: End, y: End, ev: Event)
    requires ReceiverOk(x, y) && !ev.Deliver?
    ensures Arrived(x, y, Act(y, ev))
  {
    hide ReceiverOk, AckOk, Act, Rcv;
    if ev.Recv? {
      ReceiverRecv(x, y, ev.max);
    } else {
      ReceiverKept(x, y, ev);
      forall r | r in Act(y, ev).out ensures AckOk(x, Act(y, ev).end, r) { OutOk(x, y, ev, r); }
    }
  }

  /** Whatever a receiver sends acknowledges what it has. */
  lemma {:induction false} OutOk(x: End, y: End, ev: Event, r: Seg)
    requires ReceiverOk(x, y) && !ev.Deliver? && !ev.Recv? && r in Act(y, ev).out && ReceiverOk(x, Act(y, ev).end)
    ensures AckOk(x, Act(y, ev).end, r)
  {
    hide Pos, Plus, Minus, SeqGe, Back, Prefix;
    if r.acks {
      assert y.synced && Act(y, ev).end.synced;
      assert r.ack == y.sock.rcvNxt == Pos(x.iss, Rcv(y));
      assert Rcv(Act(y, ev).end) == Rcv(y);
    }
  }

  // ---- every run ----

  ghost predicate FlowOk(x: End, y: End, fromX: set<Seg>, fromY: set<Seg>)
  {
    Sane(x) ==> Flow(x, y, fromX, fromY)
  }

  ghost predicate Good(s: System)
  {
    FlowOk(s.a, s.b, s.fromA, s.fromB) && FlowOk(s.b, s.a, s.fromB, s.fromA)
  }

  /** Nothing an end does makes it sane again. */
  lemma {:induction false} SaneBefore(x: End, ev: Event)
    requires Sane(Act(x, ev).end)
    ensures Sane(x)
  {
    hide Minus, Plus, SeqGe;
  }

  /** An event at the sending end. */
  lemma {:induction false} FlowSender(x: End, y: End, fromX: set<Seg>, fromY: set<Seg>, ev: Event)
    requires FlowOk(x, y, fromX, fromY) && (ev.Deliver? ==> ev.m in fromY)
    ensures FlowOk(Act(x, ev).end, y, fromX + Sent(Act(x, ev).out), fromY)
  {
    hide SenderOk, ReceiverOk, SegOk, Sane, Rcv;
    var f := Act(x, ev);
    if Sane(f.end) {
      SaneBefore(x, ev);
      if ev.Deliver? {
        HeardOk(x, y, ev.m);
        SegsStay(x, f.end);
      } else {
        assert !f.end.gaveUp by { SaneNot(f.end); }
        ActsOk(x, y, ev);
      }
      assert f.end.iss == x.iss by { SameIss(x, ev); }
      forall m | m in fromY ensures AckOk(f.end, y, m) { assert AckOk(x, y, m); }
    }
  }

  lemma {:induction false} SaneNot(x: End)
    requires Sane(x)
    ensures !x.gaveUp
  {
  }

  lemma {:induction false} SameIss(x: End, ev: Event)
    ensures Act(x, ev).end.iss == x.iss
  {
    hide Minus, Plus, SeqGe;
  }

  /** An event at the receiving end. */
  lemma {:induction false} FlowReceiver(x: End, y: End, fromX: set<Seg>, fromY: set<Seg>, ev: Event)
    requires FlowOk(x, y, fromX, fromY) && (ev.Deliver? ==> ev.m in fromX)
    ensures FlowOk(x, Act(y, ev).end, fromX, fromY + Sent(Act(y, ev).out))
  {
    hide SenderOk, ReceiverOk, SegOk, Sane, Rcv;
    hide AckOk;
    var f := Act(y, ev);
    if Sane(x) {
      if ev.Deliver? { ArrivesOk(x, y, ev.m); } else { ReceiverActs(x, y, ev); }
      forall m | m in fromY ensures AckOk(x, f.end, m) { AckStays(x, y, f.end, m); }
    }
  }

  lemma {:induction false} StepGood(s: System, mv: Move)
    requires Good(s)
    ensures Good(Step(s, mv))
  {
    hide FlowOk, Act;
    if Possible(s, mv) {
      match mv
      case AtA(ev) =>
        FlowSender(s.a, s.b, s.fromA, s.fromB, ev);
        FlowReceiver(s.b, s.a, s.fromB, s.fromA, ev);
      case AtB(ev) =>
        FlowSender(s.b, s.a, s.fromB, s.fromA, ev);
        FlowReceiver(s.a, s.b, s.fromA, s.fromB, ev);
    }
  }

  lemma {:induction false} RunGood(issA: Word, issB: Word, mvs: seq<Move>)
    ensures Good(Run(Start(issA, issB), mvs))
    decreases |mvs|
  {
    hide Step;
    if mvs == [] {
      StartGood(issA, issB);
    } else {
      RunGood(issA, issB, mvs[..|mvs| - 1]);
      StepGood(Run(Start(issA, issB), mvs[..|mvs| - 1]), mvs[|mvs| - 1]);
    }
  }

  lemma {:induction false} StartGood(issA: Word, issB: Word)
    ensures Good(Start(issA, issB))
  {
  }

  /** What the receiving program knows: it has a beginning of what was sent; when it is told
      that this was all, it was; and what a finished `tcp_send` sent has arrived. */
  ghost predicate Faithful(x: End, y: End)
  {
    Prefix(y.got, x.given)
    && (y.sock.finSeen && y.sock.rx == [] ==> x.closing && y.got == x.given)
    && (Open(x.sock) && x.flight == [] && x.todo == [] ==> y.got + y.sock.rx == x.given)
    && !y.sock.reset
  }

  lemma {:induction false} FlowFaithful(x: End, y: End, fromX: set<Seg>, fromY: set<Seg>)
    requires Flow(x, y, fromX, fromY)
    ensures Faithful(x, y)
  {
    hide Pos, SegOk, AckOk;
    var all := y.got + y.sock.rx;
    assert y.got == all[..|y.got|] == x.stream[..|y.got|] == x.given[..|y.got|];
    if y.sock.finSeen && y.sock.rx == [] { assert y.got == all == x.stream == x.given; }
    if Open(x.sock) && x.flight == [] && x.todo == [] {
      assert x.una >= Nxt(x) && Rcv(y) == Nxt(x);
      assert x.stream == x.given;
    }
  }

  /** Over every run, from any initial sequence numbers and whatever the network loses,
      repeats or reorders: as long as no send from an end has been abandoned and it has been
      given fewer than 2^32 - 2 bytes, the other end receives its stream faithfully. */
  lemma {:induction false} StreamSafety(issA: Word, issB: Word, mvs: seq<Move>)
    ensures var s := Run(Start(issA, issB), mvs);
            (Sane(s.a) ==> Faithful(s.a, s.b)) && (Sane(s.b) ==> Faithful(s.b, s.a))
  {
    hide Flow, Faithful, Run, Sane;
    RunGood(issA, issB, mvs);
    var s := Run(Start(issA, issB), mvs);
    if Sane(s.a) { FlowFaithful(s.a, s.b, s.fromA, s.fromB); }
    if Sane(s.b) { FlowFaithful(s.b, s.a, s.fromB, s.fromA); }
  }
}
