/** A TCP socket as `tcp.c` keeps it, and what each call and each segment does to it. */
module Tcp {
  import opened Bits
  import opened TcpSeq

  const RXBUF: nat := 4096
  const MSS: nat := 1400

  datatype Status = FREE | LISTEN | SYN_SENT | SYN_RCVD | ESTABLISHED | CLOSE_WAIT | FIN_WAIT | CLOSED

  datatype Seg = Seg(syn: bool, fin: bool, rst: bool, acks: bool, num: Word, ack: Word, data: seq<Byte>)

  datatype Sock = Sock(state: Status, sndNxt: Word, sndUna: Word, rcvNxt: Word, rx: seq<Byte>, finSeen: bool,
    reset: bool)

  /** A socket and the segments it sends in reply. */
  datatype Reply = Reply(sock: Sock, out: seq<Seg>)

  /** A segment without data that says what is expected next. */
  function AckSeg(s: Sock): Seg
  {
    Seg(false, false, false, true, s.sndNxt, s.rcvNxt, [])
  }

  function Min(a: nat, b: nat): nat
  {
    if a < b then a else b
  }

  /** `tcp_input` on a listener's port: a new connection answers the SYN. `iss` is the
      counter it reads. */
  function OnListen(s: Sock, m: Seg, iss: Word): Reply
  {
    if m.syn && !m.acks then
      var c := Sock(SYN_RCVD, Plus(iss, 1), iss, Plus(m.num, 1), [], false, false);
      Reply(c, [Seg(true, false, false, true, iss, c.rcvNxt, [])])
    else Reply(s, [])
  }

  /** The acknowledgement in a segment. */
  function TakeAck(s: Sock, m: Seg): Sock
  {
    if m.acks && SeqGe(m.ack, s.sndUna) && SeqGe(s.sndNxt, m.ack) then s.(sndUna := m.ack) else s
  }

  /** The data of a segment: what fits is taken if it is what comes next, and either way
      what is wanted next is acknowledged. */
  function TakeData(s: Sock, m: Seg): Reply
  {
    if m.data == [] then Reply(s, []) else
      var take := if |s.rx| <= RXBUF then Min(|m.data|, RXBUF - |s.rx|) else 0;
      var t := if m.num == s.rcvNxt then s.(rx := s.rx + m.data[..take], rcvNxt := Plus(s.rcvNxt, take)) else s;
      Reply(t, [AckSeg(t)])
  }

  /** The FIN in a segment. */
  function TakeFin(s: Sock, m: Seg): Reply
  {
    if m.fin && SeqGe(s.rcvNxt, m.num) then
      var t := s.(rcvNxt := Plus(m.num, |m.data| + 1), finSeen := true);
      Reply(t.(state := if t.state == ESTABLISHED then CLOSE_WAIT else if t.state == FIN_WAIT then CLOSED else t.state),
          [AckSeg(t)])
    else Reply(s, [])
  }

  function TakeRest(s: Sock, m: Seg): Reply
  {
    var d := TakeData(TakeAck(s, m), m);
    var f := TakeFin(d.sock, m);
    Reply(f.sock, d.out + f.out)
  }

  /** `tcp_input` for the connection a segment belongs to. */
  function OnSegment(s: Sock, m: Seg): Reply
  {
    if s.state == FREE || s.state == LISTEN then Reply(s, [])
    else if m.rst then Reply(s.(reset := true, state := CLOSED), [])
    else if s.state == SYN_SENT then
      if !m.syn || !m.acks || m.ack != s.sndNxt then Reply(s, []) else
        var t := s.(sndUna := m.ack, rcvNxt := Plus(m.num, 1), state := ESTABLISHED);
        Reply(t, [AckSeg(t)])
    else if s.state == SYN_RCVD then
      if !m.acks || m.ack != s.sndNxt then Reply(s, []) else TakeRest(s.(sndUna := m.ack, state := ESTABLISHED), m)
    else TakeRest(s, m)
  }

  /** `tcp_connect` up to the first SYN. */
  function Connecting(s: Sock, iss: Word): Sock
  {
    s.(sndUna := iss, sndNxt := Plus(iss, 1), rcvNxt := 0, state := SYN_SENT)
  }

  function SynSeg(s: Sock, iss: Word): Seg
  {
    Seg(true, false, false, false, iss, s.rcvNxt, [])
  }

  predicate Open(s: Sock)
  {
    s.state == ESTABLISHED || s.state == CLOSE_WAIT
  }

  /** A chunk goes out: its numbers are used up before it is acknowledged. */
  function Sending(s: Sock, chunk: seq<Byte>): Sock
  {
    s.(sndNxt := Plus(s.sndNxt, |chunk|))
  }

  function DataSeg(s: Sock, seqNo: Word, chunk: seq<Byte>): Seg
  {
    Seg(false, false, false, true, seqNo, s.rcvNxt, chunk)
  }

  /** `tcp_close` of an open connection. */
  function FinSeg(s: Sock): Seg
  {
    Seg(false, true, false, true, s.sndNxt, s.rcvNxt, [])
  }

  function Closing(s: Sock): Sock
  {
    s.(sndNxt := Plus(s.sndNxt, 1), state := if s.state == CLOSE_WAIT then CLOSED else FIN_WAIT)
  }
}
