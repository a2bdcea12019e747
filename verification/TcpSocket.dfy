/** The socket record of `tcp.c` as its functions change it. The receive buffer is an array;
    segments handed to the network come back as results. */
module TcpSocket {
  import opened Bits
  import opened TcpSeq
  import opened Tcp
  import TcpStream

  class Socket {
    var state: Status
    var sndNxt: Word
    var sndUna: Word
    var rcvNxt: Word
    const rx: array<Byte>
    var rxlen: nat
    var finSeen: bool
    var reset: bool

    ghost predicate Valid()
      reads this
    {
      rx.Length == RXBUF && rxlen <= RXBUF
    }

    ghost function View(): Sock
      reads this, rx
      requires Valid()
    {
      Sock(state, sndNxt, sndUna, rcvNxt, rx[..rxlen], finSeen, reset)
    }

    /** `tcp_open` */
    constructor ()
      ensures Valid() && fresh(rx) && View() == Sock(CLOSED, 0, 0, 0, [], false, false)
    {
      state, sndNxt, sndUna, rcvNxt := CLOSED, 0, 0, 0;
      rx := new Byte[RXBUF];
      rxlen, finSeen, reset := 0, false, false;
    }

    /** A segment that says what is expected next. */
    method Acknowledge() returns (m: Seg)
      requires Valid()
      ensures m == AckSeg(View())
    {
      m := Seg(false, false, false, true, sndNxt, rcvNxt, []);
    }

    /** Copies what fits behind what is there. */
    method Append(data: seq<Byte>, take: nat)
      requires Valid() && take <= |data| && rxlen + take <= RXBUF
      modifies this`rxlen, rx
      ensures Valid() && rxlen == old(rxlen) + take && rx[..rxlen] == old(rx[..rxlen]) + data[..take]
    {
      for i := 0 to take
        invariant rxlen == old(rxlen) && rx[..rxlen + i] == old(rx[..rxlen]) + data[..i]
      {
        rx[rxlen + i] := data[i];
      }
      rxlen := rxlen + take;
    }

    method InputData(m: Seg) returns (out: seq<Seg>)
      requires Valid()
      modifies this`rxlen, this`rcvNxt, rx
      ensures Valid() && Reply(View(), out) == TakeData(old(View()), m)
    {
      out := [];
      if |m.data| != 0 {
        if m.num == rcvNxt {
          var room := RXBUF - rxlen;
          var take := if |m.data| < room then |m.data| else room;
          Append(m.data, take);
          rcvNxt := Plus(rcvNxt, take);
        }
        var a := Acknowledge();
        out := [a];
      }
    }

    method InputFin(m: Seg) returns (out: seq<Seg>)
      requires Valid()
      modifies this`rcvNxt, this`finSeen, this`state
      ensures Valid() && Reply(View(), out) == TakeFin(old(View()), m)
    {
      out := [];
      if m.fin && SeqGe(rcvNxt, m.num) {
        rcvNxt := Plus(m.num, |m.data| + 1);
        finSeen := true;
        var a := Acknowledge();
        out := [a];
        if state == ESTABLISHED { state := CLOSE_WAIT; } else if state == FIN_WAIT { state := CLOSED; }
      }
    }

    method InputRest(m: Seg) returns (out: seq<Seg>)
      requires Valid()
      modifies this, rx
      ensures Valid() && Reply(View(), out) == TakeRest(old(View()), m)
    {
      if m.acks {
        if SeqGe(m.ack, sndUna) && SeqGe(sndNxt, m.ack) { sndUna := m.ack; }
      }
      assert View() == TakeAck(old(View()), m);
      var d := InputData(m);
      var f := InputFin(m);
      out := d + f;
    }

    /** `tcp_input`, once the segment has been matched to its connection. */
    method Input(m: Seg) returns (out: seq<Seg>)
      requires Valid()
      modifies this, rx
      ensures Valid() && Reply(View(), out) == OnSegment(old(View()), m)
    {
      out := [];
      if state == FREE || state == LISTEN { return; }
      if m.rst {
        reset := true;
        state := CLOSED;
        return;
      }
      if state == SYN_SENT {
        if !m.syn || !m.acks { return; }
        if m.ack != sndNxt { return; }
        sndUna := m.ack;
        rcvNxt := Plus(m.num, 1);
        state := ESTABLISHED;
        var a := Acknowledge();
        return [a];
      }
      if state == SYN_RCVD {
        if !m.acks || m.ack != sndNxt { return; }
        sndUna := m.ack;
        state := ESTABLISHED;
        assert View() == old(View()).(sndUna := m.ack, state := ESTABLISHED);
      }
      out := InputRest(m);
    }

    /** `tcp_recv` when something is there: the first bytes go out and the rest move up. */
    method Take(max: nat) returns (buf: seq<Byte>)
      requires Valid()
      modifies this`rxlen, rx
      ensures Valid() && buf == old(rx[..rxlen])[..Min(old(rxlen), max)]
      ensures rx[..rxlen] == old(rx[..rxlen])[Min(old(rxlen), max)..]
    {
      var n := if rxlen < max then rxlen else max;
      ghost var was := rx[..];
      buf := rx[..n];
      assert buf == was[..rxlen][..n];
      for i := n to rxlen
        invariant rxlen == old(rxlen)
        invariant rx[..i - n] == was[n..i]
        invariant forall k :: i - n <= k < rx.Length ==> rx[k] == was[k]
      {
        assert rx[i] == was[i] && was[n..i] + [was[i]] == was[n..i + 1];
        ghost var done := rx[..i - n];
        rx[i - n] := rx[i];
        assert rx[..i - n + 1] == done + [was[i]];
      }
      rxlen := rxlen - n;
      assert was[n..old(rxlen)] == was[..old(rxlen)][n..];
    }

    /** One look of `tcp_recv`: bytes, or a reason there are none. `None` asks to wait. */
    method Recv(max: nat) returns (r: Received)
      requires Valid()
      modifies this`rxlen, rx
      ensures Valid()
      ensures match r
              case Bytes(buf) => |old(rx[..rxlen])| > 0 && !old(reset)
                  && buf == old(rx[..rxlen])[..Min(old(rxlen), max)]
                && View() == old(View()).(rx := old(rx[..rxlen])[Min(old(rxlen), max)..])
              case EndOfStream => old(View()).rx == [] && finSeen && !reset && View() == old(View())
              case Failed => reset && View() == old(View())
              case Wait => old(View()).rx == [] && !finSeen && !reset && View() == old(View())
    {
      if reset { return Failed; }
      if rxlen != 0 {
        var buf := Take(max);
        return Bytes(buf);
      }
      if finSeen { return EndOfStream; }
      return Wait;
    }

    /** `tcp_connect` up to its first SYN. */
    method StartConnect(iss: Word) returns (m: Seg)
      requires Valid()
      modifies this`sndUna, this`sndNxt, this`rcvNxt, this`state
      ensures Valid() && View() == Connecting(old(View()), iss) && m == SynSeg(View(), iss)
    {
      sndUna := iss;
      sndNxt := Plus(iss, 1);
      rcvNxt := 0;
      state := SYN_SENT;
      m := Seg(true, false, false, false, iss, rcvNxt, []);
    }

    /** One pass of the outer loop of `tcp_send` up to its first try. */
    method StartChunk(buf: seq<Byte>, sent: nat) returns (m: Seg, chunk: nat)
      requires Valid() && sent < |buf|
      modifies this`sndNxt
      ensures chunk == Min(|buf| - sent, MSS)
      ensures Valid() && View() == Sending(old(View()), buf[sent..sent + chunk])
      ensures m == DataSeg(View(), old(sndNxt), buf[sent..sent + chunk])
    {
      chunk := |buf| - sent;
      if chunk > MSS { chunk := MSS; }
      var num := sndNxt;
      sndNxt := Plus(num, chunk);
      m := Seg(false, false, false, true, num, rcvNxt, buf[sent..sent + chunk]);
    }

    /** The first half of `tcp_close` of a connection that is open. */
    method StartClose() returns (m: Seg)
      requires Valid() && Open(View())
      modifies this`sndNxt, this`state
      ensures Valid() && View() == Closing(old(View())) && m == FinSeg(old(View()))
    {
      m := Seg(false, true, false, true, sndNxt, rcvNxt, []);
      sndNxt := Plus(sndNxt, 1);
      state := if state == CLOSE_WAIT then CLOSED else FIN_WAIT;
    }
  }

  datatype Received = Bytes(buf: seq<Byte>) | EndOfStream | Failed | Wait
}
