/** Sequence numbers of 32 bits and the positions in a connection they stand for. */
module TcpSeq {

  const SPACE: nat := 0x1_0000_0000
  const HALF: nat := 0x8000_0000

  type Word = w: int | 0 <= w < SPACE

  /** `a - b` in `uint32_t`. */
  function Minus(a: Word, b: Word): Word
  {
    (a - b) % SPACE
  }

  /** `seq_ge`: `(int32_t)(a - b) >= 0`. */
  predicate SeqGe(a: Word, b: Word)
  {
    Minus(a, b) < HALF
  }

  function Plus(a: Word, n: nat): Word
  {
    (a + n) % SPACE
  }

  /** The number of position `n` of a connection whose SYN has the number `iss`. */
  function Pos(iss: Word, n: nat): Word
  {
    (iss + n) % SPACE
  }

  lemma {:induction false} ModUnique(x: int, y: int)
    requires x % SPACE == y % SPACE && x - y < SPACE && y - x < SPACE
    ensures x == y
  {
  }

  /** Positions less than 2^32 apart have different numbers. */
  lemma {:induction false} PosUnique(iss: Word, n: nat, m: nat)
    requires Pos(iss, n) == Pos(iss, m) && n < m + SPACE && m < n + SPACE
    ensures n == m
  {
    ModUnique(iss + n, iss + m);
  }

  lemma {:induction false} PosPlus(iss: Word, n: nat, k: nat)
    ensures Plus(Pos(iss, n), k) == Pos(iss, n + k)
  {
  }

  /** The distance between positions, as far as the numbers show it. */
  lemma {:induction false} PosMinus(iss: Word, n: nat, m: nat)
    ensures Minus(Pos(iss, n), Pos(iss, m)) == (n - m) % SPACE
  {
    var p, q := (iss + n) / SPACE, (iss + m) / SPACE;
    var x := Pos(iss, n) - Pos(iss, m);
    assert x == (n - m) + (q - p) * SPACE;
    ShiftMod(n - m, q - p);
  }

  lemma {:induction false} ShiftMod(x: int, k: int)
    ensures (x + k * SPACE) % SPACE == x % SPACE
  {
    var q, r := x / SPACE, x % SPACE;
    assert x + k * SPACE == (q + k) * SPACE + r;
  }

  /** Positions less than 2^31 apart compare as their numbers do. */
  lemma {:induction false} GeIff(iss: Word, n: nat, m: nat)
    requires n < m + HALF && m <= n + HALF
    ensures SeqGe(Pos(iss, n), Pos(iss, m)) <==> n >= m
  {
    PosMinus(iss, n, m);
  }

  /** The two comparisons of `tcp_input` accept an acknowledgement exactly when it lies
      between the oldest number not acknowledged and the next one, whatever number it is. */
  lemma {:induction false} AcceptIff(una: Word, nxt: Word, ack: Word)
    requires Minus(nxt, una) < HALF
    ensures SeqGe(ack, una) && SeqGe(nxt, ack) <==> Minus(ack, una) <= Minus(nxt, una)
  {
    var w, d := Minus(nxt, una), Minus(ack, una);
    assert Minus(nxt, ack) == (w - d) % SPACE by { Between(una, nxt, ack); }
  }

  lemma {:induction false} Between(una: Word, nxt: Word, ack: Word)
    ensures Minus(nxt, ack) == (Minus(nxt, una) - Minus(ack, una)) % SPACE
  {
    var p, q := (nxt - una) / SPACE, (ack - una) / SPACE;
    assert Minus(nxt, una) - Minus(ack, una) == (nxt - ack) + (q - p) * SPACE;
    ShiftMod(nxt - ack, q - p);
  }

  /** In a connection shorter than 2^32, an acknowledgement of something sent is accepted
      exactly when it does not go back. */
  lemma {:induction false} AckIff(iss: Word, una: nat, nxt: nat, a: nat)
    requires una <= nxt < SPACE && nxt - una < HALF && a <= nxt
    ensures SeqGe(Pos(iss, a), Pos(iss, una)) && SeqGe(Pos(iss, nxt), Pos(iss, a)) <==> una <= a
    ensures una <= a ==> Minus(Pos(iss, a), Pos(iss, una)) == a - una
  {
    hide Pos, Minus, SeqGe;
    PosMinus(iss, nxt, una);
    PosMinus(iss, a, una);
    assert (nxt - una) % SPACE == nxt - una;
    assert a < una ==> (a - una) % SPACE == a - una + SPACE;
    AcceptIff(Pos(iss, una), Pos(iss, nxt), Pos(iss, a));
  }
}
