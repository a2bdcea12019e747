/** The ring of a pipe: one page, head and tail chasing each other, one place always empty. */
module PipeRing {
  import opened Bits
  import opened Seqs

  const SIZE: nat := 4096

  /** `pipe_t` */
  datatype Pipe = Pipe(buf: seq<Byte>, head: nat, tail: nat, readers: int, writers: int, used: bool)

  ghost predicate RingOk(p: Pipe)
  {
    |p.buf| == SIZE && p.head < SIZE && p.tail < SIZE
  }

  /** `pipe_bytes` */
  function Fill(p: Pipe): (n: nat)
    ensures n < SIZE
  {
    (p.head - p.tail) % SIZE
  }

  /** What is in the ring, oldest first. */
  function Contents(p: Pipe): (s: seq<Byte>)
    requires |p.buf| == SIZE
    ensures |s| == Fill(p)
  {
    seq(Fill(p), k requires 0 <= k => p.buf[(p.tail + k) % SIZE])
  }

  /** One byte in. */
  function Put(p: Pipe, b: Byte): (r: Pipe)
    requires RingOk(p)
    ensures RingOk(r)
  {
    p.(buf := p.buf[p.head := b], head := (p.head + 1) % SIZE)
  }

  /** One byte out. */
  function Drop(p: Pipe): (r: Pipe)
    requires RingOk(p)
    ensures RingOk(r)
  {
    p.(tail := (p.tail + 1) % SIZE)
  }

  /** Where the `k`-th byte is. */
  lemma {:induction false} Index(t: nat, k: nat)
    requires t < SIZE && k < SIZE
    ensures (t + k) % SIZE == if t + k < SIZE then t + k else t + k - SIZE
  {
  }

  lemma {:induction false} FillIs(p: Pipe)
    requires RingOk(p)
    ensures Fill(p) == if p.head >= p.tail then p.head - p.tail else p.head + SIZE - p.tail
  {
  }

  lemma {:induction false} PutIs(p: Pipe, b: Byte)
    requires RingOk(p) && Fill(p) < SIZE - 1
    ensures Contents(Put(p, b)) == Contents(p) + [b]
  {
    var q := Put(p, b);
    FillIs(p);
    FillIs(q);
    Index(p.head, 1);
    var n := Fill(p);
    assert Fill(q) == n + 1;
    var l, r := Contents(q), Contents(p) + [b];
    forall k | 0 <= k < n + 1 ensures l[k] == r[k] {
      Index(p.tail, k);
    }
  }

  lemma {:induction false} DropIs(p: Pipe)
    requires RingOk(p) && Fill(p) > 0
    ensures Contents(p) != [] && Contents(p)[0] == p.buf[p.tail] && Contents(Drop(p)) == Contents(p)[1..]
  {
    var q := Drop(p);
    FillIs(p);
    FillIs(q);
    Index(p.tail, 0);
    Index(p.tail, 1);
    var n := Fill(p);
    var l, r := Contents(q), Contents(p)[1..];
    forall k | 0 <= k < n - 1 ensures l[k] == r[k] {
      Index(p.tail, k + 1);
      Index(q.tail, k);
    }
  }

  lemma {:induction false} EmptyIf(p: Pipe)
    requires RingOk(p)
    ensures Fill(p) == 0 ==> Contents(p) == []
  {
  }

  lemma {:induction false} DropTail(p: Pipe)
    requires RingOk(p)
    ensures Drop(p) == p.(tail := Drop(p).tail)
  {
  }

  /** The copying loop of `file_read`. */
  method Take(p0: Pipe, len: nat) returns (p: Pipe, out: seq<Byte>)
    requires RingOk(p0)
    ensures RingOk(p) && p == p0.(tail := p.tail) && |out| <= len && out + Contents(p) == Contents(p0)
    ensures |out| == len || Contents(p) == []
  {
    hide Contents, Drop;
    p, out := p0, [];
    EmptyLeft(Contents(p));
    EmptyIf(p);
    while |out| < len && Fill(p) > 0
      invariant RingOk(p) && p == p0.(tail := p.tail) && |out| <= len && out + Contents(p) == Contents(p0)
      invariant Fill(p) == 0 ==> Contents(p) == []
      decreases len - |out|
    {
      DropIs(p);
      ghost var c := Contents(p);
      assert c == [c[0]] + c[1..];
      Assoc(out, [c[0]], c[1..]);
      DropTail(p);
      EmptyIf(Drop(p));
      out := out + [p.buf[p.tail]];
      p := Drop(p);
    }
  }

  /** The copying loop of `file_write`, until the ring is full. */
  method Fill_(p0: Pipe, buf: seq<Byte>, n0: nat) returns (p: Pipe, n: nat)
    requires RingOk(p0) && n0 <= |buf|
    ensures RingOk(p) && p == p0.(buf := p.buf, head := p.head) && n0 <= n <= |buf|
    ensures Contents(p) == Contents(p0) + buf[n0..n] && (n < |buf| ==> Fill(p) == SIZE - 1)
  {
    p, n := p0, n0;
    while n < |buf| && Fill(p) != SIZE - 1
      invariant RingOk(p) && p == p0.(buf := p.buf, head := p.head) && n0 <= n <= |buf|
      invariant Contents(p) == Contents(p0) + buf[n0..n]
      decreases |buf| - n
    {
      PutIs(p, buf[n]);
      assert buf[n0..n + 1] == buf[n0..n] + [buf[n]];
      p := Put(p, buf[n]);
      n := n + 1;
    }
  }
}
