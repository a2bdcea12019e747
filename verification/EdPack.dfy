/** Packing: from limbs that stray to the one representative below the prime, as bytes. */
module EdPack {
  import opened Bits
  import opened EdField
  import opened EdBounds
  import opened EdArith

  // ---- the prime in limbs ----

  function PrimeLimb(i: nat): int
  {
    if i == 0 then 0xffed else if i < 15 then 0xffff else 0x7fff
  }

  /** The first `n` limbs of the prime. */
  function PrimeLimbs(n: nat): (s: seq<int>)
    ensures |s| == n && forall i :: 0 <= i < n ==> s[i] == PrimeLimb(i)
  {
    seq(n, i requires 0 <= i => PrimeLimb(i))
  }

  /** Below the top limb the prime is a power of the base less 19. */
  lemma {:induction false} PrimeVal(n: nat)
    requires 1 <= n <= 15
    ensures Val(PrimeLimbs(n)) == BPow(n) - 19
  {
    hide Val;
    if n == 1 {
      assert PrimeLimbs(1) == [0xffed];
      OneLimb(0xffed);
      assert BPow(1) == BASE * BPow(0);
    } else {
      PrimeVal(n - 1);
      ValSnoc(PrimeLimbs(n), n - 1);
      assert PrimeLimbs(n)[..n - 1] == PrimeLimbs(n - 1) && PrimeLimbs(n)[..n] == PrimeLimbs(n);
      assert BPow(n) == BASE * BPow(n - 1);
    }
  }

  lemma {:induction false} OneLimb(x: int)
    ensures Val([x]) == x
  {
    assert [x][1..] == [];
  }

  lemma {:induction false} PrimeIs()
    ensures Val(PrimeLimbs(16)) == P
  {
    hide Val, BPow;
    PrimeVal(15);
    ValSnoc(PrimeLimbs(16), 15);
    assert PrimeLimbs(16)[..15] == PrimeLimbs(15) && PrimeLimbs(16)[..16] == PrimeLimbs(16);
    assert BPow(16) == BASE * BPow(15) by { Weigh(15); }
    Wraps();
  }

  lemma {:induction false} Weigh(k: nat)
    ensures BPow(k + 1) == BASE * BPow(k)
  {
  }

  // ---- subtracting it, with borrows ----

  /** The borrow a difference makes: `(x >> 16) & 1`. */
  function Borrow(x: int): int
  {
    x / BASE % 2
  }

  lemma {:induction false} BorrowIs(x: int)
    requires -BASE <= x < BASE
    ensures Borrow(x) == if x < 0 then 1 else 0
    ensures x % BASE == x + BASE * Borrow(x)
  {
  }

  /** Limb `i` of the difference before masking, and the borrows into it. */
  function Diff(t: seq<int>, i: nat): int
    requires i < |t|
    decreases i
  {
    t[i] - PrimeLimb(i) - if i == 0 then 0 else Borrow(Diff(t, i - 1))
  }

  lemma {:induction false} DiffBound(t: seq<int>, i: nat)
    requires Tidy(t, 0, 16) && i < 16
    ensures -BASE <= Diff(t, i) < BASE
    decreases i
  {
    if i > 0 {
      DiffBound(t, i - 1);
      BorrowIs(Diff(t, i - 1));
    }
  }

  /** The masked limbs below `n`. */
  function Masked(t: seq<int>, n: nat): (m: seq<int>)
    requires n <= |t|
    ensures |m| == n
  {
    seq(n, i requires 0 <= i < n => Diff(t, i) % BASE)
  }

  /** The limbs below `n` are the difference, and the last borrow is what it owes. */
  lemma {:induction false} MaskedVal(t: seq<int>, n: nat)
    requires Tidy(t, 0, 16) && 1 <= n <= 16
    ensures Val(Masked(t, n)) == Val(t[..n]) - Val(PrimeLimbs(n)) + BPow(n) * Borrow(Diff(t, n - 1))
    decreases n
  {
    hide Val, Borrow;
    var i := n - 1;
    DiffBound(t, i);
    BorrowIs(Diff(t, i));
    ValSnoc(t, i);
    var b := Borrow(Diff(t, i));
    Weigh(i);
    if n == 1 {
      assert Masked(t, 1) == [Diff(t, 0) % BASE] && PrimeLimbs(1) == [0xffed] && t[..1] == [t[0]];
      OneLimb(Diff(t, 0) % BASE);
      OneLimb(0xffed);
      OneLimb(t[0]);
      WeightZero();
    } else {
      MaskedVal(t, n - 1);
      ValSnoc(Masked(t, n), i);
      ValSnoc(PrimeLimbs(n), i);
      assert Masked(t, n)[..i] == Masked(t, i) && Masked(t, n)[..n] == Masked(t, n);
      assert PrimeLimbs(n)[..i] == PrimeLimbs(i) && PrimeLimbs(n)[..n] == PrimeLimbs(n);
      Borrowing(BPow(i), Diff(t, i), t[i], PrimeLimb(i), Borrow(Diff(t, i - 1)), b);
    }
  }

  lemma {:induction false} Borrowing(w: int, d: int, x: int, p: int, c: int, b: int)
    requires d == x - p - c
    ensures w * (d + BASE * b) == w * x - w * p - w * c + (BASE * w) * b
  {
    assert w * (d + BASE * b) == w * d + w * (BASE * b);
    assert w * d == w * x - w * p - w * c;
  }

  /** The limbs after one conditional subtraction. */
  function Reduced(t: seq<int>): (r: seq<int>)
    requires |t| == 16
    ensures |r| == 16
  {
    if Borrow(Diff(t, 15)) == 1 then t else Masked(t, 16)
  }

  lemma {:induction false} TidyVal(t: seq<int>, n: nat)
    requires |t| == 16 && n <= 16 && Tidy(t, 0, n)
    ensures 0 <= Val(t[..n]) < BPow(n)
    decreases n
  {
    hide Val;
    if n == 0 {
      ValNone(t[..0]);
      WeightZero();
    } else {
      TidyVal(t, n - 1);
      ValSnoc(t, n - 1);
      Weigh(n - 1);
      var w := BPow(n - 1);
      assert w * t[n - 1] <= w * (BASE - 1) by { Scale(w, t[n - 1], BASE - 1); }
      assert w * (BASE - 1) == BASE * w - w;
      assert w * t[n - 1] >= 0 by { Scale(w, 0, t[n - 1]); }
    }
  }

  lemma {:induction false} Scale(w: int, x: int, y: int)
    requires w >= 0 && x <= y
    ensures w * x <= w * y
  {
  }

  /** It subtracts the prime exactly when that leaves something. */
  lemma {:induction false} ReducedVal(t: seq<int>)
    requires Tidy(t, 0, 16)
    ensures Tidy(Reduced(t), 0, 16)
    ensures Val(Reduced(t)) == if Val(t) >= P then Val(t) - P else Val(t)
  {
    hide Val, BPow, Borrow;
    PrimeIs();
    MaskedVal(t, 16);
    DiffBound(t, 15);
    BorrowIs(Diff(t, 15));
    assert t[..16] == t;
    TidyVal(t, 16);
    var m := Masked(t, 16);
    assert Tidy(m, 0, 16);
    TidyVal(m, 16);
    assert m[..16] == m;
  }

  // ---- bytes ----

  /** The number bytes stand for, low byte first. */
  function LeVal(bs: seq<Byte>): int
  {
    if bs == [] then 0 else
      var b: int := bs[0];
      b + 256 * LeVal(bs[1..])
  }

  /** A limb's two bytes. */
  function LimbBytes(t: seq<int>): (r: seq<Byte>)
    requires forall i :: 0 <= i < |t| ==> 0 <= t[i] < BASE
    ensures |r| == 2 * |t|
  {
    if t == [] then [] else [t[0] % 256, t[0] / 256] + LimbBytes(t[1..])
  }

  lemma {:induction false} LimbBytesVal(t: seq<int>)
    requires forall i :: 0 <= i < |t| ==> 0 <= t[i] < BASE
    ensures LeVal(LimbBytes(t)) == Val(t)
  {
    if t != [] {
      LimbBytesVal(t[1..]);
      var bs := LimbBytes(t);
      assert bs[1..][0] == t[0] / 256 && bs[1..][1..] == LimbBytes(t[1..]);
    }
  }

  lemma {:induction false} LimbBytesSnoc(t: seq<int>, i: nat)
    requires i < |t| && forall i :: 0 <= i < |t| ==> 0 <= t[i] < BASE
    ensures LimbBytes(t[..i + 1]) == LimbBytes(t[..i]) + [t[i] % 256, t[i] / 256]
    decreases i
  {
    if i == 0 {
      assert t[..1] == [t[0]] && t[..0] == [] && [t[0]][1..] == [];
    } else {
      LimbBytesSnoc(t[1..], i - 1);
      assert t[..i + 1][1..] == t[1..][..i] && t[..i][1..] == t[1..][..i - 1];
    }
  }

  /** `ed_sel25519`: the arrays change places when `b` is 1 and stay when it is 0. */
  method Sel(p: array<int>, q: array<int>, b: int)
    requires p.Length == 16 && q.Length == 16 && p != q && 0 <= b <= 1
    modifies p, q
    ensures p[..] == if b == 1 then old(q[..]) else old(p[..])
    ensures q[..] == if b == 1 then old(p[..]) else old(q[..])
  {
    for i := 0 to 16
      invariant forall j :: 0 <= j < i ==> p[j] == if b == 1 then old(q[..])[j] else old(p[..])[j]
      invariant forall j :: 0 <= j < i ==> q[j] == if b == 1 then old(p[..])[j] else old(q[..])[j]
      invariant forall j :: i <= j < 16 ==> p[j] == old(p[..])[j] && q[j] == old(q[..])[j]
    {
      var x, y := p[i], q[i];
      p[i], q[i] := if b == 1 then y else x, if b == 1 then x else y;
    }
  }

  /** One round of the subtraction in `ed_pack25519`; `m` is scratch. */
  method Subtract(t: array<int>, m: array<int>)
    requires t.Length == 16 && m.Length == 16 && t != m && Tidy(t[..], 0, 16)
    modifies t, m
    ensures t[..] == Reduced(old(t[..]))
  {
    hide Borrow;
    ghost var s := t[..];
    DiffBound(s, 0);
    m[0] := I64(t[0] - 0xffed);
    for i := 1 to 15
      invariant t[..] == s && m[i - 1] == Diff(s, i - 1)
      invariant forall j :: 0 <= j < i - 1 ==> m[j] == Diff(s, j) % BASE
    {
      DiffBound(s, i);
      m[i] := I64(t[i] - 0xffff - Borrow(m[i - 1]));
      m[i - 1] := m[i - 1] % 65536;
    }
    DiffBound(s, 15);
    m[15] := I64(t[15] - 0x7fff - Borrow(m[14]));
    var b := Borrow(m[15]);
    BorrowIs(m[15]);
    m[14] := m[14] % 65536;
    assert b == 0 ==> m[..] == Masked(s, 16);
    Sel(t, m, 1 - b);
  }

  lemma {:induction false} PackBounds(n: seq<int>)
    requires Within(n, LIMB17)
    ensures Tidy(Carried(Carried(n)), 0, 16) && Carried(Carried(Carried(n))) == Carried(Carried(n))
    ensures Within(Carried(n), WIDE) && Within(Carried(Carried(n)), WIDE)
    ensures Same(Val(Carried(Carried(n))), Val(n))
  {
    hide Val, CarryTo;
    CarriedBound(n, LIMB17, 4);
    CarriedTwice(Carried(n));
    CarryTidy(Carried(Carried(n)), 16);
    CarryVal(n, 16);
    CarryVal(Carried(n), 16);
  }

  /** Two subtractions leave the remainder. */
  lemma {:induction false} TwiceReduced(t: seq<int>)
    requires Tidy(t, 0, 16)
    ensures Tidy(Reduced(Reduced(t)), 0, 16) && Val(Reduced(Reduced(t))) == Val(t) % P
  {
    hide Val, Reduced;
    ReducedVal(t);
    ReducedVal(Reduced(t));
    TidyVal(t, 16);
    assert t[..16] == t;
    Wraps();
    var v := Val(t);
    if v >= 2 * P { DivUnique(v, P, 2, v - 2 * P); }
    else if v >= P { DivUnique(v, P, 1, v - P); }
    else { DivUnique(v, P, 0, v); }
  }

  /** `ed_pack25519`: for limbs up to 2^17 the bytes are the number's only representative below
      the prime. */
  method Pack(n: array<int>) returns (o: seq<Byte>)
    requires n.Length == 16 && Within(n[..], LIMB17)
    ensures |o| == 32 && LeVal(o) == Val(n[..]) % P
  {
    hide Val, Carried, Reduced, LimbBytes, LeVal;
    var t := new int[16];
    var m := new int[16];
    for i := 0 to 16
      invariant t[..i] == n[..i]
    {
      t[i] := n[i];
    }
    assert t[..] == n[..];
    PackBounds(n[..]);
    Car(t);
    Car(t);
    Car(t);
    ghost var s := t[..];
    TwiceReduced(s);
    ReducedVal(s);
    Subtract(t, m);
    Subtract(t, m);
    o := [];
    assert LimbBytes(t[..0]) == [] by { NoBytes(); }
    for i := 0 to 16
      invariant Tidy(t[..], 0, 16) && t[..] == Reduced(Reduced(s)) && |o| == 2 * i && o == LimbBytes(t[..][..i])
    {
      LimbBytesSnoc(t[..], i);
      o := o + [t[i] % 256, t[i] / 256];
    }
    assert t[..][..16] == t[..];
    LimbBytesVal(t[..]);
  }

  lemma {:induction false} NoBytes()
    ensures LimbBytes([]) == []
  {
  }

  /** `ed_unpack25519`: 32 bytes, the top bit dropped, as limbs. */
  method Unpack(o: array<int>, n: seq<Byte>)
    requires o.Length == 16 && |n| == 32
    modifies o
    ensures Tidy(o[..], 0, 16) && o[15] < 0x8000
    ensures Val(o[..]) == LeVal(n) % (0x8000 * BPow(15))
  {
    hide Val, LeVal, BPow;
    for i := 0 to 16
      invariant forall j :: 0 <= j < i ==> o[j] == Pair(n, j)
    {
      o[i] := Pair(n, i);
    }
    ghost var full := o[..];
    PairsVal(full, n);
    o[15] := o[15] % 0x8000;
    assert o[..] == full[15 := full[15] % 0x8000];
    TopBit(full);
  }

  function Pair(n: seq<Byte>, j: nat): (v: int)
    requires 2 * j + 1 < |n|
    ensures 0 <= v < BASE
  {
    var lo: int, hi: int := n[2 * j], n[2 * j + 1];
    lo + hi * 256
  }

  lemma {:induction false} PairsVal(t: seq<int>, n: seq<Byte>)
    requires |n| == 2 * |t| && forall j :: 0 <= j < |t| ==> t[j] == Pair(n, j)
    ensures LeVal(n) == Val(t)
    decreases |t|
  {
    if t != [] {
      var rest := n[2..];
      forall j | 0 <= j < |t| - 1 ensures t[1..][j] == Pair(rest, j) { assert t[j + 1] == Pair(n, j + 1); }
      PairsVal(t[1..], rest);
      assert n[1..][1..] == rest;
    }
  }

  /** Dropping the top bit is taking the remainder. */
  lemma {:induction false} TopBit(t: seq<int>)
    requires Tidy(t, 0, 16) && |t| == 16
    ensures Val(t[15 := t[15] % 0x8000]) == Val(t) % (0x8000 * BPow(15))
  {
    hide Val, BPow;
    var x, q, b := t[15] % 0x8000, t[15] / 0x8000, BPow(15);
    var s := t[15 := x];
    ValPut(t, 15, x);
    ValSnoc(s, 15);
    assert s[..16] == s && s[..15] == t[..15];
    TidyVal(t, 15);
    TopParts(Val(t), Val(s), Val(t[..15]), b, x, q);
  }

  lemma {:induction false} TopParts(v: int, w: int, low: int, b: int, x: int, q: int)
    requires 0 <= low < b && 0 <= x < 0x8000 && w == low + b * x && w == v + b * (x - (0x8000 * q + x))
    ensures w == v % (0x8000 * b)
  {
    assert v == 0x8000 * b * q + w;
    Scale(b, x, 0x7fff);
    DivUnique(v, 0x8000 * b, q, w);
  }
}
