/** Numbers modulo 2^255 - 19 in sixteen 16-bit limbs that may stray (section 5.1 of RFC 8032
    fixes the prime): what the limbs stand for, and what carrying does. */
module EdField {
  import opened Bits

  const BASE: int := 65536
  const P: int := 0x7fff_ffff_ffff_ffff_ffff_ffff_ffff_ffff_ffff_ffff_ffff_ffff_ffff_ffff_ffff_ffed

  /** The number limbs stand for. */
  function Val(s: seq<int>): int
  {
    if s == [] then 0 else s[0] + BASE * Val(s[1..])
  }

  function BPow(k: nat): (r: int)
    ensures r >= 1
  {
    if k == 0 then 1 else BASE * BPow(k - 1)
  }

  /** The same modulo the prime. */
  predicate Same(x: int, y: int)
  {
    x % P == y % P
  }

  lemma {:induction false} SameBy(x: int, y: int, k: int)
    requires x == y + k * P
    ensures Same(x, y)
  {
    var q, r := y / P, y % P;
    assert x == P * (q + k) + r by {
      assert P * (q + k) == P * q + P * k;
    }
    DivUnique(x, P, q + k, r);
  }

  lemma {:induction false} SameHow(x: int, y: int) returns (k: int)
    requires Same(x, y)
    ensures x == y + k * P
  {
    k := x / P - y / P;
  }

  lemma {:induction false} SameTimes(x: int, y: int, u: int, v: int)
    requires Same(x, u) && Same(y, v)
    ensures Same(x * y, u * v)
  {
    var j := SameHow(x, u);
    var k := SameHow(y, v);
    assert x * y == u * v + (u * k + j * v + j * (k * P)) * P by {
      hide Same;
      Product(u, j, v, k, P);
    }
    SameBy(x * y, u * v, u * k + j * v + j * (k * P));
  }

  lemma {:induction false} Product(u: int, j: int, v: int, k: int, p: int)
    ensures (u + j * p) * (v + k * p) == u * v + (u * k + j * v + j * (k * p)) * p
  {
    assert (u + j * p) * (v + k * p) == u * (v + k * p) + (j * p) * (v + k * p);
    assert u * (v + k * p) == u * v + u * (k * p) && u * (k * p) == (u * k) * p;
    assert (j * p) * (v + k * p) == (j * p) * v + (j * p) * (k * p) && (j * p) * v == (j * v) * p
        && (j * p) * (k * p) == (j * (k * p)) * p;
  }

  /** 2^256 is 38 modulo the prime. */
  lemma {:induction false} Wraps()
    ensures BPow(16) == 2 * P + 38
  {
    BPowAdd(2, 2);
    assert BPow(2) == 0x1_0000_0000;
    assert BPow(4) == 0x1_0000_0000_0000_0000;
    BPowAdd(4, 4);
    assert BPow(8) == 0x1_0000_0000_0000_0000_0000_0000_0000_0000;
    BPowAdd(8, 8);
  }

  lemma {:induction false} BPowAdd(a: nat, b: nat)
    ensures BPow(a + b) == BPow(a) * BPow(b)
    decreases a
  {
    if a > 0 {
      BPowAdd(a - 1, b);
      assert BPow(a + b) == BASE * (BPow(a - 1) * BPow(b));
    }
  }

  // ---- limbs ----

  /** Changing limb `i` by `d` changes the number by `d` times its weight. */
  lemma {:induction false} ValPut(s: seq<int>, i: nat, x: int)
    requires i < |s|
    ensures Val(s[i := x]) == Val(s) + BPow(i) * (x - s[i])
    decreases i
  {
    if i == 0 {
      assert s[0 := x][1..] == s[1..];
    } else {
      ValPut(s[1..], i - 1, x);
      assert s[i := x][1..] == s[1..][i - 1 := x];
      assert BASE * (BPow(i - 1) * (x - s[i])) == BPow(i) * (x - s[i]);
    }
  }

  lemma {:induction false} ValSplit(s: seq<int>, k: nat)
    requires k <= |s|
    ensures Val(s) == Val(s[..k]) + BPow(k) * Val(s[k..])
    decreases k
  {
    if k == 0 {
      assert s[..0] == [] && s[0..] == s;
    } else {
      ValSplit(s[1..], k - 1);
      assert s[1..][..k - 1] == s[..k][1..] && s[1..][k - 1..] == s[k..];
      var a, b := BPow(k - 1), Val(s[k..]);
      assert BASE * (a * b) == (BASE * a) * b;
    }
  }

  // ---- carrying ----

  /** Step `i` of `ed_car25519`: the limb keeps its low 16 bits, and what is above goes to the
      next limb, from the last one 38-fold to the first. */
  function CarryStep(s: seq<int>, i: nat): (r: seq<int>)
    requires |s| == 16 && i < 16
    ensures |r| == 16
  {
    var q := s[i] / BASE;
    if i < 15 then s[i := s[i] % BASE][i + 1 := s[i + 1] + q]
    else (var t := s[15 := s[15] % BASE]; t[0 := t[0] + 38 * q])
  }

  function CarryTo(s: seq<int>, n: nat): (r: seq<int>)
    requires |s| == 16 && n <= 16
    ensures |r| == 16
  {
    if n == 0 then s else CarryStep(CarryTo(s, n - 1), n - 1)
  }

  function Carried(s: seq<int>): (r: seq<int>)
    requires |s| == 16
    ensures |r| == 16
  {
    CarryTo(s, 16)
  }

  lemma {:induction false} CarryStepVal(s: seq<int>, i: nat)
    requires |s| == 16 && i < 16
    ensures Same(Val(CarryStep(s, i)), Val(s))
    ensures i < 15 ==> Val(CarryStep(s, i)) == Val(s)
  {
    hide Val, BPow, Same;
    var q, r := s[i] / BASE, s[i] % BASE;
    assert s[i] == BASE * q + r;
    var t := s[i := r];
    ValPut(s, i, r);
    assert BPow(i) * (r - s[i]) == -(BPow(i + 1) * q) by { Weight(i, q); }
    if i < 15 {
      ValPut(t, i + 1, t[i + 1] + q);
      SameBy(Val(CarryStep(s, i)), Val(s), 0);
    } else {
      ValPut(t, 0, t[0] + 38 * q);
      Wraps();
      assert BPow(0) == 1 by { WeightZero(); }
      assert (2 * P + 38) * q == 2 * q * P + 38 * q;
      SameBy(Val(CarryStep(s, i)), Val(s), -2 * q);
    }
  }

  lemma {:induction false} WeightZero()
    ensures BPow(0) == 1
  {
  }

  lemma {:induction false} Weight(i: nat, q: int)
    ensures BPow(i) * (-(BASE * q)) == -(BPow(i + 1) * q)
  {
    assert BPow(i + 1) * q == (BASE * BPow(i)) * q == BPow(i) * (BASE * q);
  }

  /** Carrying keeps the number modulo the prime. */
  lemma {:induction false} CarryVal(s: seq<int>, n: nat)
    requires |s| == 16 && n <= 16
    ensures Same(Val(CarryTo(s, n)), Val(s))
    decreases n
  {
    hide Val, CarryStep;
    if n > 0 {
      CarryVal(s, n - 1);
      CarryStepVal(CarryTo(s, n - 1), n - 1);
    }
  }
}
