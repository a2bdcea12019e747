/** The two exponent loops of `ed25519.h`: inversion and the power used for square roots. */
module EdPower {
  import opened Bits
  import opened EdField
  import opened EdBounds
  import opened EdArith

  function Pow(x: int, e: nat): int
  {
    if e == 0 then 1 else x * Pow(x, e - 1)
  }

  lemma {:induction false} PowAdd(x: int, a: nat, b: nat)
    ensures Pow(x, a + b) == Pow(x, a) * Pow(x, b)
    decreases a
  {
    if a > 0 {
      PowAdd(x, a - 1, b);
      assert x * (Pow(x, a - 1) * Pow(x, b)) == (x * Pow(x, a - 1)) * Pow(x, b);
    }
  }

  lemma {:induction false} PowOne(x: int)
    ensures Pow(x, 1) == x
  {
    assert Pow(x, 0) == 1;
  }

  // ---- exponents ----

  /** The exponent reached when the bits above position `a` have been used, of `top` bits that are
      all ones but for the positions in `zeros`. */
  function Reached(top: nat, zeros: set<nat>, a: nat): nat
    requires a <= top
    decreases top - a
  {
    if a == top then 1 else 2 * Reached(top, zeros, a + 1) + if a in zeros then 0 else 1
  }

  /** Above the zeros it is a power of two less one. */
  lemma {:induction false} ReachedOnes(top: nat, zeros: set<nat>, a: nat)
    requires a <= top && forall z :: z in zeros ==> z < a
    ensures Reached(top, zeros, a) == Pow2(top - a + 1) - 1
    decreases top - a
  {
    if a < top { ReachedOnes(top, zeros, a + 1); } else { assert Pow2(1) == 2 * Pow2(0); }
  }

  lemma {:induction false} PrimePower()
    ensures Pow2(255) == P + 19
  {
    hide Pow2, BPow;
    BitsOfBase(16);
    Wraps();
    Doubled(255);
  }

  lemma {:induction false} Doubled(k: nat)
    ensures Pow2(k + 1) == 2 * Pow2(k)
  {
  }

  lemma {:induction false} BitsOfBase(k: nat)
    ensures Pow2(16 * k) == BPow(k)
  {
    if k > 0 {
      BitsOfBase(k - 1);
      Pow2Add(16, 16 * (k - 1));
      assert Pow2(16) == 65536 by {
        assert Pow2(4) == 16;
        Pow2Add(4, 4);
        Pow2Add(8, 8);
      }
    }
  }

  lemma {:induction false} StepDown(top: nat, zeros: set<nat>, a: nat)
    requires a < top
    ensures Reached(top, zeros, a) == 2 * Reached(top, zeros, a + 1) + if a in zeros then 0 else 1
  {
  }

  /** The exponent of `ed_inv25519`. */
  lemma {:induction false} InverseExponent()
    ensures Reached(254, {2, 4}, 0) == P - 2
  {
    hide Reached, Pow2;
    var z: set<nat> := {2, 4};
    ReachedOnes(254, z, 5);
    StepDown(254, z, 4);
    StepDown(254, z, 3);
    StepDown(254, z, 2);
    StepDown(254, z, 1);
    StepDown(254, z, 0);
    Doubled(250);
    Doubled(251);
    Doubled(252);
    Doubled(253);
    Doubled(254);
    PrimePower();
  }

  /** The exponent of `ed_pow2523`. */
  lemma {:induction false} RootExponent()
    ensures Reached(251, {1}, 0) == (P - 5) / 8
  {
    hide Reached, Pow2;
    var z: set<nat> := {1};
    ReachedOnes(251, z, 2);
    StepDown(251, z, 1);
    StepDown(251, z, 0);
    Doubled(250);
    Doubled(251);
    Doubled(252);
    Doubled(253);
    Doubled(254);
    PrimePower();
  }

  // ---- the loops ----

  /** `c` stands for `x` to the power `e`. */
  ghost predicate Powered(c: seq<int>, x: int, e: nat)
  {
    Same(Val(c), Pow(x, e))
  }

  lemma {:induction false} Squared(c: seq<int>, d: seq<int>, x: int, e: nat)
    requires Powered(c, x, e) && Same(Val(d), Val(c) * Val(c))
    ensures Powered(d, x, 2 * e)
  {
    hide Val, Pow;
    SameTimes(Val(c), Val(c), Pow(x, e), Pow(x, e));
    PowAdd(x, e, e);
  }

  lemma {:induction false} Timed(c: seq<int>, d: seq<int>, x: int, e: nat)
    requires Powered(c, x, e) && Same(Val(d), Val(c) * x)
    ensures Powered(d, x, e + 1)
  {
    hide Val, Pow;
    SameTimes(Val(c), x, Pow(x, e), x);
    PowAdd(x, e, 1);
    PowOne(x);
  }

  /** `ed_set25519` */
  method Copy(r: array<int>, a: array<int>)
    requires r.Length == 16 && a.Length == 16
    modifies r
    ensures r[..] == old(a[..])
  {
    for i := 0 to 16
      invariant forall j :: 0 <= j < i ==> r[j] == old(a[..])[j]
      invariant forall j :: i <= j < 16 ==> a[j] == old(a[..])[j]
    {
      r[i] := a[i];
    }
  }

  /** One round: a square, and a product unless the bit is zero. */
  method Round(c: array<int>, x: array<int>, zero: bool, ghost e: nat)
    requires c.Length == 16 && x.Length == 16 && c != x && Within(c[..], LIMB26) && Within(x[..], LIMB26)
    requires Powered(c[..], Val(x[..]), e)
    modifies c
    ensures Within(c[..], LIMB26) && Powered(c[..], Val(x[..]), 2 * e + if zero then 0 else 1)
    ensures Within(c[..], LIMB17)
  {
    hide Val, Powered, Same;
    ghost var before := c[..];
    Mul(c, c, c);
    ghost var squared := c[..];
    Squared(before, squared, Val(x[..]), e);
    if !zero {
      Mul(c, c, x);
      Timed(squared, c[..], Val(x[..]), 2 * e);
    }
  }

  /** Square and multiply over the bits from `top - 1` down. */
  method Exponentiate(o: array<int>, x: array<int>, top: nat, zeros: set<nat>)
    requires o.Length == 16 && x.Length == 16 && Within(x[..], LIMB26) && top > 0
    modifies o
    ensures Within(o[..], LIMB17) && Powered(o[..], old(Val(x[..])), Reached(top, zeros, 0))
  {
    hide Val, Powered, Same, Reached;
    var c := new int[16];
    Copy(c, x);
    assert Powered(c[..], Val(x[..]), Reached(top, zeros, top)) by { Begun(x[..], top, zeros); }
    var a := top;
    while a > 0
      invariant a <= top && x[..] == old(x[..]) && Within(c[..], LIMB26) && (a < top ==> Within(c[..], LIMB17))
      invariant Powered(c[..], Val(x[..]), Reached(top, zeros, a))
    {
      a := a - 1;
      StepDown(top, zeros, a);
      Round(c, x, a in zeros, Reached(top, zeros, a + 1));
    }
    Copy(o, c);
  }

  lemma {:induction false} Begun(x: seq<int>, top: nat, zeros: set<nat>)
    ensures Powered(x, Val(x), Reached(top, zeros, top))
  {
    hide Val;
    PowOne(Val(x));
  }

  /** `ed_inv25519`: the power p - 2, with limbs below 2^17 throughout. */
  method Inv(o: array<int>, i: array<int>)
    requires o.Length == 16 && i.Length == 16 && Within(i[..], LIMB26)
    modifies o
    ensures Within(o[..], LIMB17) && Same(Val(o[..]), Pow(old(Val(i[..])), P - 2))
  {
    hide Val, Pow, Reached;
    InverseExponent();
    Exponentiate(o, i, 254, {2, 4});
  }

  /** `ed_pow2523`: the power (p - 5) / 8. */
  method Pow2523(o: array<int>, i: array<int>)
    requires o.Length == 16 && i.Length == 16 && Within(i[..], LIMB26)
    modifies o
    ensures Within(o[..], LIMB17) && Same(Val(o[..]), Pow(old(Val(i[..])), (P - 5) / 8))
  {
    hide Val, Pow, Reached;
    RootExponent();
    Exponentiate(o, i, 251, {1});
  }
}
