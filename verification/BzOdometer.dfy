/** Mixed-radix counting written out: every number below a product of wheel sizes as its digits, each
    wheel with letters of its own. */
module BzOdometer {
  import opened Bits

  // ------------------------------------------------------------------------- digits

  ghost predicate Wheels(xs: seq<nat>)
  {
    forall j :: 0 <= j < |xs| ==> xs[j] > 0
  }

  /** How many numbers the wheels count. */
  function Prod(xs: seq<nat>): nat
  {
    if xs == [] then 1 else xs[0] * Prod(xs[1..])
  }

  lemma {:induction false} ProdPositive(xs: seq<nat>)
    requires Wheels(xs)
    ensures Prod(xs) > 0
  {
    if xs != [] {
      ProdPositive(xs[1..]);
      Positive(xs[0], Prod(xs[1..]));
    }
  }

  lemma {:induction false} Positive(a: nat, b: nat)
    requires a > 0 && b > 0
    ensures a * b > 0
  {
  }

  lemma {:induction false} Assoc3(a: nat, b: nat, c: nat)
    ensures a * (b * c) == (a * b) * c
  {
  }

  lemma {:induction false} ProdAppend(a: seq<nat>, b: seq<nat>)
    ensures Prod(a + b) == Prod(a) * Prod(b)
  {
    if a == [] {
      assert a + b == b;
    } else {
      assert (a + b)[1..] == a[1..] + b;
      ProdAppend(a[1..], b);
      Assoc3(a[0], Prod(a[1..]), Prod(b));
    }
  }

  /** A number split by a divisor stays below the product. */
  lemma {:induction false} DivBelow(i: nat, x: nat, p: nat)
    requires p > 0 && i < x * p
    ensures i / p < x && i % p < p && i == p * (i / p) + i % p
  {
    if i / p >= x { MulGrows(x, i / p, p); }
  }

  lemma {:induction false} MulGrows(a: nat, b: nat, p: nat)
    requires a <= b
    ensures a * p <= b * p
  {
  }

  /** The digits of `i`, the most significant first. */
  function Digits(xs: seq<nat>, i: nat): (d: seq<nat>)
    requires Wheels(xs) && i < Prod(xs)
    ensures |d| == |xs| && forall j :: 0 <= j < |xs| ==> d[j] < xs[j]
    decreases |xs|
  {
    if xs == [] then []
    else
      var p := Prod(xs[1..]);
      ProdPositive(xs[1..]);
      DivBelow(i, xs[0], p);
      [i / p] + Digits(xs[1..], i % p)
  }

  lemma {:induction false} DigitsUnfold(xs: seq<nat>, i: nat)
    requires Wheels(xs) && xs != [] && i < Prod(xs)
    ensures var p := Prod(xs[1..]);
            p > 0 && i / p < xs[0] && i % p < p && i == p * (i / p) + i % p
            && Digits(xs, i) == [i / p] + Digits(xs[1..], i % p)
  {
    ProdPositive(xs[1..]);
    DivBelow(i, xs[0], Prod(xs[1..]));
  }

  lemma {:induction false} JoinBelow(q: nat, m: nat, a: nat, b: nat)
    requires q < a && m < b
    ensures q * b + m < a * b
  {
    MulGrows(q + 1, a, b);
    assert (q + 1) * b == q * b + b;
  }

  /** The digits of a number that two groups of wheels count together. */
  lemma {:induction false} DigitsSplit(a: seq<nat>, b: seq<nat>, q: nat, m: nat)
    requires Wheels(a) && Wheels(b) && q < Prod(a) && m < Prod(b)
    ensures Wheels(a + b) && q * Prod(b) + m < Prod(a + b)
    ensures Digits(a + b, q * Prod(b) + m) == Digits(a, q) + Digits(b, m)
    decreases |a|
  {
    hide Prod, Digits;
    ProdAppend(a, b);
    JoinBelow(q, m, Prod(a), Prod(b));
    if a == [] {
      NoDigits(q);
      assert a + b == b && q == 0;
    } else {
      var i := q * Prod(b) + m;
      DigitsUnfold(a, q);
      DigitsUnfold(a + b, i);
      assert (a + b)[1..] == a[1..] + b;
      var p := Prod(a[1..]);
      ProdAppend(a[1..], b);
      SplitDiv(q, m, p, Prod(b));
      DigitsSplit(a[1..], b, q % p, m);
    }
  }

  lemma {:induction false} NoDigits(q: nat)
    requires q < Prod([])
    ensures q == 0 && Digits([], q) == []
  {
  }

  lemma {:induction false} SplitDiv(q: nat, m: nat, p: nat, b: nat)
    requires p > 0 && m < b
    ensures p * b > 0 && (q * b + m) / (p * b) == q / p && (q * b + m) % (p * b) == (q % p) * b + m
  {
    Positive(p, b);
    JoinBelow(q % p, m, p, b);
    var u, v := q / p, q % p;
    assert q == p * u + v;
    assert q * b == (p * u + v) * b == p * u * b + v * b;
    assert p * u * b == (p * b) * u;
    DivUnique(q * b + m, p * b, u, v * b + m);
  }

  /** Counting goes in the order of the digits. */
  lemma {:induction false} DigitsLess(xs: seq<nat>, a: nat, b: nat) returns (f: nat)
    requires Wheels(xs) && a < b < Prod(xs)
    ensures f < |xs| && Digits(xs, a)[..f] == Digits(xs, b)[..f] && Digits(xs, a)[f] < Digits(xs, b)[f]
    decreases |xs|
  {
    hide Prod, Digits;
    if xs == [] { NoDigits(b); assert false; }
    DigitsUnfold(xs, a);
    DigitsUnfold(xs, b);
    var p := Prod(xs[1..]);
    if a / p < b / p {
      f := 0;
    } else {
      QuotientMono(a, b, p);
      f := DigitsLess(xs[1..], a % p, b % p);
      f := f + 1;
      var x, y := Digits(xs, a), Digits(xs, b);
      assert x[..f] == [x[0]] + x[1..][..f - 1];
      assert y[..f] == [y[0]] + y[1..][..f - 1];
    }
  }

  lemma {:induction false} QuotientMono(a: nat, b: nat, p: nat)
    requires p > 0 && a < b && a / p >= b / p
    ensures a / p == b / p && a % p < b % p
  {
    var q, r := a / p, b / p;
    assert a == p * q + a % p && b == p * r + b % p;
    if q > r { MulGrows(r + 1, q, p); }
  }

  /** The last digit is the remainder. */
  lemma {:induction false} LastDigit(xs: seq<nat>, i: nat)
    requires Wheels(xs) && xs != [] && i < Prod(xs)
    ensures Digits(xs, i)[|xs| - 1] == i % xs[|xs| - 1]
  {
    hide Prod, Digits;
    var n := |xs| - 1;
    var a, b, x := xs[..n], xs[n..], xs[n];
    assert xs == a + b && b == [x];
    ProdAppend(a, b);
    One(x);
    DivBelow(i, Prod(a), x);
    DigitsSplit(a, b, i / x, i % x);
    assert i == (i / x) * x + i % x;
    OneDigit(x, i % x);
  }

  lemma {:induction false} One(x: nat)
    ensures Prod([x]) == x
  {
    assert [x][1..] == [];
  }

  lemma {:induction false} OneDigit(x: nat, m: nat)
    requires m < x
    ensures Prod([x]) == x && Digits([x], m) == [m]
  {
    One(x);
    assert [x][1..] == [];
  }
}
