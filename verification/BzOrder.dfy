/** The rows of a text made of odometers, sorted, and the column before them. */
module BzOrder {
  import opened Bits
  import opened BzBwt
  import opened BzOdometer
  import opened BzWheels
  import BzUnBwt
  import BzHits

  // ------------------------------------------------------------------ ascending lists

  lemma {:induction false} StepsAscend(s: seq<Byte>, idx: seq<nat>)
    requires (forall i :: 0 <= i < |idx| ==> idx[i] < |s|)
    requires forall i :: 0 <= i < |idx| - 1 ==> RowBefore(s, idx[i], idx[i + 1])
    ensures Ascending(s, idx)
  {
    hide RowBefore;
    forall i, j | 0 <= i < j < |idx| ensures RowBefore(s, idx[i], idx[j]) { StepsReach(s, idx, i, j); }
  }

  lemma {:induction false} StepsReach(s: seq<Byte>, idx: seq<nat>, i: nat, j: nat)
    requires (forall i :: 0 <= i < |idx| ==> idx[i] < |s|)
    requires (forall i :: 0 <= i < |idx| - 1 ==> RowBefore(s, idx[i], idx[i + 1])) && i < j < |idx|
    ensures RowBefore(s, idx[i], idx[j])
    decreases j
  {
    hide RowBefore;
    assert RowBefore(s, idx[j - 1], idx[j - 1 + 1]);
    if i < j - 1 {
      StepsReach(s, idx, i, j - 1);
      RowTrans(s, idx[i], idx[j - 1], idx[j]);
    }
  }

  /** The letters at these places are in a range. */
  ghost predicate Within(s: seq<Byte>, idx: seq<nat>, lo: nat, hi: nat)
  {
    forall i :: 0 <= i < |idx| ==> idx[i] < |s| && lo <= s[idx[i]] < hi
  }

  lemma {:induction false} AscendAppend(s: seq<Byte>, a: seq<nat>, b: seq<nat>, lo: nat, t: nat, hi: nat)
    requires Ascending(s, a) && Ascending(s, b) && Within(s, a, lo, t) && Within(s, b, t, hi) && lo <= t <= hi
    ensures Ascending(s, a + b) && Within(s, a + b, lo, hi)
  {
    hide RowBefore;
    var c := a + b;
    forall i, j | 0 <= i < j < |c| ensures RowBefore(s, c[i], c[j]) {
      if i < |a| <= j {
        assert c[i] == a[i] && c[j] == b[j - |a|];
        LeadsBefore(s, a[i], b[j - |a|], 0);
      } else if j < |a| {
        assert c[i] == a[i] && c[j] == a[j];
      } else {
        assert c[i] == b[i - |a|] && c[j] == b[j - |a|];
      }
    }
  }

  // ------------------------------------------------------------------- one wheel

  /** The number at which the `r`-th rotation of wheel `j` starts: those that agree on the wheels from
      `j` on come together. */
  function Row(xs: seq<nat>, j: nat, r: nat): nat
    requires Wheels(xs) && j <= |xs|
  {
    ProdPositive(xs[..j]);
    r % Prod(xs[..j]) * Prod(xs[j..]) + r / Prod(xs[..j])
  }

  /** The digits of `i` are those of `q` on the wheels before `j` and those of `m` on the others. */
  ghost predicate Splits(xs: seq<nat>, j: nat, i: nat, q: nat, m: nat)
    requires j <= |xs|
  {
    Wheels(xs) && Wheels(xs[..j]) && Wheels(xs[j..]) && i < Prod(xs) && q < Prod(xs[..j]) && m < Prod(xs[j..])
    && Digits(xs, i) == Digits(xs[..j], q) + Digits(xs[j..], m)
  }

  lemma {:induction false} RowIs(xs: seq<nat>, j: nat, r: nat)
    requires Wheels(xs) && j <= |xs| && r < Prod(xs)
    ensures Prod(xs[..j]) > 0 && Row(xs, j, r) < Prod(xs)
    ensures Splits(xs, j, Row(xs, j, r), r % Prod(xs[..j]), r / Prod(xs[..j]))
  {
    hide Prod, Digits, Row;
    var a, b := xs[..j], xs[j..];
    assert xs == a + b;
    assert Wheels(a) && Wheels(b);
    ProdAppend(a, b);
    ProdPositive(a);
    Commute(Prod(a), Prod(b));
    DivBelow(r, Prod(b), Prod(a));
    RowDef(xs, j, r);
    DigitsSplit(a, b, r % Prod(a), r / Prod(a));
  }

  lemma {:induction false} RowDef(xs: seq<nat>, j: nat, r: nat)
    requires Wheels(xs) && j <= |xs| && Prod(xs[..j]) > 0
    ensures Row(xs, j, r) == r % Prod(xs[..j]) * Prod(xs[j..]) + r / Prod(xs[..j])
  {
  }

  lemma {:induction false} Commute(a: nat, b: nat)
    ensures a * b == b * a
  {
  }

  lemma {:induction false} NextRank(r: nat, p: nat)
    requires p > 0
    ensures if r % p + 1 < p then (r + 1) % p == r % p + 1 && (r + 1) / p == r / p
        else (r + 1) % p == 0 && (r + 1) / p == r / p + 1
  {
    var q, d := r / p, r % p;
    assert r == p * q + d;
    if d + 1 < p { DivUnique(r + 1, p, q, d + 1); }
    else { assert p * (q + 1) == p * q + p; DivUnique(r + 1, p, q + 1, 0); }
  }

  /** From each rotation to the next. */
  lemma {:induction false} WheelStep(s: seq<Byte>, at: nat, base: nat, xs: seq<nat>, j: nat, r: nat) returns (t: nat)
    requires Counts(s, at, base, xs) && j < |xs| && r + 1 < Prod(xs)
    ensures Leads(s, Place(at, |xs|, Row(xs, j, r)) + j, Place(at, |xs|, Row(xs, j, r + 1)) + j, t)
  {
    hide Prod, Digits, Row, Place, Leads, Start;
    RowIs(xs, j, r);
    RowIs(xs, j, r + 1);
    var p, i, k := Prod(xs[..j]), Row(xs, j, r), Row(xs, j, r + 1);
    NextRank(r, p);
    assert Digits(xs, i)[j..] == Digits(xs[j..], r / p) && Digits(xs, k)[j..] == Digits(xs[j..], (r + 1) / p);
    if r % p + 1 < p {
      RowGrows(xs, j, r);
      t := NextNumbers(s, at, base, xs, i, k, j);
    } else {
      t := DigitsLess(xs[j..], r / p, r / p + 1);
      LaterDigits(s, at, base, xs, i, k, j, t);
    }
  }

  lemma {:induction false} RowGrows(xs: seq<nat>, j: nat, r: nat)
    requires Wheels(xs) && j <= |xs| && Prod(xs[..j]) > 0 && (r + 1) % Prod(xs[..j]) == r % Prod(xs[..j]) + 1
    requires (r + 1) / Prod(xs[..j]) == r / Prod(xs[..j])
    ensures Row(xs, j, r) < Row(xs, j, r + 1)
  {
    hide Prod;
    assert Wheels(xs[j..]);
    ProdPositive(xs[j..]);
    var q, d := Prod(xs[j..]), r % Prod(xs[..j]);
    assert (d + 1) * q == d * q + q;
  }

  /** The rotations that start on wheel `j`, in order. */
  function Wheel(at: nat, xs: seq<nat>, j: nat): (idx: seq<nat>)
    requires Wheels(xs) && j < |xs|
    ensures |idx| == Prod(xs) && forall r :: 0 <= r < |idx| ==> idx[r] == Place(at, |xs|, Row(xs, j, r)) + j
  {
    seq(Prod(xs), r requires 0 <= r => Place(at, |xs|, Row(xs, j, r)) + j)
  }

  lemma {:induction false} WheelAscends(s: seq<Byte>, at: nat, base: nat, xs: seq<nat>, j: nat)
    requires Counts(s, at, base, xs) && j < |xs|
    ensures Ascending(s, Wheel(at, xs, j)) && Within(s, Wheel(at, xs, j), base + Start(xs, j), base + Start(xs, j + 1))
  {
    hide Prod, Digits, Row, Place, Leads, Start, RowBefore, Wheel, Written;
    var idx := Wheel(at, xs, j);
    forall r | 0 <= r < |idx| ensures idx[r] < |s| && base + Start(xs, j) <= s[idx[r]] < base + Start(xs, j + 1) {
      RowIs(xs, j, r);
      LetterOf(s, at, base, xs, Row(xs, j, r), j);
    }
    forall r | 0 <= r < |idx| - 1 ensures RowBefore(s, idx[r], idx[r + 1]) {
      var t := WheelStep(s, at, base, xs, j, r);
      LeadsBefore(s, idx[r], idx[r + 1], t);
    }
    StepsAscend(s, idx);
  }

  lemma {:induction false} LetterOf(s: seq<Byte>, at: nat, base: nat, xs: seq<nat>, i: nat, j: nat)
    requires Counts(s, at, base, xs) && i < Prod(xs) && j < |xs|
    ensures Place(at, |xs|, i) + j < |s| && s[Place(at, |xs|, i) + j] == base + Start(xs, j) + Digits(xs, i)[j]
    ensures base + Start(xs, j) <= s[Place(at, |xs|, i) + j] < base + Start(xs, j + 1) <= base + Start(xs, |xs|)
  {
    hide Prod, Digits, Place, Start;
    TailOf(s, at, base, xs, i, j);
    LetterIn(base, xs, i, j);
    assert s[Place(at, |xs|, i) + j] == s[Place(at, |xs|, i) + j..Place(at, |xs|, i) + |xs|][0];
  }

  /** Sorting leaves no choice. */
  lemma {:induction false} SortedOnce(s: seq<Byte>, a: seq<nat>, b: seq<nat>, k: nat)
    requires SortedRows(s, a) && SortedRows(s, b) && k <= |s|
    ensures a[..k] == b[..k]
  {
    hide RowBefore;
    if k > 0 {
      SortedOnce(s, a, b, k - 1);
      var x, y := a[k - 1], b[k - 1];
      if x != y {
        LaterRow(s, a, b, k - 1);
        LaterRow(s, b, a, k - 1);
        RowTrans(s, x, y, x);
        NotBeforeItself(s, x);
      }
      assert a[..k] == a[..k - 1] + [x] && b[..k] == b[..k - 1] + [y];
    }
  }

  lemma {:induction false} NotBeforeItself(s: seq<Byte>, x: nat)
    requires x < |s|
    ensures !RowBefore(s, x, x)
  {
    LessIrreflexive(Rot(s, x));
  }

  lemma {:induction false} LaterRow(s: seq<Byte>, a: seq<nat>, b: seq<nat>, k: nat)
    requires SortedRows(s, a) && SortedRows(s, b) && k < |s| && a[..k] == b[..k] && a[k] != b[k]
    ensures RowBefore(s, b[k], a[k])
  {
    hide RowBefore;
    var x := a[k];
    BzUnBwt.EveryRowSorted(s, b, x);
    var p :| 0 <= p < |b| && b[p] == x;
    AscendingInjective(s, a);
    assert forall q :: 0 <= q < k ==> a[..k][q] == b[..k][q];
  }

  // ------------------------------------------------------------- the letter before

  lemma {:induction false} ModMod(r: nat, p: nat, x: nat)
    requires p > 0 && x > 0
    ensures p * x > 0 && r % (p * x) % x == r % x
  {
    Positive(p, x);
    var q, m := r / (p * x), r % (p * x);
    assert r == (p * x) * q + m;
    var u, v := m / x, m % x;
    assert m == x * u + v;
    assert (p * x) * q == x * (p * q);
    assert x * (p * q) + x * u == x * (p * q + u);
    DivUnique(r, x, p * q + u, v);
  }

  /** Before a letter of any wheel but the first stands one of the wheel before. */
  lemma {:induction false} LetterBefore(s: seq<Byte>, at: nat, base: nat, xs: seq<nat>, j: nat, r: nat)
    requires Counts(s, at, base, xs) && 1 <= j < |xs| && r < Prod(xs)
    ensures var p := Place(at, |xs|, Row(xs, j, r)) + j;
            p < |s| && s[Pred(|s|, p)] == base + Start(xs, j - 1) + r % xs[j - 1]
  {
    hide Prod, Digits, Row, Place, Start, Written;
    RowIs(xs, j, r);
    var a, i := xs[..j], Row(xs, j, r);
    LetterOf(s, at, base, xs, i, j);
    LetterOf(s, at, base, xs, i, j - 1);
    LastDigit(a, r % Prod(a));
    assert Digits(xs, i)[j - 1] == Digits(a, r % Prod(a))[j - 1];
    assert a == a[..j - 1] + [xs[j - 1]];
    ProdAppend(a[..j - 1], [xs[j - 1]]);
    One(xs[j - 1]);
    assert Wheels(a[..j - 1]);
    ProdPositive(a[..j - 1]);
    ModMod(r, Prod(a[..j - 1]), xs[j - 1]);
  }

  /** The first wheel's rotations are in the order of the numbers. */
  lemma {:induction false} FirstRow(xs: seq<nat>, r: nat)
    requires Wheels(xs)
    ensures Row(xs, 0, r) == r
  {
    assert xs[..0] == [] && xs[0..] == xs;
    assert Prod([]) == 1;
  }

  lemma {:induction false} PlaceZero(at: nat, w: nat)
    ensures Place(at, w, 0) == at
  {
  }

  /** Before a letter of the first wheel stands one of the last, or what is before the text. */
  lemma {:induction false} FirstWheel(s: seq<Byte>, at: nat, base: nat, xs: seq<nat>, r: nat)
    requires Counts(s, at, base, xs) && r < Prod(xs)
    ensures Place(at, |xs|, Row(xs, 0, r)) < |s| && (r == 0 ==> Place(at, |xs|, Row(xs, 0, r)) == at)
    ensures r > 0 ==>
        s[Pred(|s|, Place(at, |xs|, Row(xs, 0, r)))] == base + Start(xs, |xs| - 1) + (r - 1) % xs[|xs| - 1]
  {
    hide Prod, Digits, Start, Written, Row, Place;
    FirstRow(xs, r);
    PlaceZero(at, |xs|);
    LetterOf(s, at, base, xs, r, 0);
    if r > 0 {
      NextPlace(at, |xs|, r - 1);
      LetterOf(s, at, base, xs, r - 1, |xs| - 1);
      LastDigit(xs, r - 1);
    }
  }
}
