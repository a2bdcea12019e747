/** The rotations of a text that counts on an odometer, in order: wheel by wheel, and on each wheel the
    letters before it go round in cycles. */
module BzWheels {
  import opened Bits
  import opened BzBwt
  import opened BzOdometer

  /** Where the letters of wheel `j` begin. */
  function Start(xs: seq<nat>, j: nat): (r: nat)
    requires j <= |xs|
  {
    if j == 0 then 0 else Start(xs, j - 1) + xs[j - 1]
  }

  lemma {:induction false} StartMono(xs: seq<nat>, i: nat, j: nat)
    requires i <= j <= |xs|
    ensures Start(xs, i) <= Start(xs, j)
    decreases j
  {
    if i < j { StartMono(xs, i, j - 1); }
  }

  /** The digits of the `i`-th number as letters. */
  function Tuple(base: nat, xs: seq<nat>, i: nat): (t: seq<Byte>)
    requires Wheels(xs) && i < Prod(xs) && base + Start(xs, |xs|) <= 256
    ensures |t| == |xs| && forall j :: 0 <= j < |xs| ==> t[j] == base + Start(xs, j) + Digits(xs, i)[j]
  {
    seq(|xs|, j requires 0 <= j < |xs| => Letter(base, xs, i, j))
  }

  /** Digit `j` of the `i`-th number as a letter. */
  function Letter(base: nat, xs: seq<nat>, i: nat, j: nat): (l: Byte)
    requires Wheels(xs) && i < Prod(xs) && j < |xs| && base + Start(xs, |xs|) <= 256
    ensures l == base + Start(xs, j) + Digits(xs, i)[j]
  {
    LetterIn(base, xs, i, j);
    base + Start(xs, j) + Digits(xs, i)[j]
  }

  lemma {:induction false} LetterIn(base: nat, xs: seq<nat>, i: nat, j: nat)
    requires Wheels(xs) && i < Prod(xs) && j < |xs|
    ensures base + Start(xs, j) <= base + Start(xs, j) + Digits(xs, i)[j] < base + Start(xs, j + 1)
    ensures base + Start(xs, j + 1) <= base + Start(xs, |xs|)
  {
    StartMono(xs, j + 1, |xs|);
  }

  /** Where the `i`-th number is written. */
  function Place(at: nat, w: nat, i: nat): nat
  {
    at + i * w
  }

  /** From position `at` on, `s` counts on the wheels `xs`, and then goes on with a larger letter. */
  ghost predicate Counts(s: seq<Byte>, at: nat, base: nat, xs: seq<nat>)
  {
    && Wheels(xs) && xs != [] && base + Start(xs, |xs|) <= 256
    && (forall i :: 0 <= i < Prod(xs) ==> Written(s, at, base, xs, i))
    && (Prod(xs) > 1 ==> Place(at, |xs|, Prod(xs)) < |s| && base + Start(xs, |xs|) <= s[Place(at, |xs|, Prod(xs))])
  }

  ghost predicate Written(s: seq<Byte>, at: nat, base: nat, xs: seq<nat>, i: nat)
    requires Wheels(xs) && i < Prod(xs) && base + Start(xs, |xs|) <= 256
  {
    Place(at, |xs|, i) + |xs| <= |s| && s[Place(at, |xs|, i)..Place(at, |xs|, i) + |xs|] == Tuple(base, xs, i)
  }

  /** After `t` equal letters, the rotation at `a` goes on with the smaller one. */
  ghost predicate Leads(s: seq<Byte>, a: nat, b: nat, t: nat)
  {
    a + t < |s| && b + t < |s| && s[a + t] < s[b + t] && s[a..a + t] == s[b..b + t]
  }

  lemma {:induction false} LeadsBefore(s: seq<Byte>, a: nat, b: nat, t: nat)
    requires Leads(s, a, b, t)
    ensures RowBefore(s, a, b)
  {
    hide RowBefore;
    assert Rot(s, a)[..t] == s[a..a + t] && Rot(s, b)[..t] == s[b..b + t];
    Differ(s, a, b, t);
  }

  lemma {:induction false} LeadsOn(s: seq<Byte>, a: nat, b: nat, n: nat, t: nat)
    requires Leads(s, a + n, b + n, t) && s[a..a + n] == s[b..b + n]
    ensures Leads(s, a, b, n + t)
  {
    assert s[a..a + (n + t)] == s[a..a + n] + s[a + n..a + n + t];
    assert s[b..b + (n + t)] == s[b..b + n] + s[b + n..b + n + t];
  }

  // ---------------------------------------------------- two rotations on the same wheel

  lemma {:induction false} TupleLess(base: nat, xs: seq<nat>, i: nat, k: nat, j: nat, f: nat)
    requires Wheels(xs) && i < Prod(xs) && k < Prod(xs) && base + Start(xs, |xs|) <= 256 && j + f < |xs|
    requires Digits(xs, i)[j..][..f] == Digits(xs, k)[j..][..f] && Digits(xs, i)[j..][f] < Digits(xs, k)[j..][f]
    ensures Leads(Tuple(base, xs, i)[j..] + Tuple(base, xs, k)[j..], 0, |xs| - j, f)
  {
    hide Digits, Prod, Start;
    var x, y, n := Tuple(base, xs, i)[j..], Tuple(base, xs, k)[j..], |xs| - j;
    var u, v := Digits(xs, i)[j..], Digits(xs, k)[j..];
    forall p | 0 <= p < n ensures x[p] == base + Start(xs, j + p) + u[p] && y[p] == base + Start(xs, j + p) + v[p] { }
    forall p | 0 <= p < f ensures x[p] == y[p] { assert u[..f][p] == v[..f][p]; }
    assert (x + y)[0..f] == x[..f] && (x + y)[n..n + f] == y[..f];
    assert x[..f] == y[..f];
  }

  lemma {:induction false} TailOf(s: seq<Byte>, at: nat, base: nat, xs: seq<nat>, i: nat, j: nat)
    requires Counts(s, at, base, xs) && i < Prod(xs) && j <= |xs|
    ensures Place(at, |xs|, i) + |xs| <= |s|
    ensures s[Place(at, |xs|, i) + j..Place(at, |xs|, i) + |xs|] == Tuple(base, xs, i)[j..]
  {
    hide Digits, Prod, Start, Tuple, Place;
    assert Written(s, at, base, xs, i);
  }

  lemma {:induction false} LeadsIn(s: seq<Byte>, a: nat, b: nat, n: nat, x: seq<Byte>, y: seq<Byte>, f: nat)
    requires |x| == |y| == n && a + n <= |s| && b + n <= |s| && s[a..a + n] == x && s[b..b + n] == y
    requires Leads(x + y, 0, n, f) && f < n
    ensures Leads(s, a, b, f)
  {
    assert (x + y)[0..f] == x[..f] && (x + y)[n..n + f] == y[..f];
    assert s[a..a + f] == x[..f] && s[b..b + f] == y[..f];
    assert s[a + f] == x[f] && s[b + f] == y[f];
  }

  /** Two numbers that differ in the digits of the wheels from `j` on. */
  lemma {:induction false} LaterDigits(s: seq<Byte>, at: nat, base: nat, xs: seq<nat>, i: nat, k: nat, j: nat, f: nat)
    requires Counts(s, at, base, xs) && i < Prod(xs) && k < Prod(xs) && j + f < |xs|
    requires Digits(xs, i)[j..][..f] == Digits(xs, k)[j..][..f] && Digits(xs, i)[j..][f] < Digits(xs, k)[j..][f]
    ensures Leads(s, Place(at, |xs|, i) + j, Place(at, |xs|, k) + j, f)
  {
    hide Digits, Prod, Start, Tuple, Place, Leads;
    TailOf(s, at, base, xs, i, j);
    TailOf(s, at, base, xs, k, j);
    TupleLess(base, xs, i, k, j, f);
    LeadsIn(s, Place(at, |xs|, i) + j, Place(at, |xs|, k) + j, |xs| - j, Tuple(base, xs, i)[j..],
      Tuple(base, xs, k)[j..], f);
  }

  lemma {:induction false} NextPlace(at: nat, w: nat, i: nat)
    ensures Place(at, w, i) + w == Place(at, w, i + 1)
  {
  }

  /** Two numbers that agree in them: the ones that follow differ. */
  lemma {:induction false} NextNumbers(s: seq<Byte>, at: nat, base: nat, xs: seq<nat>, i: nat, k: nat, j: nat)
      returns (t: nat)
    requires Counts(s, at, base, xs) && j < |xs| && i < k < Prod(xs) && Digits(xs, i)[j..] == Digits(xs, k)[j..]
    ensures Leads(s, Place(at, |xs|, i) + j, Place(at, |xs|, k) + j, t)
  {
    hide Digits, Prod, Start, Tuple, Place, Leads;
    var w := |xs|;
    TailOf(s, at, base, xs, i, j);
    TailOf(s, at, base, xs, k, j);
    SameTail(base, xs, i, k, j);
    NextPlace(at, w, i);
    NextPlace(at, w, k);
    t := WholeNumbers(s, at, base, xs, i + 1, k + 1);
    LeadsOn(s, Place(at, w, i) + j, Place(at, w, k) + j, w - j, t);
    t := w - j + t;
  }

  lemma {:induction false} SameTail(base: nat, xs: seq<nat>, i: nat, k: nat, j: nat)
    requires Wheels(xs) && i < Prod(xs) && k < Prod(xs) && base + Start(xs, |xs|) <= 256 && j < |xs|
    requires Digits(xs, i)[j..] == Digits(xs, k)[j..]
    ensures Tuple(base, xs, i)[j..] == Tuple(base, xs, k)[j..]
  {
    hide Digits, Prod, Start;
    forall p | j <= p < |xs| ensures Tuple(base, xs, i)[p] == Tuple(base, xs, k)[p] {
      assert Digits(xs, i)[j..][p - j] == Digits(xs, k)[j..][p - j];
    }
  }

  /** What is written from one number on, against what is written from a later one on. */
  lemma {:induction false} WholeNumbers(s: seq<Byte>, at: nat, base: nat, xs: seq<nat>, i: nat, k: nat) returns (f: nat)
    requires Counts(s, at, base, xs) && i < k <= Prod(xs) && Prod(xs) > 1
    ensures Leads(s, Place(at, |xs|, i), Place(at, |xs|, k), f)
  {
    hide Digits, Prod, Start, Place;
    if k == Prod(xs) {
      f := 0;
      assert Written(s, at, base, xs, i);
      LetterIn(base, xs, i, 0);
      assert s[Place(at, |xs|, i)] == s[Place(at, |xs|, i)..Place(at, |xs|, i) + |xs|][0];
    } else {
      f := DigitsLess(xs, i, k);
      LaterDigits(s, at, base, xs, i, k, 0, f);
    }
  }
}
