/** How far limbs stray, and how carrying brings them back. */
module EdBounds {
  import opened Bits
  import opened EdField

  ghost predicate Within(s: seq<int>, l: int)
  {
    |s| == 16 && forall i :: 0 <= i < 16 ==> -l <= s[i] <= l
  }

  /** Limbs of 16 bits from `a` up to but not including `b`. */
  ghost predicate Tidy(s: seq<int>, a: nat, b: nat)
  {
    |s| == 16 && b <= 16 && forall i :: a <= i < b ==> 0 <= s[i] < BASE
  }

  /** While carrying: the limbs behind are tidy, the one ahead has taken a carry of at most `c`,
      the rest wait. */
  ghost predicate Midway(s: seq<int>, r: seq<int>, n: nat, c: int)
  {
    |s| == 16 && |r| == 16 && n <= 15 && Tidy(r, 0, n)
    && (n == 0 ==> r[0] == s[0]) && (n > 0 ==> s[n] - c <= r[n] <= s[n] + c)
    && forall i :: n < i < 16 ==> r[i] == s[i]
  }

  lemma {:induction false} CarryMidway(s: seq<int>, n: nat, l: int, c: int)
    requires Within(s, l) && n <= 15 && 0 <= c && l + c + BASE <= BASE * c
    ensures Midway(s, CarryTo(s, n), n, c)
    decreases n
  {
    if n > 0 {
      CarryMidway(s, n - 1, l, c);
      var r := CarryTo(s, n - 1);
      var q := r[n - 1] / BASE;
      QuotientIn(r[n - 1], l + c, c);
    }
  }

  lemma {:induction false} QuotientIn(x: int, l: int, c: int)
    requires -l <= x <= l && l + BASE <= BASE * c
    ensures -c <= x / BASE <= c
  {
    var q, r := x / BASE, x % BASE;
    assert x == BASE * q + r;
  }

  /** After carrying, all limbs but the first are tidy, and the first is within 38 carries. */
  lemma {:induction false} CarriedBound(s: seq<int>, l: int, c: int)
    requires Within(s, l) && 0 <= c && l + c + BASE <= BASE * c
    ensures var r := Carried(s); Tidy(r, 1, 16) && -38 * c <= r[0] < BASE + 38 * c
  {
    CarryMidway(s, 15, l, c);
    var r := CarryTo(s, 15);
    QuotientIn(r[15], l + c, c);
  }

  // ---- a second time ----

  /** Where a carry of at most one can come from: the first limb. */
  ghost predicate Settling(s: seq<int>, r: seq<int>, n: nat, q: int)
  {
    |s| == 16 && |r| == 16 && 1 <= n <= 15 && Tidy(r, 0, n) && r[0] == s[0] % BASE
    && s[n] - 1 <= r[n] <= s[n] + 1 && (r[n] == s[n] + 1 ==> q == 1) && (r[n] == s[n] - 1 ==> q == -1)
    && forall i :: n < i < 16 ==> r[i] == s[i]
  }

  lemma {:induction false} CarrySettles(s: seq<int>, n: nat)
    requires |s| == 16 && Tidy(s, 1, 16) && -BASE <= s[0] < 2 * BASE && 1 <= n <= 15
    ensures Settling(s, CarryTo(s, n), n, s[0] / BASE)
    decreases n
  {
    if n == 1 {
      assert CarryTo(s, 0) == s;
      assert CarryTo(s, 1) == CarryStep(s, 0);
    } else {
      CarrySettles(s, n - 1);
      var r := CarryTo(s, n - 1);
      assert -1 <= r[n - 1] <= BASE;
    }
  }

  /** Limbs that have been carried once from anywhere near are tidy after the second time. */
  lemma {:induction false} CarriedTwice(s: seq<int>)
    requires |s| == 16 && Tidy(s, 1, 16) && -152 <= s[0] < BASE + 152
    ensures Tidy(Carried(s), 0, 16)
  {
    CarrySettles(s, 15);
    var r := CarryTo(s, 15);
    assert -1 <= r[15] <= BASE;
  }

  /** Tidy limbs have nothing to carry. */
  lemma {:induction false} CarryTidy(s: seq<int>, n: nat)
    requires Tidy(s, 0, 16) && n <= 16
    ensures CarryTo(s, n) == s
    decreases n
  {
    if n > 0 {
      CarryTidy(s, n - 1);
      assert s[n - 1] / BASE == 0 && s[n - 1] % BASE == s[n - 1];
    }
  }

  // ---- after a product ----

  /** A large first limb is spread out within four steps. */
  lemma {:induction false} SpreadStart(s: seq<int>)
    requires |s| == 16 && Tidy(s, 1, 16) && -0x8_0000_0000_0000 <= s[0] < 0x8_0000_0000_0000
    ensures var r := CarryTo(s, 4); Tidy(r, 0, 4) && -1 <= r[4] <= BASE && forall i :: 4 < i < 16 ==> r[i] == s[i]
  {
    var r0 := s;
    var q0 := s[0] / BASE;
    assert -0x8_0000_0000 <= q0 < 0x8_0000_0000;
    var r1 := CarryStep(r0, 0);
    assert CarryTo(s, 0) == s && CarryTo(s, 1) == r1;
    assert r1[1] == s[1] + q0;
    var q1 := r1[1] / BASE;
    assert -0x8_0001 <= q1 <= 0x8_0001;
    var r2 := CarryStep(r1, 1);
    assert CarryTo(s, 2) == r2 && r2[2] == s[2] + q1;
    var q2 := r2[2] / BASE;
    assert -9 <= q2 <= 9;
    var r3 := CarryStep(r2, 2);
    assert CarryTo(s, 3) == r3 && r3[3] == s[3] + q2;
    var q3 := r3[3] / BASE;
    assert -1 <= q3 <= 1;
    assert CarryTo(s, 4) == CarryStep(r3, 3);
  }

  lemma {:induction false} SpreadOn(s: seq<int>, n: nat)
    requires |s| == 16 && Tidy(s, 1, 16) && -0x8_0000_0000_0000 <= s[0] < 0x8_0000_0000_0000 && 4 <= n <= 15
    ensures var r := CarryTo(s, n); Tidy(r, 0, n) && -1 <= r[n] <= BASE && forall i :: n < i < 16 ==> r[i] == s[i]
    decreases n
  {
    if n == 4 {
      SpreadStart(s);
    } else {
      SpreadOn(s, n - 1);
      var r := CarryTo(s, n - 1);
      assert -1 <= r[n - 1] / BASE <= 1;
    }
  }

  /** So the second carry of a product leaves limbs below 2^17. */
  lemma {:induction false} Spread(s: seq<int>)
    requires |s| == 16 && Tidy(s, 1, 16) && -0x8_0000_0000_0000 <= s[0] < 0x8_0000_0000_0000
    ensures var r := Carried(s); Tidy(r, 1, 16) && -38 <= r[0] < BASE + 38
  {
    SpreadOn(s, 15);
    var r := CarryTo(s, 15);
    assert -1 <= r[15] / BASE <= 1;
  }
}
