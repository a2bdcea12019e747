/** The field operations of `ed25519.h` on arrays of sixteen limbs. Every result of 64-bit
    arithmetic passes through `I64`, which asks for a proof that it does not overflow. */
module EdArith {
  import opened Bits
  import opened EdField
  import opened EdBounds

  function I64(x: int): (r: int)
    requires -0x8000_0000_0000_0000 <= x < 0x8000_0000_0000_0000
    ensures r == x
  {
    x
  }

  const WIDE: int := 0x4000_0000_0000_0000
  const LIMB26: int := 0x400_0000
  const LIMB17: int := 0x2_0000

  /** `ed_car25519`, in place. */
  method Car(o: array<int>)
    requires o.Length == 16 && Within(o[..], WIDE)
    modifies o
    ensures o[..] == Carried(old(o[..]))
  {
    hide CarryStep, Midway;
    ghost var s := o[..];
    for i := 0 to 16
      invariant o[..] == CarryTo(s, i)
    {
      ghost var r := o[..];
      if i <= 15 { CarryMidway(s, i, WIDE, 0x8000_0000_0000); }
      MidwayAt(s, r, i, WIDE, 0x8000_0000_0000);
      o[i] := I64(o[i] + 65536);
      var c := o[i] / 65536;
      var k := if i < 15 then i + 1 else 0;
      var d := I64(c - 1 + I64(37 * (c - 1) * if i == 15 then 1 else 0));
      o[k] := I64(o[k] + d);
      o[i] := I64(o[i] - I64(c * 65536));
      CarryIs(r, i, o[..]);
    }
  }

  /** What is known of the limb being carried and the one that takes the carry. */
  lemma {:induction false} MidwayAt(s: seq<int>, r: seq<int>, i: nat, l: int, c: int)
    requires i < 16 && Within(s, l) && Midway(s, r, i, c) && 0 <= c
    ensures |r| == 16 && -l - c <= r[i] <= l + c
    ensures i < 15 ==> -l <= r[i + 1] <= l
    ensures i == 15 ==> 0 <= r[0] < BASE
  {
  }

  /** The three assignments of one step. */
  lemma {:induction false} CarryIs(r: seq<int>, i: nat, after: seq<int>)
    requires |r| == 16 && |after| == 16 && i < 16
    requires var c := (r[i] + 65536) / 65536; var k := if i < 15 then i + 1 else 0;
             after[i] == r[i] + 65536 - c * 65536
             && after[k] == r[k] + (c - 1) + (if i == 15 then 37 * (c - 1) else 0)
             && forall j :: 0 <= j < 16 && j != i && j != k ==> after[j] == r[j]
    ensures after == CarryStep(r, i)
  {
    var q := r[i] / BASE;
    assert (r[i] + 65536) / 65536 == q + 1;
  }

  // ---- products ----

  lemma {:induction false} ValSnoc(s: seq<int>, k: nat)
    requires k < |s|
    ensures Val(s[..k + 1]) == Val(s[..k]) + BPow(k) * s[k]
  {
    ValSplit(s[..k + 1], k);
    assert s[..k + 1][..k] == s[..k] && s[..k + 1][k..] == [s[k]];
    assert [s[k]][1..] == [];
    assert Val([s[k]]) == s[k];
  }

  lemma {:induction false} Term(t: seq<int>, i: nat, j: nat, x: int, y: int, before: int, bs: int)
    requires i + j < |t| && Val(t) == before + BPow(i) * (x * bs)
    ensures Val(t[i + j := t[i + j] + x * y]) == before + BPow(i) * (x * (bs + BPow(j) * y))
  {
    hide Val;
    ValPut(t, i + j, t[i + j] + x * y);
    BPowAdd(i, j);
    hide BPow;
    var p, q := BPow(i), BPow(j);
    assert (p * q) * (x * y) == p * (x * (q * y)) by { Shuffle(p, q, x, y); }
    assert p * (x * (bs + q * y)) == p * (x * bs) + p * (x * (q * y)) by { Spread3(p, x, bs, q * y); }
  }

  lemma {:induction false} Shuffle(p: int, q: int, x: int, y: int)
    ensures (p * q) * (x * y) == p * (x * (q * y))
  {
    assert (p * q) * (x * y) == p * (q * (x * y));
    assert q * (x * y) == x * (q * y);
  }

  lemma {:induction false} Spread3(p: int, x: int, u: int, v: int)
    ensures p * (x * (u + v)) == p * (x * u) + p * (x * v)
  {
    assert x * (u + v) == x * u + x * v;
  }

  lemma {:induction false} MulMonotone(a: int, b: int, l: int)
    requires 0 <= a <= l && 0 <= b <= l
    ensures 0 <= a * b <= l * l
  {
    assert l * b == a * b + (l - a) * b;
    assert l * l == l * b + l * (l - b);
  }

  /** A product of two limbs up to 2^26. */
  lemma {:induction false} ProductBound(x: int, y: int)
    requires -LIMB26 <= x <= LIMB26 && -LIMB26 <= y <= LIMB26
    ensures -0x10_0000_0000_0000 <= x * y <= 0x10_0000_0000_0000
  {
    var a, b := if x < 0 then -x else x, if y < 0 then -y else y;
    MulMonotone(a, b, LIMB26);
    Signs(x, y, a, b);
  }

  lemma {:induction false} Signs(x: int, y: int, a: int, b: int)
    requires (a == x || a == -x) && (b == y || b == -y)
    ensures x * y == a * b || x * y == -(a * b)
  {
  }

  /** Bounds on the partial sums: columns below `cut` have had one product more. */
  ghost predicate Sums(t: seq<int>, rows: nat, lo: nat, hi: nat)
  {
    |t| == 31 && forall k :: 0 <= k < 31 ==>
      var n := if lo <= k < hi then rows + 1 else rows;
      -(n * 0x10_0000_0000_0000) <= t[k] <= n * 0x10_0000_0000_0000
  }

  lemma {:induction false} SumsStep(t: seq<int>, rows: nat, j: nat, d: int)
    requires Sums(t, rows, rows, rows + j) && rows + j < 31 && rows <= 15
    requires -0x10_0000_0000_0000 <= d <= 0x10_0000_0000_0000
    ensures Sums(t[rows + j := t[rows + j] + d], rows, rows, rows + j + 1)
    ensures -0x100_0000_0000_0000 <= t[rows + j] + d <= 0x100_0000_0000_0000
  {
    assert -(rows * 0x10_0000_0000_0000) <= t[rows + j] <= rows * 0x10_0000_0000_0000;
  }

  lemma {:induction false} SumsRow(t: seq<int>, rows: nat, hi: nat)
    requires Sums(t, rows, rows, hi)
    ensures Sums(t, rows + 1, 0, 0)
  {
  }

  /** One row: `a[i]` times all of `b`. */
  method Row(t: array<int>, i: nat, x: int, b: array<int>)
    requires t.Length == 31 && b.Length == 16 && i < 16 && t != b && Within(b[..], LIMB26) && -LIMB26 <= x <= LIMB26
    requires Sums(t[..], i, 0, 0)
    modifies t
    ensures Sums(t[..], i + 1, 0, 0) && Val(t[..]) == old(Val(t[..])) + BPow(i) * (x * Val(b[..]))
  {
    hide Val, BPow, Sums;
    ghost var before := Val(t[..]);
    assert Val(b[..0]) == 0 by { ValNone(b[..0]); }
    assert Sums(t[..], i, i, i + 0) by { SumsAny(t[..], i); }
    for j := 0 to 16
      invariant Sums(t[..], i, i, i + j) && Val(t[..]) == before + BPow(i) * (x * Val(b[..j]))
    {
      ghost var s := t[..];
      ProductBound(x, b[j]);
      SumsStep(s, i, j, x * b[j]);
      Term(s, i, j, x, b[j], before, Val(b[..j]));
      ValSnoc(b[..], j);
      assert b[..][..j + 1] == b[..j + 1] && b[..][..j] == b[..j];
      t[i + j] := I64(t[i + j] + I64(x * b[j]));
      assert t[..] == s[i + j := s[i + j] + x * b[j]];
    }
    assert b[..16] == b[..];
    SumsRow(t[..], i, i + 16);
  }

  lemma {:induction false} SumsAny(t: seq<int>, i: nat)
    requires Sums(t, i, 0, 0)
    ensures Sums(t, i, i, i)
  {
  }

  lemma {:induction false} ValNone(s: seq<int>)
    requires s == []
    ensures Val(s) == 0
  {
  }

  lemma {:induction false} ValZeros(s: seq<int>)
    requires forall k :: 0 <= k < |s| ==> s[k] == 0
    ensures Val(s) == 0
    decreases |s|
  {
    if s != [] { ValZeros(s[1..]); }
  }

  /** Schoolbook multiplication into 31 columns. */
  method Columns(a: array<int>, b: array<int>) returns (t: array<int>)
    requires a.Length == 16 && b.Length == 16 && Within(a[..], LIMB26) && Within(b[..], LIMB26)
    ensures fresh(t) && t.Length == 31 && Sums(t[..], 16, 0, 0) && Val(t[..]) == Val(a[..]) * Val(b[..])
  {
    hide Val, BPow;
    t := new int[31](_ => 0);
    ValZeros(t[..]);
    ValNone(a[..0]);
    for i := 0 to 16
      invariant Sums(t[..], i, 0, 0) && Val(t[..]) == Val(a[..i]) * Val(b[..])
    {
      ValSnoc(a[..], i);
      assert a[..][..i + 1] == a[..i + 1] && a[..][..i] == a[..i];
      RowAdds(Val(a[..i]), BPow(i), a[i], Val(b[..]));
      Row(t, i, a[i], b);
    }
    assert a[..16] == a[..];
  }

  lemma {:induction false} RowAdds(x: int, p: int, y: int, z: int)
    ensures (x + p * y) * z == x * z + p * (y * z)
  {
    assert (x + p * y) * z == x * z + (p * y) * z;
  }

  // ---- folding ----

  function Folded(t: seq<int>): (r: seq<int>)
    requires |t| == 31
    ensures |r| == 16
  {
    seq(16, i requires 0 <= i < 16 => if i < 15 then t[i] + 38 * t[i + 16] else t[i])
  }

  lemma {:induction false} ValLinear(x: seq<int>, y: seq<int>, r: seq<int>)
    requires |x| == |r| && |y| <= |x|
    requires forall i :: 0 <= i < |x| ==> r[i] == x[i] + if i < |y| then 38 * y[i] else 0
    ensures Val(r) == Val(x) + 38 * Val(y)
    decreases |x|
  {
    if x != [] {
      if y == [] { assert r == x; } else { ValLinear(x[1..], y[1..], r[1..]); }
    }
  }

  lemma {:induction false} FoldVal(t: seq<int>)
    requires |t| == 31
    ensures Same(Val(Folded(t)), Val(t))
  {
    hide Val, BPow, Same;
    ValSplit(t, 16);
    ValLinear(t[..16], t[16..], Folded(t));
    Wraps();
    var v := Val(t[16..]);
    assert (2 * P + 38) * v == 2 * v * P + 38 * v;
    SameBy(Val(Folded(t)), Val(t), -2 * v);
  }

  lemma {:induction false} FoldBound(t: seq<int>)
    requires Sums(t, 16, 0, 0)
    ensures |t| == 31 && Within(Folded(t), 0x2700_0000_0000_0000)
  {
  }

  /** What is known of a product's limbs. */
  ghost predicate Limbs17(s: seq<int>)
  {
    Tidy(s, 1, 16) && -38 <= s[0] < BASE + 38
  }

  /** `ed_M`: for limbs up to 2^26 nothing overflows, the result is the product modulo the prime,
      and its limbs are below 2^17. The result may be one of the factors. */
  method Mul(o: array<int>, a: array<int>, b: array<int>)
    requires o.Length == 16 && a.Length == 16 && b.Length == 16 && Within(a[..], LIMB26) && Within(b[..], LIMB26)
    modifies o
    ensures Limbs17(o[..]) && Within(o[..], LIMB17) && Same(Val(o[..]), old(Val(a[..])) * old(Val(b[..])))
  {
    hide Val, Same, CarryTo;
    var t := Columns(a, b);
    ghost var cols := t[..];
    FoldVal(cols);
    FoldBound(cols);
    for i := 0 to 15
      invariant t[16..] == cols[16..] && t[i..16] == cols[i..16] && forall k :: 0 <= k < i ==> t[k] == Folded(cols)[k]
    {
      FoldStep(cols, i);
      assert t[i] == t[i..16][0] && t[i + 16] == t[16..][i];
      t[i] := I64(t[i] + I64(38 * t[i + 16]));
    }
    for i := 0 to 16
      invariant t[..16] == Folded(cols) && o[..i] == Folded(cols)[..i]
    {
      assert t[i] == t[..16][i];
      o[i] := t[i];
    }
    ghost var s := Folded(cols);
    assert o[..] == s;
    CarriedBound(s, 0x2700_0000_0000_0000, 0x2800_0000_0000);
    Car(o);
    ghost var r := o[..];
    CarryVal(s, 16);
    Car(o);
    Spread(r);
    CarryVal(r, 16);
    MulSame(Val(o[..]), Val(r), Val(s), Val(cols));
  }

  lemma {:induction false} FoldStep(t: seq<int>, i: nat)
    requires Sums(t, 16, 0, 0) && i < 15
    ensures |t| == 31 && Folded(t)[i] == t[i] + 38 * t[i + 16]
    ensures -0x2700_0000_0000_0000 <= 38 * t[i + 16] <= 0x2700_0000_0000_0000
    ensures -0x2700_0000_0000_0000 <= t[i] + 38 * t[i + 16] <= 0x2700_0000_0000_0000
  {
  }

  lemma {:induction false} MulSame(a: int, b: int, c: int, d: int)
    requires Same(a, b) && Same(b, c) && Same(c, d)
    ensures Same(a, d)
  {
  }

  // ---- sums ----

  lemma {:induction false} ValSum(x: seq<int>, y: seq<int>, r: seq<int>, k: int)
    requires |x| == |y| == |r| && forall i :: 0 <= i < |x| ==> r[i] == x[i] + k * y[i]
    ensures Val(r) == Val(x) + k * Val(y)
    decreases |x|
  {
    if x != [] {
      ValSum(x[1..], y[1..], r[1..], k);
      var v := Val(y[1..]);
      assert k * (y[0] + BASE * v) == k * y[0] + BASE * (k * v);
    }
  }

  /** `ed_A`: limb by limb, without carrying; sums of products stay factors. */
  method Add(o: array<int>, a: array<int>, b: array<int>)
    requires o.Length == 16 && a.Length == 16 && b.Length == 16 && Within(a[..], LIMB26 / 2)
    requires Within(b[..], LIMB26 / 2)
    modifies o
    ensures Within(o[..], LIMB26) && Val(o[..]) == old(Val(a[..])) + old(Val(b[..]))
  {
    hide Val;
    ghost var x, y := a[..], b[..];
    for i := 0 to 16
      invariant forall j :: 0 <= j < i ==> o[j] == x[j] + y[j]
      invariant forall j :: i <= j < 16 ==> a[j] == x[j] && b[j] == y[j]
    {
      o[i] := I64(a[i] + b[i]);
    }
    ValSum(x, y, o[..], 1);
  }

  /** `ed_Z` */
  method Minus(o: array<int>, a: array<int>, b: array<int>)
    requires o.Length == 16 && a.Length == 16 && b.Length == 16 && Within(a[..], LIMB26 / 2)
    requires Within(b[..], LIMB26 / 2)
    modifies o
    ensures Within(o[..], LIMB26) && Val(o[..]) == old(Val(a[..])) - old(Val(b[..]))
  {
    hide Val;
    ghost var x, y := a[..], b[..];
    for i := 0 to 16
      invariant forall j :: 0 <= j < i ==> o[j] == x[j] - y[j]
      invariant forall j :: i <= j < 16 ==> a[j] == x[j] && b[j] == y[j]
    {
      o[i] := I64(a[i] - b[i]);
    }
    ValSum(x, y, o[..], -1);
  }
}
