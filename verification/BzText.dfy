/** Texts that count on one odometer after another: their sorted rotations and their last column. */
module BzText {
  import opened Bits
  import opened BzBwt
  import opened BzOdometer
  import opened BzWheels
  import opened BzOrder
  import opened BzHits
  import opened BzMtf

  // ---------------------------------------------------------------------- the text

  /** The first `n` numbers written out. */
  function Numbers(base: nat, xs: seq<nat>, n: nat): (r: seq<Byte>)
    requires Wheels(xs) && n <= Prod(xs) && base + Start(xs, |xs|) <= 256
    ensures |r| == Place(0, |xs|, n)
  {
    if n == 0 then [] else
      NextPlace(0, |xs|, n - 1);
      Numbers(base, xs, n - 1) + Tuple(base, xs, n - 1)
  }

  lemma {:induction false} PlaceMono(at: nat, w: nat, i: nat, n: nat)
    requires i <= n
    ensures Place(at, w, i) <= Place(at, w, n)
  {
    MulGrows(i, n, w);
  }

  lemma {:induction false} NumbersUnfold(base: nat, xs: seq<nat>, n: nat)
    requires Wheels(xs) && 0 < n <= Prod(xs) && base + Start(xs, |xs|) <= 256
    ensures Numbers(base, xs, n) == Numbers(base, xs, n - 1) + Tuple(base, xs, n - 1)
  {
  }

  lemma {:induction false} SliceLeft(a: seq<Byte>, b: seq<Byte>, p: nat, q: nat)
    requires p <= q <= |a|
    ensures (a + b)[p..q] == a[p..q]
  {
  }

  lemma {:induction false} SliceRight(a: seq<Byte>, b: seq<Byte>)
    ensures (a + b)[|a|..|a| + |b|] == b
  {
  }

  lemma {:induction false} NumbersAt(base: nat, xs: seq<nat>, n: nat, i: nat)
    requires Wheels(xs) && i < n <= Prod(xs) && base + Start(xs, |xs|) <= 256
    ensures Place(0, |xs|, i) + |xs| <= |Numbers(base, xs, n)|
    ensures Numbers(base, xs, n)[Place(0, |xs|, i)..Place(0, |xs|, i) + |xs|] == Tuple(base, xs, i)
    decreases n
  {
    hide Prod, Start, Place, Tuple, Numbers;
    var w := |xs|;
    NextPlace(0, w, i);
    PlaceMono(0, w, i + 1, n);
    NumbersUnfold(base, xs, n);
    var a, b := Numbers(base, xs, n - 1), Tuple(base, xs, n - 1);
    if i < n - 1 {
      NumbersAt(base, xs, n - 1, i);
      SliceLeft(a, b, Place(0, w, i), Place(0, w, i) + w);
    } else {
      SliceRight(a, b);
    }
  }

  ghost predicate Machines(xss: seq<seq<nat>>)
  {
    forall c :: 0 <= c < |xss| ==> Wheels(xss[c]) && xss[c] != []
  }

  /** How many letters they need. */
  function Letters(xss: seq<seq<nat>>): nat
  {
    if xss == [] then 0 else Start(xss[0], |xss[0]|) + Letters(xss[1..])
  }

  /** One odometer after another, each with letters above the ones before. */
  function Text(xss: seq<seq<nat>>, base: nat): seq<Byte>
    requires Machines(xss) && base + Letters(xss) <= 256
  {
    if xss == [] then []
    else Numbers(base, xss[0], Prod(xss[0])) + Text(xss[1..], base + Start(xss[0], |xss[0]|))
  }

  /** The last odometer counts only one number. */
  predicate Ends(xss: seq<seq<nat>>)
  {
    xss != [] && Prod(xss[|xss| - 1]) == 1
  }

  lemma {:induction false} FirstLetter(xss: seq<seq<nat>>, base: nat)
    requires Machines(xss) && base + Letters(xss) <= 256 && xss != []
    ensures Text(xss, base) != [] && Text(xss, base)[0] >= base
  {
    hide Prod, Start, Place, Tuple, Numbers, Letters;
    LettersUnfold(xss);
    var xs := xss[0];
    ProdPositive(xs);
    NumbersAt(base, xs, Prod(xs), 0);
    PlaceZero(0, |xs|);
    LetterIn(base, xs, 0, 0);
    var r := Numbers(base, xs, Prod(xs));
    assert r[0] == r[0..|xs|][0] == Tuple(base, xs, 0)[0];
  }

  lemma {:induction false} LettersUnfold(xss: seq<seq<nat>>)
    requires xss != []
    ensures Letters(xss) == Start(xss[0], |xss[0]|) + Letters(xss[1..])
  {
  }

  lemma {:induction false} TextUnfold(xss: seq<seq<nat>>, base: nat)
    requires Machines(xss) && xss != [] && base + Letters(xss) <= 256
    ensures Machines(xss[1..]) && base + Start(xss[0], |xss[0]|) + Letters(xss[1..]) <= 256
    ensures Text(xss, base) == Numbers(base, xss[0], Prod(xss[0])) + Text(xss[1..], base + Start(xss[0], |xss[0]|))
  {
  }

  lemma {:induction false} SliceOn(s: seq<Byte>, at: nat, r: seq<Byte>, rest: seq<Byte>)
    requires at <= |s| && s[at..] == r + rest
    ensures at + |r| <= |s| && s[at + |r|..] == rest && s[at..at + |r|] == r
  {
    assert s[at..at + |r|] == (r + rest)[..|r|];
    assert s[at + |r|..] == (r + rest)[|r|..];
  }

  lemma {:induction false} SliceIn(s: seq<Byte>, at: nat, r: seq<Byte>, p: nat, w: nat)
    requires at + |r| <= |s| && s[at..at + |r|] == r && p + w <= |r|
    ensures s[at + p..at + p + w] == r[p..p + w]
  {
    var x, y := s[at + p..at + p + w], r[p..p + w];
    forall i | 0 <= i < w ensures x[i] == y[i] { assert s[at..at + |r|][p + i] == s[at + (p + i)]; }
  }

  lemma {:induction false} PlaceShift(at: nat, w: nat, i: nat)
    ensures Place(at, w, i) == at + Place(0, w, i)
  {
  }

  /** The first odometer of the rest of a text. */
  lemma {:induction false} TextCounts(s: seq<Byte>, at: nat, xss: seq<seq<nat>>, base: nat)
    requires Machines(xss) && base + Letters(xss) <= 256 && Ends(xss) && at <= |s| && s[at..] == Text(xss, base)
    ensures Counts(s, at, base, xss[0])
    ensures Place(at, |xss[0]|, Prod(xss[0])) <= |s|
    ensures s[Place(at, |xss[0]|, Prod(xss[0]))..] == Text(xss[1..], base + Start(xss[0], |xss[0]|))
  {
    hide Prod, Start, Tuple, Numbers, Letters, Text, Place;
    TextUnfold(xss, base);
    LettersUnfold(xss);
    var xs := xss[0];
    var n, w := Prod(xs), |xs|;
    var r, rest := Numbers(base, xs, n), Text(xss[1..], base + Start(xs, w));
    PlaceShift(at, w, n);
    SliceOn(s, at, r, rest);
    forall i | 0 <= i < n ensures BzWheels.Written(s, at, base, xs, i) {
      NumbersAt(base, xs, n, i);
      PlaceShift(at, w, i);
      SliceIn(s, at, r, Place(0, w, i), w);
    }
    if n > 1 {
      FirstLetter(xss[1..], base + Start(xs, w));
      assert s[at + |r|] == s[at + |r|..][0];
    }
  }

  // --------------------------------------------------------------- its rotations, sorted

  /** The rotations on the wheels from `j` on. */
  function Rows(at: nat, xs: seq<nat>, j: nat): (idx: seq<nat>)
    requires Wheels(xs) && j <= |xs|
    decreases |xs| - j
  {
    if j == |xs| then [] else Wheel(at, xs, j) + Rows(at, xs, j + 1)
  }

  lemma {:induction false} RowsAscend(s: seq<Byte>, at: nat, base: nat, xs: seq<nat>, j: nat)
    requires Counts(s, at, base, xs) && j <= |xs|
    ensures Ascending(s, Rows(at, xs, j)) && Within(s, Rows(at, xs, j), base + Start(xs, j), base + Start(xs, |xs|))
    ensures |Rows(at, xs, j)| == Place(0, Prod(xs), |xs| - j)
    decreases |xs| - j
  {
    hide Prod, Start, Place, Ascending, Within, Counts, Wheel;
    if j == |xs| {
      Nothing(s, base + Start(xs, j), base + Start(xs, j));
      PlaceZero(0, Prod(xs));
    } else {
      CountsWheels(s, at, base, xs);
      WheelAscends(s, at, base, xs, j);
      RowsAscend(s, at, base, xs, j + 1);
      NextPlace(0, Prod(xs), |xs| - j - 1);
      StartMono(xs, j, j + 1);
      StartMono(xs, j + 1, |xs|);
      AscendAppend(s, Wheel(at, xs, j), Rows(at, xs, j + 1), base + Start(xs, j), base + Start(xs, j + 1),
        base + Start(xs, |xs|));
    }
  }

  lemma {:induction false} Nothing(s: seq<Byte>, lo: nat, hi: nat)
    ensures Ascending(s, []) && Within(s, [], lo, hi)
  {
  }

  lemma {:induction false} CountsWheels(s: seq<Byte>, at: nat, base: nat, xs: seq<nat>)
    requires Counts(s, at, base, xs)
    ensures Wheels(xs) && xs != []
  {
  }

  function Order(xss: seq<seq<nat>>, at: nat): (idx: seq<nat>)
    requires Machines(xss)
  {
    if xss == [] then [] else Rows(at, xss[0], 0) + Order(xss[1..], Place(at, |xss[0]|, Prod(xss[0])))
  }

  lemma {:induction false} OrderAscends(s: seq<Byte>, at: nat, xss: seq<seq<nat>>, base: nat)
    requires Machines(xss) && base + Letters(xss) <= 256 && (xss == [] || Ends(xss)) && at <= |s|
    requires s[at..] == Text(xss, base)
    ensures Ascending(s, Order(xss, at)) && Within(s, Order(xss, at), base, base + Letters(xss))
    ensures |Order(xss, at)| == |s| - at
    decreases |xss|
  {
    hide Prod, Start, Place, Ascending, Within, Counts, Rows, Letters, Text;
    if xss == [] {
      Nothing(s, base, base + Letters(xss));
      NoText(base);
    } else {
      LettersUnfold(xss);
      var xs := xss[0];
      var t := base + Start(xs, |xs|);
      TextCounts(s, at, xss, base);
      TextUnfold(xss, base);
      RowsAscend(s, at, base, xs, 0);
      StartZero(xs);
      RestEnds(xss);
      OrderAscends(s, Place(at, |xs|, Prod(xs)), xss[1..], t);
      AscendAppend(s, Rows(at, xs, 0), Order(xss[1..], Place(at, |xs|, Prod(xs))), base, t, base + Letters(xss));
      PlaceTwice(at, |xs|, Prod(xs));
    }
  }

  lemma {:induction false} PlaceTwice(at: nat, w: nat, n: nat)
    ensures Place(at, w, n) == at + Place(0, n, w)
  {
  }

  lemma {:induction false} StartZero(xs: seq<nat>)
    ensures Start(xs, 0) == 0
  {
  }

  lemma {:induction false} NoText(base: nat)
    requires base <= 256
    ensures Letters([]) == 0 && Text([], base) == []
  {
  }

  lemma {:induction false} RestEnds(xss: seq<seq<nat>>)
    requires Ends(xss)
    ensures xss[1..] == [] || Ends(xss[1..])
  {
    hide Prod;
  }

  // ------------------------------------------------------------- its last column

  /** The letters before the rotations. */
  function Preceding(s: seq<Byte>, idx: seq<nat>): (l: seq<nat>)
    requires forall u :: 0 <= u < |idx| ==> idx[u] < |s|
    ensures |l| == |idx| && forall u :: 0 <= u < |idx| ==> l[u] == s[Pred(|s|, idx[u])]
  {
    seq(|idx|, u requires 0 <= u < |idx| => s[Pred(|s|, idx[u])])
  }

  lemma {:induction false} PrecedingAppend(s: seq<Byte>, a: seq<nat>, b: seq<nat>)
    requires (forall u :: 0 <= u < |a| ==> a[u] < |s|) && (forall u :: 0 <= u < |b| ==> b[u] < |s|)
    ensures (forall u :: 0 <= u < |a + b| ==> (a + b)[u] < |s|)
    ensures Preceding(s, a + b) == Preceding(s, a) + Preceding(s, b)
  {
  }

  /** Before the wheels from `j >= 1` on, the letters of the wheel before go round. */
  function Cycles(base: nat, xs: seq<nat>, j: nat): seq<nat>
    requires Wheels(xs) && 1 <= j <= |xs|
    decreases |xs| - j
  {
    if j == |xs| then [] else Cycle(base + Start(xs, j - 1), xs[j - 1], 0, Prod(xs)) + Cycles(base, xs, j + 1)
  }

  lemma {:induction false} RowsInside(s: seq<Byte>, at: nat, base: nat, xs: seq<nat>, j: nat)
    requires Counts(s, at, base, xs) && j <= |xs|
    ensures Wheels(xs) && forall u :: 0 <= u < |Rows(at, xs, j)| ==> Rows(at, xs, j)[u] < |s|
  {
    hide Prod, Start, Place, Rows;
    RowsAscend(s, at, base, xs, j);
  }

  lemma {:induction false} WheelInside(s: seq<Byte>, at: nat, base: nat, xs: seq<nat>, j: nat)
    requires Counts(s, at, base, xs) && j < |xs|
    ensures Wheels(xs) && forall u :: 0 <= u < |Wheel(at, xs, j)| ==> Wheel(at, xs, j)[u] < |s|
  {
    hide Prod, Start, Place, Wheel;
    WheelAscends(s, at, base, xs, j);
  }

  lemma {:induction false} CyclesPrecede(s: seq<Byte>, at: nat, base: nat, xs: seq<nat>, j: nat)
    requires Counts(s, at, base, xs) && 1 <= j <= |xs|
    ensures forall u :: 0 <= u < |Rows(at, xs, j)| ==> Rows(at, xs, j)[u] < |s|
    ensures Preceding(s, Rows(at, xs, j)) == Cycles(base, xs, j)
    decreases |xs| - j
  {
    hide Prod, Start, Place, Wheel, Row, Written;
    RowsInside(s, at, base, xs, j);
    if j < |xs| {
      WheelInside(s, at, base, xs, j);
      CyclesPrecede(s, at, base, xs, j + 1);
      var a := Wheel(at, xs, j);
      PrecedingAppend(s, a, Rows(at, xs, j + 1));
      var c := Cycle(base + Start(xs, j - 1), xs[j - 1], 0, Prod(xs));
      forall r | 0 <= r < Prod(xs) ensures Preceding(s, a)[r] == c[r] {
        LetterBefore(s, at, base, xs, j, r);
      }
      assert Preceding(s, a) == c;
    }
  }

  /** Before the first wheel: one letter, and then those of the last wheel go round. */
  lemma {:induction false} FirstPrecedes(s: seq<Byte>, at: nat, base: nat, xs: seq<nat>)
    requires Counts(s, at, base, xs)
    ensures xs != [] && Prod(xs) > 0 && Wheels(xs)
    ensures forall u :: 0 <= u < |Wheel(at, xs, 0)| ==> Wheel(at, xs, 0)[u] < |s|
    ensures Preceding(s, Wheel(at, xs, 0))[1..] == Cycle(base + Start(xs, |xs| - 1), xs[|xs| - 1], 0, Prod(xs) - 1)
  {
    hide Prod, Start, Place, Wheel, Row, Written;
    ProdPositive(xs);
    WheelInside(s, at, base, xs, 0);
    var a, n := Wheel(at, xs, 0), Prod(xs);
    var l, c := Preceding(s, a), Cycle(base + Start(xs, |xs| - 1), xs[|xs| - 1], 0, n - 1);
    forall r | 1 <= r < n ensures l[r] == c[r - 1] {
      FirstWheel(s, at, base, xs, r);
    }
  }

  /** A column of the kind such a text has. */
  ghost predicate Column(l: seq<nat>, xss: seq<seq<nat>>, base: nat)
    requires Machines(xss)
    decreases |xss|
  {
    if xss == [] then l == []
    else
      var xs, n := xss[0], Prod(xss[0]);
      && 0 < n <= |l| && n + |Cycles(base, xs, 1)| <= |l|
      && l[1..n] == Cycle(base + Start(xs, |xs| - 1), xs[|xs| - 1], 0, n - 1)
      && l[n..n + |Cycles(base, xs, 1)|] == Cycles(base, xs, 1)
      && Column(l[n + |Cycles(base, xs, 1)|..], xss[1..], base + Start(xs, |xs|))
  }

  /** One letter, and then those of the last wheel. */
  ghost predicate FirstCycle(a: seq<nat>, base: nat, xs: seq<nat>)
    requires Wheels(xs) && xs != []
  {
    |a| == Prod(xs) > 0 && a[1..] == Cycle(base + Start(xs, |xs| - 1), xs[|xs| - 1], 0, Prod(xs) - 1)
  }

  /** The columns of an odometer and of what follows it. */
  lemma {:induction false} ColumnJoin(l: seq<nat>, a: seq<nat>, b: seq<nat>, c: seq<nat>, xss: seq<seq<nat>>, base: nat)
    requires Machines(xss) && xss != [] && l == (a + b) + c && FirstCycle(a, base, xss[0])
    requires b == Cycles(base, xss[0], 1)
    requires Column(c, xss[1..], base + Start(xss[0], |xss[0]|))
    ensures Column(l, xss, base)
  {
    hide Prod, Start, Cycles, Cycle;
    Pieces(a, b, c, l);
  }

  /** The letters before the rotations on one odometer. */
  lemma {:induction false} OnePrecedes(s: seq<Byte>, at: nat, base: nat, xs: seq<nat>) returns (a: seq<nat>,
      b: seq<nat>)
    requires Counts(s, at, base, xs)
    ensures Wheels(xs) && xs != [] && FirstCycle(a, base, xs)
    ensures forall u :: 0 <= u < |Rows(at, xs, 0)| ==> Rows(at, xs, 0)[u] < |s|
    ensures Preceding(s, Rows(at, xs, 0)) == a + b && b == Cycles(base, xs, 1)
  {
    hide Prod, Start, Place, Rows, Cycles, Counts, Wheel, Cycle, Preceding;
    CountsWheels(s, at, base, xs);
    RowsInside(s, at, base, xs, 0);
    FirstPrecedes(s, at, base, xs);
    CyclesPrecede(s, at, base, xs, 1);
    RowsUnfold(at, xs);
    PrecedingAppend(s, Wheel(at, xs, 0), Rows(at, xs, 1));
    a, b := Preceding(s, Wheel(at, xs, 0)), Preceding(s, Rows(at, xs, 1));
  }

  lemma {:induction false} ColumnOf(s: seq<Byte>, at: nat, xss: seq<seq<nat>>, base: nat)
    requires Machines(xss) && base + Letters(xss) <= 256 && (xss == [] || Ends(xss)) && at <= |s|
    requires s[at..] == Text(xss, base)
    ensures forall u :: 0 <= u < |Order(xss, at)| ==> Order(xss, at)[u] < |s|
    ensures Column(Preceding(s, Order(xss, at)), xss, base)
    decreases |xss|
  {
    hide Prod, Start, Place, Rows, Letters, Text, Cycles, Counts, FirstCycle, Preceding, Column, Order;
    OrderInside(s, at, xss, base);
    if xss == [] {
      NoColumn(s, base);
      NoOrder(at);
    } else {
      LettersUnfold(xss);
      var xs := xss[0];
      TextCounts(s, at, xss, base);
      TextUnfold(xss, base);
      RestEnds(xss);
      var e := Place(at, |xs|, Prod(xs));
      ColumnOf(s, e, xss[1..], base + Start(xs, |xs|));
      var a, b := OnePrecedes(s, at, base, xs);
      OrderUnfold(xss, at);
      PrecedingAppend(s, Rows(at, xs, 0), Order(xss[1..], e));
      var c, l := Preceding(s, Order(xss[1..], e)), Preceding(s, Order(xss, at));
      assert l == (a + b) + c;
      ColumnJoin(l, a, b, c, xss, base);
    }
  }

  lemma {:induction false} OrderInside(s: seq<Byte>, at: nat, xss: seq<seq<nat>>, base: nat)
    requires Machines(xss) && base + Letters(xss) <= 256 && (xss == [] || Ends(xss)) && at <= |s|
    requires s[at..] == Text(xss, base)
    ensures forall u :: 0 <= u < |Order(xss, at)| ==> Order(xss, at)[u] < |s|
  {
    hide Prod, Start, Letters, Text, Order, RowBefore;
    OrderAscends(s, at, xss, base);
  }

  lemma {:induction false} OrderUnfold(xss: seq<seq<nat>>, at: nat)
    requires Machines(xss) && xss != []
    ensures Order(xss, at) == Rows(at, xss[0], 0) + Order(xss[1..], Place(at, |xss[0]|, Prod(xss[0])))
  {
    hide Prod, Rows, Place;
  }

  lemma {:induction false} NoOrder(at: nat)
    ensures Order([], at) == []
  {
  }

  lemma {:induction false} NoColumn(s: seq<Byte>, base: nat)
    ensures Column(Preceding(s, []), [], base)
  {
  }

  lemma {:induction false} RowsUnfold(at: nat, xs: seq<nat>)
    requires Wheels(xs) && xs != []
    ensures Rows(at, xs, 0) == Wheel(at, xs, 0) + Rows(at, xs, 1) && |Wheel(at, xs, 0)| == Prod(xs)
  {
    hide Prod;
  }

  lemma {:induction false} Pieces(a: seq<nat>, b: seq<nat>, c: seq<nat>, l: seq<nat>)
    requires l == (a + b) + c && a != []
    ensures l[1..|a|] == a[1..] && l[|a|..|a| + |b|] == b && l[|a| + |b|..] == c
  {
  }
}
