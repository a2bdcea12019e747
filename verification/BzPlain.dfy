/** What an odometer text looks like to the stages around the sort: no two equal letters follow each
    other, and all its letters are in use. */
module BzPlain {
  import opened Bits
  import opened BzFormat
  import opened BzOdometer
  import opened BzWheels
  import opened BzOrder
  import opened BzText
  import BzRle1

  // ----------------------------------------------------------------- no runs

  ghost predicate NoPairs(s: seq<Byte>)
  {
    forall p :: 0 <= p < |s| - 1 ==> s[p] != s[p + 1]
  }

  /** Without runs the first stage changes nothing. */
  lemma {:induction false} EncodePlain(s: seq<Byte>, prev: int, rl: nat)
    requires NoPairs(s) && (s != [] ==> s[0] != prev)
    ensures BzRle1.Encode(s, prev, rl) == s
    decreases |s|
  {
    if s != [] {
      var t := s[1..];
      assert forall p :: 0 <= p < |t| ==> t[p] == s[p + 1];
      EncodePlain(t, s[0], 1);
      assert s == [s[0]] + t;
    }
  }

  lemma {:induction false} NoPairsAppend(a: seq<Byte>, b: seq<Byte>)
    requires NoPairs(a) && NoPairs(b) && (a != [] && b != [] ==> a[|a| - 1] != b[0])
    ensures NoPairs(a + b)
  {
    var c := a + b;
    forall p | 0 <= p < |c| - 1 ensures c[p] != c[p + 1] {
      if p + 1 < |a| {
        assert a[p] != a[p + 1];
      } else if p >= |a| {
        assert b[p - |a|] != b[p - |a| + 1];
      }
    }
  }

  lemma {:induction false} TupleAscends(base: nat, xs: seq<nat>, i: nat)
    requires Wheels(xs) && i < Prod(xs) && base + Start(xs, |xs|) <= 256
    ensures NoPairs(Tuple(base, xs, i))
  {
    hide Prod, Digits, Start;
    var t := Tuple(base, xs, i);
    forall p | 0 <= p < |t| - 1 ensures t[p] != t[p + 1] {
      LetterIn(base, xs, i, p);
      LetterIn(base, xs, i, p + 1);
    }
  }

  lemma {:induction false} NumbersPlain(base: nat, xs: seq<nat>, n: nat)
    requires Wheels(xs) && xs != [] && n <= Prod(xs) && base + Start(xs, |xs|) <= 256 && (|xs| >= 2 || Prod(xs) == 1)
    ensures NoPairs(Numbers(base, xs, n))
    decreases n
  {
    hide Prod, Start, Tuple, Place, Numbers;
    NoNumbers(base, xs);
    if n > 0 {
      NumbersPlain(base, xs, n - 1);
      NumbersUnfold(base, xs, n);
      TupleAscends(base, xs, n - 1);
      if n > 1 {
        NumbersUnfold(base, xs, n - 1);
        TuplesApart(base, xs, n - 2, n - 1);
      }
      NoPairsAppend(Numbers(base, xs, n - 1), Tuple(base, xs, n - 1));
    }
  }

  lemma {:induction false} NoNumbers(base: nat, xs: seq<nat>)
    requires Wheels(xs) && base + Start(xs, |xs|) <= 256
    ensures Numbers(base, xs, 0) == []
  {
  }

  lemma {:induction false} TuplesApart(base: nat, xs: seq<nat>, i: nat, k: nat)
    requires Wheels(xs) && |xs| >= 2 && i < Prod(xs) && k < Prod(xs) && base + Start(xs, |xs|) <= 256
    ensures Tuple(base, xs, i)[|xs| - 1] != Tuple(base, xs, k)[0]
  {
    hide Prod, Digits, Start;
    LetterIn(base, xs, i, |xs| - 1);
    LetterIn(base, xs, k, 0);
    StartMono(xs, 1, |xs| - 1);
  }

  /** The wheels of each odometer are several, or it counts one number only. */
  ghost predicate Spread(xss: seq<seq<nat>>)
  {
    forall c :: 0 <= c < |xss| ==> |xss[c]| >= 2 || Prod(xss[c]) == 1
  }

  lemma {:induction false} TextPlain(xss: seq<seq<nat>>, base: nat)
    requires Machines(xss) && Spread(xss) && base + Letters(xss) <= 256
    ensures NoPairs(Text(xss, base))
    decreases |xss|
  {
    hide Prod, Start, Tuple, Place, Numbers, Letters, Digits;
    if xss != [] {
      var xs := xss[0];
      TextUnfold(xss, base);
      LettersUnfold(xss);
      var t := base + Start(xs, |xs|);
      TextPlain(xss[1..], t);
      ProdPositive(xs);
      NumbersPlain(base, xs, Prod(xs));
      LetterIn(base, xs, Prod(xs) - 1, |xs| - 1);
      LastLetter(base, xs);
      NumbersUnfold(base, xs, Prod(xs));
      if xss[1..] != [] { FirstLetter(xss[1..], t); }
      NoPairsAppend(Numbers(base, xs, Prod(xs)), Text(xss[1..], t));
    }
  }

  lemma {:induction false} LastLetter(base: nat, xs: seq<nat>)
    requires Wheels(xs) && xs != [] && Prod(xs) > 0 && base + Start(xs, |xs|) <= 256
    ensures Tuple(base, xs, Prod(xs) - 1)[|xs| - 1] < base + Start(xs, |xs|)
  {
    hide Prod, Start, Digits;
    LetterIn(base, xs, Prod(xs) - 1, |xs| - 1);
  }

  // ------------------------------------------------------------- every letter is used

  lemma {:induction false} WheelOf(xs: seq<nat>, v: nat, n: nat) returns (j: nat)
    requires n <= |xs| && v < Start(xs, n)
    ensures j < n && Start(xs, j) <= v < Start(xs, j) + xs[j]
    decreases n
  {
    if v < Start(xs, n - 1) { j := WheelOf(xs, v, n - 1); } else { j := n - 1; }
  }

  lemma {:induction false} DigitShown(xs: seq<nat>, j: nat, d: nat) returns (i: nat)
    requires Wheels(xs) && j < |xs| && d < xs[j]
    ensures i < Prod(xs) && Digits(xs, i)[j] == d
  {
    hide Prod, Digits;
    var a, b := xs[..j + 1], xs[j + 1..];
    assert xs == a + b && Wheels(a) && Wheels(b) && Wheels(xs[..j]);
    ProdPositive(b);
    ProdPositive(xs[..j]);
    assert a == xs[..j] + [xs[j]];
    ProdAppend(xs[..j], [xs[j]]);
    One(xs[j]);
    MulGrows(1, Prod(xs[..j]), xs[j]);
    DigitsSplit(a, b, d, 0);
    LastDigit(a, d);
    DivUnique(d, xs[j], 0, d);
    i := d * Prod(b) + 0;
  }

  lemma {:induction false} LetterShown(xss: seq<seq<nat>>, base: nat, b: nat)
    requires Machines(xss) && base + Letters(xss) <= 256 && base <= b < base + Letters(xss)
    ensures b in Text(xss, base)
    decreases |xss|
  {
    hide Prod, Start, Tuple, Place, Numbers, Letters, Digits, Text;
    if xss == [] { NoText(base); assert false; }
    LettersUnfold(xss);
    TextUnfold(xss, base);
    var xs := xss[0];
    var t := base + Start(xs, |xs|);
    if b >= t {
      LetterShown(xss[1..], t, b);
    } else {
      var j := WheelOf(xs, b - base, |xs|);
      var i := DigitShown(xs, j, b - base - Start(xs, j));
      NumbersAt(base, xs, Prod(xs), i);
      TupleAt(base, xs, i, j);
      var r, p := Numbers(base, xs, Prod(xs)), Place(0, |xs|, i);
      assert r[p + j] == r[p..p + |xs|][j] == b;
    }
  }

  lemma {:induction false} TupleAt(base: nat, xs: seq<nat>, i: nat, j: nat)
    requires Wheels(xs) && i < Prod(xs) && base + Start(xs, |xs|) <= 256 && j < |xs|
    ensures Tuple(base, xs, i)[j] == base + Start(xs, j) + Digits(xs, i)[j]
  {
    hide Prod, Start, Digits;
  }

  /** The list of letters in use, when they are the first ones. */
  lemma {:induction false} ListFirst(flags: seq<bool>, n: nat)
    requires |flags| <= 256 && n <= |flags| && forall b :: 0 <= b < |flags| ==> flags[b] == (b < n)
    ensures |SymbolList(flags)| == n && forall b :: 0 <= b < n ==> SymbolList(flags)[b] == b
    decreases |flags|
  {
    if flags != [] {
      var k := |flags| - 1;
      ListFirst(flags[..k], if n <= k then n else k);
    }
  }
}
