/** An input of `compress` on which the length clamp bites: 132,089 bytes in one block whose Huffman
    tree is deeper than 17, so that some code of the block does not fit its length. */
module BzClamped {
  import opened Bits
  import opened Seqs
  import opened BzFormat
  import opened BzBlock
  import opened BzLengths
  import opened BzOdometer
  import opened BzWheels
  import opened BzOrder
  import opened BzText
  import opened BzPlain
  import opened BzHits
  import opened BzMtf
  import BzBwt
  import BzTree
  import BzDeep
  import BzUnBwt
  import BzRle1
  import Bzip2

  // ------------------------------------------------------- how often a symbol is hit

  function Monus(a: nat, b: nat): nat
  {
    if a < b then 0 else a - b
  }

  /** What the wheels of size `s` among those from `i` to `e` contribute. */
  function Share(xs: seq<nat>, s: nat, i: nat, e: nat): nat
    requires i <= e <= |xs|
    decreases e - i
  {
    if i == e then 0 else (if xs[i] == s then Monus(Prod(xs), s + 1) else 0) + Share(xs, s, i + 1, e)
  }

  function Shares(xss: seq<seq<nat>>, s: nat): nat
  {
    if xss == [] then 0 else Share(xss[0], s, 0, |xss[0]|) + Shares(xss[1..], s)
  }

  lemma {:induction false} ShareLast(xs: seq<nat>, s: nat, i: nat, e: nat)
    requires i <= e < |xs|
    ensures Share(xs, s, i, e + 1) == Share(xs, s, i, e) + if xs[e] == s then Monus(Prod(xs), s + 1) else 0
    decreases e - i
  {
    hide Prod;
    if i < e { ShareLast(xs, s, i + 1, e); }
  }

  lemma {:induction false} StartLatest(m: seq<nat>, base: nat, x: nat)
    requires x > 0
    ensures Latest(m, base, x, 0, 0)
  {
  }

  lemma {:induction false} CyclesHit(base: nat, xs: seq<nat>, j: nat, m: seq<nat>, s: nat)
    requires Wheels(xs) && 1 <= j <= |xs| && AllIn(Cycles(base, xs, j), m)
    ensures Hits(Cycles(base, xs, j), m, s) >= Share(xs, s, j - 1, |xs| - 1)
    decreases |xs| - j
  {
    hide Prod, Start, Hits, Moved, Cycle, Latest, AllIn;
    if j < |xs| {
      var x, n := xs[j - 1], Prod(xs);
      var a, b := Cycle(base + Start(xs, j - 1), x, 0, n), Cycles(base, xs, j + 1);
      assert Cycles(base, xs, j) == a + b;
      HitsAppend(a, b, m, s);
      CyclesHit(base, xs, j + 1, Moved(a, m), s);
      StartLatest(m, base + Start(xs, j - 1), x);
      CycleHits(m, base + Start(xs, j - 1), x, 0, 0, n);
    }
  }

  /** Each odometer's column hits the index of each of its wheels about as often as it counts. */
  lemma {:induction false} ColumnHits(l: seq<nat>, xss: seq<seq<nat>>, base: nat, m: seq<nat>, s: nat)
    requires Machines(xss) && Column(l, xss, base) && AllIn(l, m)
    ensures Hits(l, m, s) >= Shares(xss, s)
    decreases |xss|
  {
    hide Prod, Start, Hits, Moved, Cycle, Latest, AllIn, Cycles, Share;
    if xss != [] {
      var xs, n := xss[0], Prod(xss[0]);
      var k := |xs| - 1;
      var c := Cycles(base, xs, 1);
      var p, q, r, t := l[..1], l[1..n], l[n..n + |c|], l[n + |c|..];
      assert l == p + (q + (r + t));
      HitsAppend(p, q + (r + t), m, s);
      var m1 := Moved(p, m);
      HitsAppend(q, r + t, m1, s);
      var m2 := Moved(q, m1);
      HitsAppend(r, t, m2, s);
      StartLatest(m1, base + Start(xs, k), xs[k]);
      CycleHits(m1, base + Start(xs, k), xs[k], 0, 0, n - 1);
      CyclesHit(base, xs, 1, m2, s);
      ShareLast(xs, s, 0, k);
      ColumnHits(t, xss[1..], base + Start(xs, |xs|), Moved(r, m2), s);
    }
  }

  // ------------------------------------------------------ from the text to the weights

  /** The column of a text that counts. */
  lemma {:induction false} TextColumn(xss: seq<seq<nat>>, vs: seq<nat>)
    requires Machines(xss) && Letters(xss) <= 256 && Ends(xss)
    requires |vs| == |Text(xss, 0)| && forall i :: 0 <= i < |vs| ==> vs[i] == BzBwt.Bwt(Text(xss, 0))[i]
    ensures Column(vs, xss, 0)
  {
    hide Prod, Start, Letters, Text, Column, Order;
    var s := Text(xss, 0);
    assert s[0..] == s;
    OrderAscends(s, 0, xss, 0);
    ColumnOf(s, 0, xss, 0);
    var a, b := BzBwt.SortRotations(s), Order(xss, 0);
    SortedOnce(s, a, b, |s|);
    assert a == a[..|s|] == b[..|s|] == b;
    var l := Preceding(s, b);
    forall i | 0 <= i < |s| ensures vs[i] == l[i] {
      assert BzBwt.LastColumn(s, a)[i] == s[BzBwt.Pred(|s|, a[i])];
    }
    assert vs == l;
  }

  /** All its letters are in the column. */
  lemma {:induction false} ColumnUses(xss: seq<seq<nat>>, b: nat)
    requires Machines(xss) && Letters(xss) <= 256 && b < Letters(xss)
    ensures b in BzBwt.Bwt(Text(xss, 0))
  {
    hide Prod, Start, Letters, Text;
    LetterShown(xss, 0, b);
    var s := Text(xss, 0);
    var p :| 0 <= p < |s| && s[p] == b;
    var idx := BzBwt.SortRotations(s);
    BzUnBwt.EveryRowSorted(s, idx, BzBwt.Succ(|s|, p));
    var i :| 0 <= i < |idx| && idx[i] == BzBwt.Succ(|s|, p);
    assert BzBwt.LastColumn(s, idx)[i] == s[BzBwt.Pred(|s|, idx[i])];
  }

  /** Its letters are the first ones. */
  lemma {:induction false} TextInside(xss: seq<seq<nat>>, base: nat)
    requires Machines(xss) && base + Letters(xss) <= 256
    ensures forall p :: 0 <= p < |Text(xss, base)| ==> base <= Text(xss, base)[p] < base + Letters(xss)
    decreases |xss|
  {
    hide Prod, Start, Tuple, Place, Numbers, Letters, Digits;
    if xss != [] {
      LettersUnfold(xss);
      TextUnfold(xss, base);
      var xs := xss[0];
      TextInside(xss[1..], base + Start(xs, |xs|));
      NumbersInside(base, xs, Prod(xs));
    }
  }

  lemma {:induction false} NumbersInside(base: nat, xs: seq<nat>, n: nat)
    requires Wheels(xs) && n <= Prod(xs) && base + Start(xs, |xs|) <= 256
    ensures forall p :: 0 <= p < |Numbers(base, xs, n)| ==> base <= Numbers(base, xs, n)[p] < base + Start(xs, |xs|)
    decreases n
  {
    hide Prod, Start, Tuple, Place, Digits, Numbers;
    if n == 0 { NoNumbers(base, xs); } else {
      NumbersInside(base, xs, n - 1);
      NumbersUnfold(base, xs, n);
      TupleInside(base, xs, n - 1);
    }
  }

  lemma {:induction false} TupleInside(base: nat, xs: seq<nat>, i: nat)
    requires Wheels(xs) && i < Prod(xs) && base + Start(xs, |xs|) <= 256
    ensures forall p :: 0 <= p < |xs| ==> base <= Tuple(base, xs, i)[p] < base + Start(xs, |xs|)
  {
    hide Prod, Start, Digits;
    forall p | 0 <= p < |xs|
      ensures base <= Tuple(base, xs, i)[p] < base + Start(xs, |xs|) { LetterIn(base, xs, i, p); }
  }

  /** The symbols of a column whose letters are the first ones. */
  lemma {:induction false} FirstSymbols(l: seq<Byte>, n: nat) returns (vs: seq<nat>)
    requires |SymbolList(FlagsOf(l))| == n && forall b :: 0 <= b < n ==> SymbolList(FlagsOf(l))[b] == b
    ensures |vs| == |l| && (forall i :: 0 <= i < |vs| ==> vs[i] == l[i]) && AllIn(vs, Identity(n))
    ensures SymbolsOf(l) == Encode(vs, Identity(n), 0) + [n + 1]
  {
    hide Encode;
    ColumnListed(l);
    vs := Indices(l, SymbolList(FlagsOf(l)));
    IdentityHas(n, vs);
  }

  /** The frequencies that `compress_block` counts for such a text. */
  lemma {:induction false} TextPlan(xss: seq<seq<nat>>)
    requires Machines(xss) && Spread(xss) && Ends(xss) && Letters(xss) <= 256 && Text(xss, 0) != []
    ensures |PlanOf(Text(xss, 0)).freq| == Letters(xss) + 2
    ensures BzTree.Sum(Weights(PlanOf(Text(xss, 0)).freq)) <= |Text(xss, 0)| + Letters(xss) + 3
    ensures forall s :: 2 <= s < Letters(xss) + 2 ==> PlanOf(Text(xss, 0)).freq[s] >= Shares(xss, s)
  {
    hide Prod, Start, Letters, Text, Column, Shares, Encode, Hits, CountSym, Weights, Identity, SymbolsOf,
      SymbolList, FlagsOf, BzBwt.Bwt, BzTree.Sum, AllIn, Machines, Spread, Ends;
    var raw, n := Text(xss, 0), Letters(xss);
    TextPlain(xss, 0);
    EncodePlain(raw, -1, 0);
    var l := BzBwt.Bwt(raw);
    TextFlags(xss);
    var vs := FirstSymbols(l, n);
    TextColumn(xss, vs);
    var code := Encode(vs, Identity(n), 0);
    var syms := SymbolsOf(l);
    var freq := Frequencies(syms, n + 2);
    assert PlanOf(raw).freq == freq;
    forall s | 2 <= s < n + 2 ensures freq[s] >= Shares(xss, s) {
      CountAppend(code, [n + 1], s);
      HitsEncode(vs, Identity(n), 0, s);
      ColumnHits(vs, xss, 0, Identity(n), s);
    }
    SomeLetter(xss);
    EncodeInRange(vs, Identity(n), 0);
    Bzip2.FrequencySum(syms, n + 2);
    Bzip2.WeightSum(freq);
  }

  lemma {:induction false} SomeLetter(xss: seq<seq<nat>>)
    requires Machines(xss) && Letters(xss) <= 256 && Text(xss, 0) != []
    ensures Letters(xss) > 0
  {
    hide Prod, Start, Letters, Text;
    TextInside(xss, 0);
    assert Text(xss, 0)[0] < 0 + Letters(xss);
  }

  /** The letters in use are the first ones. */
  lemma {:induction false} TextFlags(xss: seq<seq<nat>>)
    requires Machines(xss) && Letters(xss) <= 256
    ensures var list := SymbolList(FlagsOf(BzBwt.Bwt(Text(xss, 0))));
            |list| == Letters(xss) && forall b :: 0 <= b < |list| ==> list[b] == b
  {
    hide Prod, Start, Letters, Text;
    var s := Text(xss, 0);
    var n: nat := Letters(xss);
    var l := BzBwt.Bwt(s);
    TextInside(xss, 0);
    forall b | 0 <= b < 256 ensures b in l <==> b < n {
      if b < n { ColumnUses(xss, b); }
      if b in l {
        var i :| 0 <= i < |l| && l[i] == b;
        assert l[i] == s[BzBwt.Pred(|s|, BzBwt.SortRotations(s)[i])];
      }
    }
    ListFirst(FlagsOf(l), n);
  }

  // --------------------------------------------------------------------- the input

  /** Four odometers, and twenty letters of their own at the end. */
  function Machinery(): seq<seq<nat>>
  {
    [[14, 5, 5], [9, 11, 11], [8, 4, 4, 3, 3, 3], [13, 2, 2, 7, 7, 7]] + Singles(20)
  }

  function One3(a: nat, b: nat, c: nat, s: nat, m: nat): nat
  {
    (if a == s then m else 0) + (if b == s then m else 0) + (if c == s then m else 0)
  }

  lemma {:induction false} ShareThree(xs: seq<nat>, s: nat, i: nat, e: nat)
    requires i + 3 <= e <= |xs|
    ensures Share(xs, s, i, e) == One3(xs[i], xs[i + 1], xs[i + 2], s, Monus(Prod(xs), s + 1)) + Share(xs, s, i + 3, e)
  {
    hide Prod;
    assert Share(xs, s, i + 2, e) == (if xs[i + 2] == s then Monus(Prod(xs), s + 1) else 0) + Share(xs, s, i + 3, e);
  }

  lemma {:induction false} ThreeWheels(a: nat, b: nat, c: nat, s: nat)
    ensures Prod([a, b, c]) == a * (b * c) && Start([a, b, c], 3) == a + b + c
    ensures Share([a, b, c], s, 0, 3) == One3(a, b, c, s, Monus(a * (b * c), s + 1))
  {
    var xs := [a, b, c];
    assert xs[1..] == [b, c] && [b, c][1..] == [c];
    One(c);
    assert Start(xs, 1) == a && Start(xs, 2) == a + b;
    ShareThree(xs, s, 0, 3);
  }

  lemma {:induction false} SixWheels(a: nat, b: nat, c: nat, d: nat, e: nat, f: nat, s: nat)
    ensures Prod([a, b, c, d, e, f]) == a * (b * c) * (d * (e * f))
    ensures Start([a, b, c, d, e, f], 6) == a + b + c + d + e + f
    ensures Share([a, b, c, d, e, f], s, 0, 6)
         == One3(a, b, c, s, Monus(a * (b * c) * (d * (e * f)), s + 1))
            + One3(d, e, f, s, Monus(a * (b * c) * (d * (e * f)), s + 1))
  {
    hide Prod, Share;
    var xs := [a, b, c, d, e, f];
    assert xs == [a, b, c] + [d, e, f];
    ProdAppend([a, b, c], [d, e, f]);
    ThreeWheels(a, b, c, s);
    ThreeWheels(d, e, f, s);
    assert Start(xs, 1) == a && Start(xs, 2) == a + b && Start(xs, 3) == a + b + c;
    assert Start(xs, 4) == a + b + c + d && Start(xs, 5) == a + b + c + d + e;
    ShareThree(xs, s, 0, 6);
    ShareThree(xs, s, 3, 6);
    NoShare(xs, s);
  }

  lemma {:induction false} NoShare(xs: seq<nat>, s: nat)
    ensures Share(xs, s, |xs|, |xs|) == 0
  {
  }

  function Singles(n: nat): (xss: seq<seq<nat>>)
    ensures |xss| == n && forall c :: 0 <= c < n ==> xss[c] == [1]
  {
    Repeat([1], n)
  }

  lemma {:induction false} SinglesUnfold(n: nat)
    requires n > 0
    ensures Singles(n)[0] == [1] && Singles(n)[1..] == Singles(n - 1)
  {
  }

  lemma {:induction false} SingleWheel(s: nat)
    requires s >= 2
    ensures Prod([1]) == 1 && Start([1], 1) == 1 && Share([1], s, 0, 1) == 0
  {
    One(1);
    NoShare([1], s);
    assert Start([1], 0) == 0;
  }

  lemma {:induction false} SinglesOk(n: nat, s: nat)
    requires s >= 2
    ensures Machines(Singles(n)) && Spread(Singles(n)) && Letters(Singles(n)) == n && Shares(Singles(n), s) == 0
  {
    hide Singles, Prod, Start, Share;
    SingleWheel(s);
    if n > 0 {
      SinglesUnfold(n);
      SinglesOk(n - 1, s);
    }
  }

  lemma {:induction false} SinglesText(n: nat, base: nat)
    requires base + n <= 256
    ensures Machines(Singles(n)) && Letters(Singles(n)) == n && |Text(Singles(n), base)| == n
  {
    hide Singles, Prod, Start, Share, Text, Letters, Numbers, Place;
    SinglesOk(n, 2);
    SingleWheel(2);
    if n == 0 {
      NoText(base);
    } else {
      SinglesUnfold(n);
      SinglesText(n - 1, base + 1);
      TextUnfold(Singles(n), base);
      NextPlace(0, 1, 0);
      PlaceZero(0, 1);
    }
  }

  /** One more odometer in front. */
  lemma {:induction false} Front(xs: seq<nat>, rest: seq<seq<nat>>, base: nat, s: nat)
    requires Wheels(xs) && |xs| >= 2 && Machines(rest) && Spread(rest) && base + Start(xs, |xs|) + Letters(rest) <= 256
    ensures Machines([xs] + rest) && Spread([xs] + rest) && Letters([xs] + rest) == Start(xs, |xs|) + Letters(rest)
    ensures |Text([xs] + rest, base)| == Prod(xs) * |xs| + |Text(rest, base + Start(xs, |xs|))|
    ensures Shares([xs] + rest, s) == Share(xs, s, 0, |xs|) + Shares(rest, s)
  {
    hide Prod, Start, Share, Text, Letters, Numbers;
    var xss := [xs] + rest;
    assert xss[0] == xs && xss[1..] == rest;
    LettersUnfold(xss);
    TextUnfold(xss, base);
  }

  /** What the four odometers contribute to symbol `s`. */
  function Lower(s: nat): nat
  {
    One3(14, 5, 5, s, Monus(350, s + 1)) + One3(9, 11, 11, s, Monus(1089, s + 1))
    + (One3(8, 4, 4, s, Monus(3456, s + 1)) + One3(3, 3, 3, s, Monus(3456, s + 1)))
    + (One3(13, 2, 2, s, Monus(17836, s + 1)) + One3(7, 7, 7, s, Monus(17836, s + 1)))
  }

  lemma {:induction false} MachineryIs(s: nat)
    requires s >= 2
    ensures Machines(Machinery()) && Spread(Machinery()) && Letters(Machinery()) == 138
    ensures |Text(Machinery(), 0)| == 132089 && Shares(Machinery(), s) == Lower(s)
  {
    hide Prod, Start, Share, Shares, Text, Letters, Singles, Monus, One3, Spread;
    SinglesOk(20, s);
    SinglesText(20, 118);
    ThreeWheels(14, 5, 5, s);
    ThreeWheels(9, 11, 11, s);
    SixWheels(8, 4, 4, 3, 3, 3, s);
    SixWheels(13, 2, 2, 7, 7, 7, s);
    var a, b, c, d: seq<nat> := [14, 5, 5], [9, 11, 11], [8, 4, 4, 3, 3, 3], [13, 2, 2, 7, 7, 7];
    var r := Singles(20);
    Front(d, r, 80, s);
    Front(c, [d] + r, 55, s);
    Front(b, [c] + ([d] + r), 24, s);
    Front(a, [b] + ([c] + ([d] + r)), 0, s);
    assert Machinery() == [a] + ([b] + ([c] + ([d] + r)));
  }

  /** The symbols that are hit, from the rarest to the most frequent, and how often at least. */
  function Heavy(): seq<nat>
  {
    [14, 5, 9, 11, 8, 4, 3, 13, 2, 7]
  }

  function Bounds(): seq<nat>
  {
    [335, 688, 1079, 2154, 3447, 6902, 10356, 17822, 35666, 53484]
  }

  lemma {:induction false} BoundsAreLower()
    ensures forall i :: 0 <= i < 10 ==> Lower(Heavy()[i]) == Bounds()[i]
  {
    assert Lower(14) == 335 && Lower(5) == 688 && Lower(9) == 1079 && Lower(11) == 2154 && Lower(8) == 3447;
    assert Lower(4) == 6902 && Lower(3) == 10356 && Lower(13) == 17822 && Lower(2) == 35666 && Lower(7) == 53484;
  }

  lemma {:induction false} BoundsSteep()
    ensures BzDeep.Steep(Bounds(), 297) && BzTree.Sum(Bounds()) == 131933
  {
    hide BzTree.Sum;
    var lo := Bounds();
    assert lo[..0] == [];
    BzDeep.SumNone([]);
    forall n | 0 <= n < 10 ensures BzTree.Sum(lo[..n + 1]) == BzTree.Sum(lo[..n]) + lo[n] { BzDeep.SumStep(lo, n); }
    assert BzTree.Sum(lo[..1]) == 335;
    assert BzTree.Sum(lo[..2]) == 1023;
    assert BzTree.Sum(lo[..3]) == 2102;
    assert BzTree.Sum(lo[..4]) == 4256;
    assert BzTree.Sum(lo[..5]) == 7703;
    assert BzTree.Sum(lo[..6]) == 14605;
    assert BzTree.Sum(lo[..7]) == 24961;
    assert BzTree.Sum(lo[..8]) == 42783;
    assert BzTree.Sum(lo[..9]) == 78449;
    assert lo[..10] == lo;
  }

  /** The bytes on which the clamp bites. */
  function Input(): seq<Byte>
    requires Machines(Machinery()) && Letters(Machinery()) <= 256
  {
    Text(Machinery(), 0)
  }

  lemma {:induction false} InputEnds()
    ensures Ends(Machinery())
  {
    SingleWheel(2);
    assert Machinery()[|Machinery()| - 1] == Singles(20)[19];
  }

  /** Compressing this input clamps: one block, a code tree deeper than 17, and a code the block uses
      that does not fit its length. */
  lemma {:induction false} InputClamps()
    ensures Machines(Machinery()) && Letters(Machinery()) <= 256 && |Input()| == 132089
    ensures !Unclamped(PlanOf(Input()).freq, MAX_LENGTH) && !UsedCodesFit(PlanOf(Input()).symbols, PlanOf(Input()).lens)
  {
    hide UsedCodesFit, Machinery, Text, Letters, Weights, PlanOf, Unclamped, Lengths, Lower, BzDeep.Steep,
      BzTree.Sum, Shares, Machines, Spread, Ends;
    MachineryIs(2);
    InputEnds();
    TextPlan(Machinery());
    var freq := PlanOf(Input()).freq;
    var w := Weights(freq);
    BoundsAreLower();
    BoundsSteep();
    var hs := Heavy();
    forall i | 0 <= i < 10 ensures Bounds()[i] <= w[hs[i]] { MachineryIs(hs[i]); WeightAt(freq, hs[i]); }
    PowSeven();
    BzDeep.SteepDeep(w, hs, Bounds(), 297, 7);
    Clamped(freq);
    UsedFitIff(Input());
  }

  lemma {:induction false} WeightAt(freq: seq<nat>, s: nat)
    requires s < |freq|
    ensures |Weights(freq)| == |freq| && freq[s] <= Weights(freq)[s]
  {
  }

  lemma {:induction false} PowSeven()
    ensures Pow2(7) == 128
  {
    assert Pow2(3) == 8;
    assert Pow2(5) == 32;
  }

  lemma {:induction false} Clamped(freq: seq<nat>)
    requires freq != [] && BzTree.Height(BzTree.HuffmanTree(Weights(freq))) > 17
    ensures !Unclamped(freq, MAX_LENGTH)
  {
    hide Weights, BzTree.HuffmanTree;
  }
}
