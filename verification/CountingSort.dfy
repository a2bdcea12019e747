/** A stable counting sort of positions by byte value. vbzip2 relies on it twice: the links of the
    inverse Burrows-Wheeler transform and the `perm` table of a Huffman decoder are both it. */
module CountingSort {
  import opened Bits
  import opened Pigeonhole

  // ------------------------------------------------------------------- counting

  function CountLess(l: seq<Byte>, b: int): (n: nat)
    ensures n <= |l|
  {
    if l == [] then 0
    else CountLess(l[..|l| - 1], b) + if l[|l| - 1] < b then 1 else 0
  }

  function CountEq(l: seq<Byte>, b: int): (n: nat)
  {
    if l == [] then 0
    else CountEq(l[..|l| - 1], b) + if l[|l| - 1] == b then 1 else 0
  }

  lemma {:induction false} CountLessNext(l: seq<Byte>, b: int)
    ensures CountLess(l, b + 1) == CountLess(l, b) + CountEq(l, b)
  {
    if l != [] { CountLessNext(l[..|l| - 1], b); }
  }

  lemma {:induction false} CountLessMono(l: seq<Byte>, b: int, c: int)
    requires b <= c
    ensures CountLess(l, b) <= CountLess(l, c)
  {
    if l != [] { CountLessMono(l[..|l| - 1], b, c); }
  }

  lemma {:induction false} CountLessNone(l: seq<Byte>)
    ensures CountLess(l, 0) == 0
  {
    if l != [] { CountLessNone(l[..|l| - 1]); }
  }

  lemma {:induction false} CountEqStep(l: seq<Byte>, i: nat, b: int)
    requires i < |l|
    ensures CountEq(l[..i + 1], b) == CountEq(l[..i], b) + if l[i] == b then 1 else 0
  {
    assert l[..i + 1][..i] == l[..i];
  }

  lemma {:induction false} CountEqPrefix(l: seq<Byte>, i: nat, j: nat, b: int)
    requires i <= j <= |l|
    ensures CountEq(l[..i], b) <= CountEq(l[..j], b)
    decreases j - i
  {
    if i < j {
      CountEqStep(l, i, b);
      CountEqPrefix(l, i + 1, j, b);
    }
  }

  // ---------------------------------------------------------------------- links

  /** Where the counting sort puts position `i` of the byte string. */
  function Dest(l: seq<Byte>, i: nat): (j: nat)
    requires i < |l|
  {
    CountLess(l, l[i]) + CountEq(l[..i], l[i])
  }

  lemma {:induction false} DestBound(l: seq<Byte>, i: nat)
    requires i < |l|
    ensures Dest(l, i) < CountLess(l, l[i] as int + 1) <= |l|
  {
    CountLessNext(l, l[i]);
    CountEqStep(l, i, l[i]);
    CountEqPrefix(l, i + 1, |l|, l[i]);
    assert l[..|l|] == l;
  }

  /** The counting sort is stable: by byte, and by position among equal bytes. */
  lemma {:induction false} DestOrder(l: seq<Byte>, a: nat, b: nat)
    requires a < |l| && b < |l|
    requires l[a] < l[b] || (l[a] == l[b] && a < b)
    ensures Dest(l, a) < Dest(l, b)
  {
    if l[a] < l[b] {
      DestBound(l, a);
      CountLessMono(l, l[a] + 1, l[b]);
    } else {
      CountEqStep(l, a, l[a]);
      CountEqPrefix(l, a + 1, b, l[a]);
    }
  }

  lemma {:induction false} DestInjective(l: seq<Byte>, a: nat, b: nat)
    requires a < |l| && b < |l| && a != b
    ensures Dest(l, a) != Dest(l, b)
  {
    if l[a] < l[b] || (l[a] == l[b] && a < b) {
      DestOrder(l, a, b);
    } else {
      DestOrder(l, b, a);
    }
  }

  /** The link table after the first `k` positions have been placed. */
  function LinksUpTo(l: seq<Byte>, k: nat): (t: seq<nat>)
    requires k <= |l|
    ensures |t| == |l|
  {
    if k == 0 then seq(|l|, _ => 0)
    else
      DestBound(l, k - 1);
      LinksUpTo(l, k - 1)[Dest(l, k - 1) := k - 1]
  }

  function Links(l: seq<Byte>): (t: seq<nat>)
    ensures |t| == |l|
  {
    LinksUpTo(l, |l|)
  }

  lemma {:induction false} LinksInvertDest(l: seq<Byte>, k: nat, i: nat)
    requires i < k <= |l|
    ensures Dest(l, i) < |l| && LinksUpTo(l, k)[Dest(l, i)] == i
  {
    DestBound(l, i);
    if i < k - 1 {
      LinksInvertDest(l, k - 1, i);
      DestInjective(l, i, k - 1);
    }
  }

  lemma {:induction false} LinksBelow(l: seq<Byte>, k: nat, j: nat)
    requires k <= |l| && j < |l|
    ensures LinksUpTo(l, k)[j] < |l|
  {
    if k > 0 { LinksBelow(l, k - 1, j); }
  }

  /** Following a link and then asking where it was placed comes back. */
  lemma {:induction false} DestInvertsLinks(l: seq<Byte>, j: nat)
    requires j < |l|
    ensures Links(l)[j] < |l| && Dest(l, Links(l)[j]) == j
  {
    var d := seq(|l|, i requires 0 <= i < |l| => Dest(l, i));
    forall i | 0 <= i < |l| ensures d[i] < |l| { DestBound(l, i); }
    forall a, b | 0 <= a < b < |l| ensures d[a] != d[b] { DestInjective(l, a, b); }
    var i := Onto(d, j);
    LinksInvertDest(l, |l|, i);
  }

  lemma {:induction false} LinksUnplaced(l: seq<Byte>, k: nat, j: nat)
    requires k <= |l| && j < |l|
    requires forall i :: 0 <= i < k ==> Dest(l, i) != j
    ensures LinksUpTo(l, k)[j] == 0
  {
    if k > 0 { LinksUnplaced(l, k - 1, j); }
  }
}
