/** Injective index sequences: the counting arguments the Burrows-Wheeler proof needs. */
module Pigeonhole {

  ghost predicate Injective(g: seq<nat>)
  {
    forall i, j :: 0 <= i < j < |g| ==> g[i] != g[j]
  }

  ghost predicate Below(g: seq<nat>, m: nat)
  {
    forall i :: 0 <= i < |g| ==> g[i] < m
  }

  function Upto(m: nat): (s: set<nat>)
    ensures forall x :: x in s <==> 0 <= x < m
    ensures |s| == m
  {
    if m == 0 then {} else Upto(m - 1) + {m - 1}
  }

  function Elements(g: seq<nat>): (s: set<nat>)
  {
    set i | 0 <= i < |g| :: g[i]
  }

  lemma {:induction false} InjectiveSize(g: seq<nat>)
    requires Injective(g)
    ensures |Elements(g)| == |g|
  {
    if g == [] {
      assert Elements(g) == {};
    } else {
      var h, last := g[..|g| - 1], g[|g| - 1];
      InjectiveSize(h);
      assert Elements(g) == Elements(h) + {last} by {
        forall x | x in Elements(g) ensures x in Elements(h) + {last} {
          var i :| 0 <= i < |g| && g[i] == x;
          if i < |h| { assert h[i] == x; }
        }
        forall x | x in Elements(h) ensures x in Elements(g) {
          var i :| 0 <= i < |h| && h[i] == x;
          assert g[i] == x;
        }
        assert g[|g| - 1] in Elements(g);
      }
      assert last !in Elements(h);
    }
  }

  lemma {:induction false} SubsetSize(a: set<nat>, b: set<nat>)
    requires a <= b
    ensures |a| <= |b|
    ensures |a| == |b| ==> a == b
    decreases a
  {
    if a == {} {
    } else {
      var x :| x in a;
      SubsetSize(a - {x}, b - {x});
      if |a| == |b| { assert a == (a - {x}) + {x} && b == (b - {x}) + {x}; }
    }
  }

  /** Distinct numbers below `m` are at most `m` in number. */
  lemma {:induction false} AtMost(g: seq<nat>, m: nat)
    requires Injective(g) && Below(g, m)
    ensures |g| <= m
  {
    InjectiveSize(g);
    SubsetSize(Elements(g), Upto(m));
  }

  /** As many distinct numbers as there are places hit every place. */
  lemma {:induction false} Onto(g: seq<nat>, j: nat) returns (i: nat)
    requires Injective(g) && Below(g, |g|) && j < |g|
    ensures i < |g| && g[i] == j
  {
    InjectiveSize(g);
    SubsetSize(Elements(g), Upto(|g|));
    assert j in Elements(g);
    i :| 0 <= i < |g| && g[i] == j;
  }
}
