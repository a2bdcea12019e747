/** `mk_lengths`: code lengths are the depths in a Huffman tree, clamped at `maxlen`. Exactly when
    the clamp never bites do the canonical codes for these lengths fit. */
module BzLengths {
  import opened Bits
  import opened BzTree
  import opened BzLightest
  import opened BzHuffman

  /** The clamp `compress_block` asks for. */
  const MAX_LENGTH: nat := 17

  /** Unused symbols take part with weight one. */
  function Weights(freq: seq<nat>): (w: seq<nat>)
    ensures |w| == |freq|
    ensures forall i :: 0 <= i < |w| ==> w[i] >= 1
    ensures forall i :: 0 <= i < |w| ==> w[i] == if freq[i] == 0 then 1 else freq[i]
  {
    seq(|freq|, i requires 0 <= i < |freq| => if freq[i] == 0 then 1 else freq[i])
  }

  function TreeOf(freq: seq<nat>): Tree
    requires freq != []
  {
    HuffmanTree(Weights(freq))
  }

  function Blank(n: nat): (s: seq<nat>)
    ensures |s| == n
  {
    seq(n, _ => 0)
  }

  /** The depth of every symbol. */
  function DepthVector(freq: seq<nat>): (dep: seq<nat>)
    requires freq != []
    ensures |dep| == |freq|
  {
    Depths(TreeOf(freq), 0, Blank(|freq|))
  }

  function Clamp(d: nat, maxlen: nat): (l: nat)
    requires 1 <= maxlen
    ensures 1 <= l <= maxlen
    ensures 1 <= d <= maxlen ==> l == d
  {
    if d < 1 then 1 else if d > maxlen then maxlen else d
  }

  /** The lengths `mk_lengths` stores. */
  function Lengths(freq: seq<nat>, maxlen: nat): (lens: seq<Byte>)
    requires freq != [] && 1 <= maxlen < 256
    ensures |lens| == |freq|
    ensures forall s :: 0 <= s < |lens| ==> 1 <= lens[s] <= maxlen
    ensures forall s :: 0 <= s < |lens| ==> lens[s] == Clamp(DepthVector(freq)[s], maxlen)
  {
    seq(|freq|, s requires 0 <= s < |freq| => Clamp(DepthVector(freq)[s], maxlen))
  }

  /** No leaf lies deeper than the clamp. */
  predicate Unclamped(freq: seq<nat>, maxlen: nat)
    requires freq != []
  {
    Height(TreeOf(freq)) <= maxlen
  }

  // ------------------------------------------------------------------ Kraft sums

  lemma {:induction false} KraftIsSum(lens: seq<Byte>, f: seq<nat>, h: nat)
    requires forall i :: 0 <= i < |lens| ==> lens[i] <= h
    requires |f| == |lens| && forall i :: 0 <= i < |lens| ==> f[i] == Pow2(h - lens[i])
    ensures Kraft(lens, h) == Sum(f)
  {
    if lens != [] {
      KraftIsSum(lens[..|lens| - 1], f[..|f| - 1], h);
    }
  }

  /** `dep` and `lens` are the depths in a tree over the whole alphabet, and the clamped depths. */
  ghost predicate LengthsOf(t: Tree, dep: seq<nat>, lens: seq<Byte>, maxlen: nat)
    requires 1 <= maxlen
  {
    && t.Node? && |dep| == |lens| && Covers(t, |dep|) && HasDepths(t, 0, dep)
    && forall s :: 0 <= s < |dep| ==> lens[s] == Clamp(dep[s], maxlen)
  }

  lemma {:induction false} DepthRange(t: Tree, dep: seq<nat>)
    requires t.Node? && Covers(t, |dep|) && HasDepths(t, 0, dep)
    ensures forall s :: 0 <= s < |dep| ==> 1 <= dep[s] <= Height(t)
  {
    forall s | 0 <= s < |dep| ensures 1 <= dep[s] <= Height(t) { DepthsBounded(t, 0, dep, s); }
  }

  /** The depths themselves satisfy Kraft with equality. */
  lemma {:induction false} DepthKraft(t: Tree, dep: seq<nat>, h: nat)
    requires t.Node? && Covers(t, |dep|) && HasDepths(t, 0, dep) && Height(t) <= h
    ensures forall s :: 0 <= s < |dep| ==> dep[s] <= h
    ensures Sum(Powers(h, dep)) == Pow2(h)
  {
    DepthRange(t, dep);
    TreeKraft(t, 0, dep, h);
    SumOverCover(t, Powers(h, dep));
  }

  /** Without clamping the Kraft sum is exactly one. */
  lemma {:induction false} UnclampedKraft(t: Tree, dep: seq<nat>, lens: seq<Byte>, maxlen: nat)
    requires 1 <= maxlen < 256 && LengthsOf(t, dep, lens, maxlen) && Height(t) <= maxlen
    ensures Kraft(lens, maxlen) == Pow2(maxlen)
  {
    DepthRange(t, dep);
    DepthKraft(t, dep, maxlen);
    KraftIsSum(lens, Powers(maxlen, dep), maxlen);
  }

  lemma {:induction false} SumStrict(f: seq<nat>, g: seq<nat>, k: nat)
    requires |f| == |g| && k < |f| && f[k] < g[k]
    requires forall i :: 0 <= i < |f| ==> f[i] <= g[i]
    ensures Sum(f) < Sum(g)
  {
    var n := |f| - 1;
    if k == n {
      SumMono(f[..n], g[..n]);
    } else {
      SumStrict(f[..n], g[..n], k);
    }
  }

  lemma {:induction false} SumMono(f: seq<nat>, g: seq<nat>)
    requires |f| == |g| && forall i :: 0 <= i < |f| ==> f[i] <= g[i]
    ensures Sum(f) <= Sum(g)
  {
    if f != [] { SumMono(f[..|f| - 1], g[..|g| - 1]); }
  }

  lemma {:induction false} KraftScale(lens: seq<Byte>, f: seq<nat>, h: nat, up: nat)
    requires forall i :: 0 <= i < |lens| ==> lens[i] <= h
    requires |f| == |lens| && forall i :: 0 <= i < |lens| ==> f[i] == Pow2(h + up - lens[i])
    ensures Sum(f) == Kraft(lens, h) * Pow2(up)
  {
    if lens != [] {
      var n := |lens| - 1;
      KraftScale(lens[..n], f[..n], h, up);
      Pow2Add(h - lens[n], up);
      Distribute(Kraft(lens[..n], h), Pow2(h - lens[n]), Pow2(up));
      assert f[n] == Pow2(h - lens[n]) * Pow2(up) by {
        assert (h - lens[n]) + up == h + up - lens[n];
      }
    }
  }

  function LengthPowers(h: nat, lens: seq<Byte>): (g: seq<nat>)
    requires forall s :: 0 <= s < |lens| ==> lens[s] <= h
    ensures |g| == |lens|
    ensures forall s :: 0 <= s < |lens| ==> g[s] == Pow2(h - lens[s])
  {
    seq(|lens|, s requires 0 <= s < |lens| => Pow2(h - lens[s]))
  }

  /** Clamping raises no length, and lowers the deepest. */
  lemma {:induction false} ClampedTerms(t: Tree, dep: seq<nat>, lens: seq<Byte>, maxlen: nat)
    requires 1 <= maxlen < 256 && LengthsOf(t, dep, lens, maxlen) && Height(t) > maxlen
    requires forall s :: 0 <= s < |dep| ==> dep[s] <= Height(t)
    ensures forall s :: 0 <= s < |lens| ==> lens[s] <= Height(t)
    ensures Sum(Powers(Height(t), dep)) < Sum(LengthPowers(Height(t), lens))
  {
    var h := Height(t);
    var f, g := Powers(h, dep), LengthPowers(h, lens);
    DepthRange(t, dep);
    forall s | 0 <= s < |dep| ensures f[s] <= g[s] {
      Pow2Mono(h - dep[s], h - lens[s]);
    }
    var k := DeepestLeaf(t, 0, dep);
    assert f[k] == 1;
    assert g[k] == Pow2(h - maxlen) == 2 * Pow2(h - maxlen - 1);
    SumStrict(f, g, k);
  }

  lemma {:induction false} CancelScale(k: nat, p: nat, up: nat)
    requires p * up < k * up
    ensures p < k
  {
    if k <= p { MulMono(up, k, p); }
  }

  /** A depth beyond the clamp makes the Kraft sum exceed one. */
  lemma {:induction false} ClampedKraft(t: Tree, dep: seq<nat>, lens: seq<Byte>, maxlen: nat)
    requires 1 <= maxlen < 256 && LengthsOf(t, dep, lens, maxlen) && Height(t) > maxlen
    ensures Kraft(lens, maxlen) > Pow2(maxlen)
  {
    var h := Height(t);
    var up := h - maxlen;
    DepthKraft(t, dep, h);
    ClampedTerms(t, dep, lens, maxlen);
    KraftScale(lens, LengthPowers(h, lens), maxlen, up);
    Pow2Add(maxlen, up);
    CancelScale(Kraft(lens, maxlen), Pow2(maxlen), Pow2(up));
  }

  // ------------------------------------------------------------------ mk_lengths

  lemma {:induction false} LengthsAreOf(freq: seq<nat>, maxlen: nat)
    requires |freq| >= 2 && 1 <= maxlen < 256
    ensures LengthsOf(TreeOf(freq), DepthVector(freq), Lengths(freq, maxlen), maxlen)
  {
    HuffmanCovers(Weights(freq));
    DepthsRecorded(TreeOf(freq), 0, Blank(|freq|));
    BuildNode(LeafForest(|freq|), Weights(freq));
  }

  /** The codes for the lengths of `mk_lengths` fit exactly when no depth was clamped; the Kraft sum
      is then exactly one. */
  lemma {:induction false} FitIffUnclamped(freq: seq<nat>, maxlen: nat)
    requires |freq| >= 2 && 1 <= maxlen < 256
    ensures CodesFit(Lengths(freq, maxlen)) <==> Unclamped(freq, maxlen)
    ensures Unclamped(freq, maxlen) <==> Kraft(Lengths(freq, maxlen), maxlen) == Pow2(maxlen)
  {
    var t, dep, lens := TreeOf(freq), DepthVector(freq), Lengths(freq, maxlen);
    LengthsAreOf(freq, maxlen);
    FitIffKraft(lens, maxlen);
    if Height(t) <= maxlen {
      UnclampedKraft(t, dep, lens, maxlen);
    } else {
      ClampedKraft(t, dep, lens, maxlen);
    }
  }

  lemma {:induction false} FibLower(n: nat, m: nat)
    requires n <= m
    ensures Fib(n) <= Fib(m)
    decreases m - n
  {
    if n < m {
      FibMono(n);
      FibLower(n + 1, m);
    }
  }

  /** Below a total weight of Fib(20) = 6765 nothing is ever clamped at 17. */
  lemma {:induction false} LightIsUnclamped(freq: seq<nat>)
    requires freq != [] && Sum(Weights(freq)) < 6765
    ensures Unclamped(freq, MAX_LENGTH)
  {
    HuffmanHeight(Weights(freq));
    var h := Height(TreeOf(freq));
    if h > 17 {
      FibLower(20, h + 2);
      FibTwenty();
    }
  }

  lemma {:induction false} FibTwenty()
    ensures Fib(20) == 6765
  {
    assert FibPair(5) == (5, 8);
    assert FibPair(10) == (55, 89);
    assert FibPair(15) == (610, 987);
    assert FibPair(20) == (6765, 10946);
  }

  // ----------------------------------------------- what the clamp does to the last symbol

  lemma {:induction false} LastRank(lens: seq<Byte>, e: nat, l: nat)
    requires e + 1 == |lens| && lens[e] == l
    ensures Code(lens, e) + 1 == Next(lens, l)
  {
    assert lens[..e + 1] == lens;
  }

  /** When a depth is clamped, a last symbol that occurs at most once is among the longest codes, and
      its code is the one that does not fit. */
  lemma {:induction false} LastCodeFails(freq: seq<nat>, maxlen: nat)
    requires |freq| >= 2 && 1 <= maxlen < 256 && freq[|freq| - 1] <= 1 && !Unclamped(freq, maxlen)
    ensures var lens := Lengths(freq, maxlen); lens[|freq| - 1] == maxlen && Code(lens, |freq| - 1) >= Pow2(maxlen)
  {
    hide Kraft, Code, Next, KraftUpTo, Depths;
    var lens, e := Lengths(freq, maxlen), |freq| - 1;
    LengthsAreOf(freq, maxlen);
    LightestDeep(Weights(freq), DepthVector(freq), e);
    FitIffUnclamped(freq, maxlen);
    FitIffKraft(lens, maxlen);
    KraftUpToAll(lens, maxlen);
    NextIsKraft(lens, maxlen);
    LastRank(lens, e, maxlen);
  }
}
