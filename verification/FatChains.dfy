/** Chains of clusters in the table: who owns what, and what allocating, linking and freeing
    keep. A table is its entries' low 28 bits. */
module FatChains {
  import opened FatWords

  /** `Loose`: taken, but not on a chain yet. */
  datatype Use = Spare | Loose | Of(owner: nat)

  /** `fat_next`: the next cluster, or 0. */
  function Next(t: seq<nat>, c: nat): nat
  {
    if c < 2 || c >= |t| || t[c] >= EOC || t[c] < 2 then 0 else t[c]
  }

  /** What entry `k` of a chain leads to. */
  ghost predicate LinkOk(t: seq<nat>, ch: seq<nat>, k: nat)
    requires k < |ch|
  {
    2 <= ch[k] < |t| && if k + 1 < |ch| then t[ch[k]] == ch[k + 1] else t[ch[k]] >= EOC
  }

  ghost predicate ChainOk(t: seq<nat>, ch: seq<nat>)
  {
    (forall k :: 0 <= k < |ch| ==> LinkOk(t, ch, k))
    && (forall j, k :: 0 <= j < k < |ch| ==> ch[j] != ch[k])
  }

  ghost predicate OwnerOk(t: seq<nat>, use: seq<Use>, o: nat, ch: seq<nat>)
  {
    |use| == |t| && ChainOk(t, ch) && forall k :: 0 <= k < |ch| ==> ch[k] < |use| && use[ch[k]] == Of(o)
  }

  ghost predicate ClusterOk(t: seq<nat>, use: seq<Use>, chains: map<nat, seq<nat>>, c: nat)
    requires c < |t| == |use|
  {
    (use[c] == Spare <==> t[c] == 0)
    && (use[c] == Loose ==> t[c] >= EOC)
    && (use[c].Of? ==> use[c].owner in chains && c in chains[use[c].owner])
  }

  /** Chains are linked, acyclic and disjoint; every entry that is not free is on exactly one. */
  ghost predicate Well(t: seq<nat>, use: seq<Use>, chains: map<nat, seq<nat>>)
  {
    |use| == |t| <= EOC
    && (forall o :: o in chains ==> OwnerOk(t, use, o, chains[o]))
    && (forall c :: 2 <= c < |t| ==> ClusterOk(t, use, chains, c))
  }

  // ---- following a chain ----

  lemma {:induction false} NextIs(t: seq<nat>, ch: seq<nat>, k: nat)
    requires ChainOk(t, ch) && k < |ch| && |t| <= EOC
    ensures Next(t, ch[k]) == if k + 1 < |ch| then ch[k + 1] else 0
  {
    assert LinkOk(t, ch, k);
    if k + 1 < |ch| { assert LinkOk(t, ch, k + 1); }
  }

  // ---- taking a cluster ----

  lemma {:induction false} ClaimOk(t: seq<nat>, use: seq<Use>, chains: map<nat, seq<nat>>, c: nat)
    requires Well(t, use, chains) && 2 <= c < |t| && t[c] == 0
    ensures use[c] == Spare && Well(t[c := EOC], use[c := Loose], chains)
  {
    var u, v := t[c := EOC], use[c := Loose];
    assert ClusterOk(t, use, chains, c);
    forall o | o in chains ensures OwnerOk(u, v, o, chains[o]) {
      OwnerKept(t, use, o, chains[o], c, EOC, Loose);
    }
    forall e | 2 <= e < |t| ensures ClusterOk(u, v, chains, e) {
      assert ClusterOk(t, use, chains, e);
    }
  }

  /** A chain does not notice a cluster that is not its own. */
  lemma {:induction false} OwnerKept(t: seq<nat>, use: seq<Use>, o: nat, ch: seq<nat>, c: nat, v: nat, x: Use)
    requires OwnerOk(t, use, o, ch) && c < |t| && use[c] != Of(o)
    ensures OwnerOk(t[c := v], use[c := x], o, ch)
  {
    var u := t[c := v];
    forall k | 0 <= k < |ch| ensures LinkOk(u, ch, k) {
      assert LinkOk(t, ch, k);
    }
  }

  // ---- putting it at the end of a chain ----

  /** The table after cluster `c` has been linked behind the chain. */
  ghost function Linked(t: seq<nat>, ch: seq<nat>, c: nat): seq<nat>
    requires ch != [] ==> ch[|ch| - 1] < |t|
  {
    if ch == [] then t else t[ch[|ch| - 1] := c]
  }

  lemma {:induction false} JoinChain(t: seq<nat>, use: seq<Use>, o: nat, ch: seq<nat>, c: nat)
    requires OwnerOk(t, use, o, ch) && 2 <= c < |t| && use[c] == Loose && t[c] >= EOC
    ensures ch != [] ==> ch[|ch| - 1] < |t|
    ensures OwnerOk(Linked(t, ch, c), use[c := Of(o)], o, ch + [c])
  {
    var n := |ch|;
    if n > 0 { assert LinkOk(t, ch, n - 1); }
    var u, d := Linked(t, ch, c), ch + [c];
    forall k | 0 <= k < |d| ensures LinkOk(u, d, k) {
      if k < n {
        assert LinkOk(t, ch, k);
        if k + 1 < n { assert LinkOk(t, ch, k + 1); }
      }
    }
  }

  lemma {:induction false} JoinOk(t: seq<nat>, use: seq<Use>, chains: map<nat, seq<nat>>, o: nat, c: nat)
    requires Well(t, use, chains) && o in chains && 2 <= c < |t| && use[c] == Loose
    ensures chains[o] != [] ==> chains[o][|chains[o]| - 1] < |t| && 2 <= chains[o][|chains[o]| - 1]
    ensures Well(Linked(t, chains[o], c), use[c := Of(o)], chains[o := chains[o] + [c]])
  {
    var ch := chains[o];
    var n := |ch|;
    assert OwnerOk(t, use, o, ch);
    assert ClusterOk(t, use, chains, c);
    if n > 0 { assert LinkOk(t, ch, n - 1); }
    JoinChain(t, use, o, ch, c);
    var u, v, after := Linked(t, ch, c), use[c := Of(o)], chains[o := ch + [c]];
    forall p | p in after ensures OwnerOk(u, v, p, after[p]) {
      if p != o {
        OwnerKept(t, use, p, chains[p], c, t[c], Of(o));
        assert t[c := t[c]] == t;
        if n > 0 {
          OwnerKept(t, v, p, chains[p], ch[n - 1], c, v[ch[n - 1]]);
          assert v[ch[n - 1] := v[ch[n - 1]]] == v;
        }
      }
    }
    forall e | 2 <= e < |t| ensures ClusterOk(u, v, after, e) {
      assert ClusterOk(t, use, chains, e);
      if e in ch { assert e in ch + [c]; }
    }
  }

  // ---- giving a chain back, head first ----

  lemma {:induction false} DropOk(t: seq<nat>, use: seq<Use>, chains: map<nat, seq<nat>>, o: nat)
    requires Well(t, use, chains) && o in chains && chains[o] != []
    ensures 2 <= chains[o][0] < |t|
    ensures Well(t[chains[o][0] := 0], use[chains[o][0] := Spare], chains[o := chains[o][1..]])
  {
    var ch := chains[o];
    assert OwnerOk(t, use, o, ch);
    assert LinkOk(t, ch, 0);
    var c := ch[0];
    var u, v, after := t[c := 0], use[c := Spare], chains[o := ch[1..]];
    forall p | p in after ensures OwnerOk(u, v, p, after[p]) {
      if p != o { OwnerKept(t, use, p, chains[p], c, 0, Spare); } else { TailOk(t, use, o, ch); }
    }
    forall e | 2 <= e < |t| ensures ClusterOk(u, v, after, e) {
      assert ClusterOk(t, use, chains, e);
      if e != c && use[e] == Of(o) {
        assert ch == [c] + ch[1..];
        assert e in ch[1..];
      }
    }
  }

  lemma {:induction false} TailOk(t: seq<nat>, use: seq<Use>, o: nat, ch: seq<nat>)
    requires OwnerOk(t, use, o, ch) && ch != [] && ch[0] < |t|
    ensures OwnerOk(t[ch[0] := 0], use[ch[0] := Spare], o, ch[1..])
  {
    var d, u := ch[1..], t[ch[0] := 0];
    forall k | 0 <= k < |d| ensures LinkOk(u, d, k) {
      assert LinkOk(t, ch, k + 1);
      assert ch[0] != ch[k + 1];
    }
  }

  // ---- the freeing loop on any table ----

  /** Entries that are not free. */
  function NonZero(t: seq<nat>): (n: nat)
    ensures n <= |t|
  {
    if t == [] then 0 else NonZero(t[..|t| - 1]) + if t[|t| - 1] != 0 then 1 else 0
  }

  lemma {:induction false} NonZeroFalls(t: seq<nat>, c: nat)
    requires c < |t| && t[c] != 0
    ensures NonZero(t[c := 0]) + 1 == NonZero(t)
  {
    var n := |t| - 1;
    if c < n {
      NonZeroFalls(t[..n], c);
      assert t[c := 0][..n] == t[..n][c := 0];
    } else {
      assert t[c := 0][..n] == t[..n];
    }
  }

  /** The loop of `fat_truncate` and `fat_unlink` from cluster `c` on: it ends on every table,
      even one with a cycle, because each round frees an entry. */
  function FreeFrom(t: seq<nat>, c: nat): (r: seq<nat>)
    ensures |r| == |t|
    decreases NonZero(t)
  {
    if c < 2 || c >= |t| || t[c] == 0 then t else
      NonZeroFalls(t, c);
      FreeFrom(t[c := 0], Next(t, c))
  }

  /** It only ever frees. */
  lemma {:induction false} FreeFromOnly(t: seq<nat>, c: nat, e: nat)
    requires e < |t|
    ensures FreeFrom(t, c)[e] == t[e] || FreeFrom(t, c)[e] == 0
    decreases NonZero(t)
  {
    if !(c < 2 || c >= |t| || t[c] == 0) {
      NonZeroFalls(t, c);
      FreeFromOnly(t[c := 0], Next(t, c), e);
    }
  }

  /** Uses after the clusters of a chain have been given back. */
  function Spared(use: seq<Use>, ch: seq<nat>): (r: seq<Use>)
    requires forall k :: 0 <= k < |ch| ==> ch[k] < |use|
    ensures |r| == |use| && forall c :: 0 <= c < |use| ==> r[c] == if c in ch then Spare else use[c]
  {
    seq(|use|, c requires 0 <= c < |use| => if c in ch then Spare else use[c])
  }

  function Head(ch: seq<nat>): nat
  {
    if ch == [] then 0 else ch[0]
  }

  lemma {:induction false} SparedTail(use: seq<Use>, ch: seq<nat>)
    requires ch != [] && forall k :: 0 <= k < |ch| ==> ch[k] < |use|
    ensures Spared(use[ch[0] := Spare], ch[1..]) == Spared(use, ch)
  {
    assert ch == [ch[0]] + ch[1..];
  }

  /** On a well-formed table it frees exactly the chain it starts at. */
  lemma {:induction false} FreeFromChain(t: seq<nat>, use: seq<Use>, chains: map<nat, seq<nat>>, o: nat)
    requires Well(t, use, chains) && o in chains
    ensures forall k :: 0 <= k < |chains[o]| ==> chains[o][k] < |use|
    ensures Well(FreeFrom(t, Head(chains[o])), Spared(use, chains[o]), chains[o := []])
    ensures forall e :: 0 <= e < |t| ==> FreeFrom(t, Head(chains[o]))[e] == if e in chains[o] then 0 else t[e]
    decreases |chains[o]|
  {
    var ch := chains[o];
    assert OwnerOk(t, use, o, ch);
    if ch == [] {
      assert chains[o := []] == chains;
      assert Spared(use, ch) == use;
    } else {
      DropOk(t, use, chains, o);
      NextIs(t, ch, 0);
      assert LinkOk(t, ch, 0);
      var c := ch[0];
      assert ClusterOk(t, use, chains, c);
      NonZeroFalls(t, c);
      var after := chains[o := ch[1..]];
      FreeFromChain(t[c := 0], use[c := Spare], after, o);
      assert after[o := []] == chains[o := []];
      assert ch == [c] + ch[1..];
      SparedTail(use, ch);
      assert Head(ch[1..]) == Next(t, c);
    }
  }
}
