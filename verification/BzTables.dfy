/** The loops that assign canonical codes (`gen_codes`) and build the decoder's tables. */
module BzTables {
  import opened Bits
  import opened CountingSort
  import opened BzHuffman

  /** Lengths up to this keep every index of `limit` and `base` inside what the code initialises. */
  const MAX_TABLE_LENGTH: nat := 22

  lemma {:induction false} FirstIsZero(len: seq<Byte>, l: nat)
    requires forall i :: 0 <= i < |len| ==> l <= len[i]
    ensures First(len, l) == 0 && CountLess(len, l) == 0
    decreases l
  {
    if l > 0 {
      FirstIsZero(len, l - 1);
      CountEqNone(len, l - 1);
      CountLessNext(len, l - 1);
    } else {
      CountLessNone(len);
    }
  }

  /** The `mn`/`mx` scan. */
  method Extremes(len: seq<Byte>) returns (mn: nat, mx: nat)
    ensures mn == Shortest(len) && mx == Longest(len)
  {
    mn, mx := 32, 0;
    var i := 0;
    while i < |len|
      invariant 0 <= i <= |len|
      invariant mn == Shortest(len[..i]) && mx == Longest(len[..i])
    {
      assert len[..i + 1][..i] == len[..i];
      if len[i] > mx { mx := len[i]; }
      if len[i] < mn { mn := len[i]; }
      i := i + 1;
    }
    assert len[..i] == len;
  }

  /** Codes are right for every symbol of length below `l`. */
  ghost predicate CodedBelow(code: seq<nat>, len: seq<Byte>, l: nat)
  {
    |code| == |len| && forall s :: 0 <= s < |len| && len[s] < l ==> code[s] == Code(len, s)
  }

  /** The inner loop of `gen_codes`: number the symbols of length `l` upwards from `vec0`. */
  method NumberLength(len: seq<Byte>, l: nat, code0: seq<nat>, vec0: nat) returns (code: seq<nat>, vec: nat)
    requires vec0 == First(len, l) && CodedBelow(code0, len, l)
    ensures vec == Next(len, l) && CodedBelow(code, len, l + 1)
  {
    code, vec := code0, vec0;
    var i := 0;
    while i < |len|
      invariant 0 <= i <= |len| && vec == First(len, l) + CountEq(len[..i], l)
      invariant CodedBelow(code, len, l)
      invariant forall s :: 0 <= s < i && len[s] == l ==> code[s] == Code(len, s)
    {
      CountEqStep(len, i, l);
      if len[i] == l {
        code := code[i := vec];
        vec := vec + 1;
      }
      i := i + 1;
    }
    assert len[..i] == len;
  }

  /** `gen_codes`. */
  method GenCodes(len: seq<Byte>) returns (code: seq<nat>)
    ensures |code| == |len| && forall s :: 0 <= s < |len| ==> code[s] == Code(len, s)
  {
    var mn, mx := Extremes(len);
    code := seq(|len|, _ => 0);
    var vec := 0;
    FirstIsZero(len, mn);
    var l := mn;
    while l <= mx
      invariant mn <= l && (l <= mx + 1 || mn > mx)
      invariant vec == First(len, l) && CodedBelow(code, len, l)
    {
      code, vec := NumberLength(len, l, code, vec);
      vec := vec * 2;
      l := l + 1;
    }
  }

  // ---------------------------------------------------------------- decoder tables

  /** `perm` holds every symbol of length below `l` at its sorted place. */
  ghost predicate PlacedBelow(perm: seq<nat>, len: seq<Byte>, l: nat)
  {
    |perm| == 258 && forall s :: 0 <= s < |len| && len[s] < l ==> Dest(len, s) < 258 && perm[Dest(len, s)] == s
  }

  method PlaceLength(len: seq<Byte>, l: nat, perm0: seq<nat>, pp0: nat) returns (perm: seq<nat>, pp: nat)
    requires |len| <= 258 && pp0 == CountLess(len, l) && PlacedBelow(perm0, len, l)
    ensures pp == CountLess(len, l + 1) && PlacedBelow(perm, len, l + 1)
  {
    perm, pp := perm0, pp0;
    var i := 0;
    while i < |len|
      invariant 0 <= i <= |len| && pp == CountLess(len, l) + CountEq(len[..i], l)
      invariant PlacedBelow(perm, len, l)
      invariant forall s :: 0 <= s < i && len[s] == l ==> Dest(len, s) < 258 && perm[Dest(len, s)] == s
    {
      CountEqStep(len, i, l);
      if len[i] == l {
        DestBound(len, i);
        assert pp == Dest(len, i);
        forall s | 0 <= s < |len| && s != i ensures Dest(len, s) != pp { DestInjective(len, s, i); }
        perm := perm[pp := i];
        pp := pp + 1;
      }
      i := i + 1;
    }
    assert len[..i] == len;
    CountLessNext(len, l);
  }

  /** The `perm` loops: symbols sorted by length, then by value. */
  method BuildPerm(len: seq<Byte>, mn: nat, mx: nat) returns (perm: seq<nat>)
    requires |len| <= 258 && mn == Shortest(len) && mx == Longest(len)
    ensures |perm| == 258 && forall j :: 0 <= j < |len| ==> perm[j] == Links(len)[j]
  {
    perm := seq(258, _ => 0);
    var pp, l := 0, mn;
    FirstIsZero(len, mn);
    while l <= mx
      invariant mn <= l && (l <= mx + 1 || mn > mx)
      invariant pp == CountLess(len, l) && PlacedBelow(perm, len, l)
    {
      perm, pp := PlaceLength(len, l, perm, pp);
      l := l + 1;
    }
    forall j | 0 <= j < |len| ensures perm[j] == Links(len)[j] { DestInvertsLinks(len, j); }
  }

  /** `base` first holds, for every `i`, how many symbols are shorter than `i`. */
  method CountBase(len: seq<Byte>) returns (base: seq<int>)
    requires forall s :: 0 <= s < |len| ==> len[s] <= MAX_TABLE_LENGTH
    ensures |base| == 25 && forall i :: 0 <= i <= 23 ==> base[i] == CountLess(len, i)
  {
    base := seq(25, _ => 0);
    var s := 0;
    while s < |len|
      invariant 0 <= s <= |len| && |base| == 25 && base[0] == 0
      invariant forall i :: 1 <= i <= 23 ==> base[i] == CountEq(len[..s], i - 1)
    {
      forall b | 0 <= b <= 22
        ensures CountEq(len[..s + 1], b) == CountEq(len[..s], b) + if len[s] == b then 1 else 0
      {
        CountEqStep(len, s, b);
      }
      base := base[len[s] + 1 := base[len[s] + 1] + 1];
      s := s + 1;
    }
    assert len[..s] == len;
    CountLessNone(len);
    var i := 1;
    while i <= 23
      invariant 1 <= i <= 24 && |base| == 25
      invariant forall k :: 0 <= k < i ==> base[k] == CountLess(len, k)
      invariant forall k :: i <= k <= 23 ==> base[k] == CountEq(len, k - 1)
    {
      CountLessNext(len, i - 1);
      base := base[i := base[i] + base[i - 1]];
      i := i + 1;
    }
  }

  /** The `limit` loop. */
  method BuildLimit(len: seq<Byte>, mn: nat, mx: nat, base: seq<int>) returns (limit: seq<int>)
    requires mn == Shortest(len) && mx == Longest(len) <= MAX_TABLE_LENGTH
    requires |base| == 25 && forall i :: 0 <= i <= 23 ==> base[i] == CountLess(len, i)
    ensures |limit| == 25 && forall l :: mn <= l <= mx ==> limit[l] == Limit(len, l)
  {
    limit := seq(25, _ => 0);
    var vec, l := 0, mn;
    FirstIsZero(len, mn);
    while l <= mx
      invariant mn <= l && (l <= mx + 1 || mn > mx) && |limit| == 25
      invariant vec == First(len, l)
      invariant forall k :: mn <= k <= mx && k < l ==> limit[k] == Limit(len, k)
    {
      CountLessNext(len, l);
      vec := vec + (base[l + 1] - base[l]);
      limit := limit[l := vec - 1];
      vec := vec * 2;
      l := l + 1;
    }
  }

  /** The last loop: `base` becomes what to subtract from a code. */
  method AdjustBase(len: seq<Byte>, mn: nat, mx: nat, base0: seq<int>, limit: seq<int>) returns (base: seq<int>)
    requires mn == Shortest(len) && mx == Longest(len) <= MAX_TABLE_LENGTH
    requires |base0| == 25 && forall i :: 0 <= i <= 23 ==> base0[i] == CountLess(len, i)
    requires |limit| == 25 && forall l :: mn <= l <= mx ==> limit[l] == Limit(len, l)
    ensures |base| == 25 && forall l :: mn <= l <= mx ==> base[l] == Base(len, l)
  {
    base := base0;
    FirstIsZero(len, mn);
    var l := mn + 1;
    while l <= mx
      invariant mn < l && (l <= mx + 1 || mn >= mx) && |base| == 25
      invariant forall k :: mn <= k <= mx && k < l ==> base[k] == Base(len, k)
      invariant forall k :: l <= k <= 23 ==> base[k] == CountLess(len, k)
    {
      base := base[l := (limit[l - 1] + 1) * 2 - base[l]];
      l := l + 1;
    }
  }

  /** One decoder: `limit`, `base`, `perm` and the shortest length. */
  datatype Tables = Tables(limit: seq<int>, base: seq<int>, perm: seq<nat>, minL: nat)

  /** The tables hold what decoding with lengths `len` needs. */
  ghost predicate TablesFor(t: Tables, len: seq<Byte>)
  {
    && |t.limit| == |t.base| == 25 && |t.perm| == 258 && |len| <= 258
    && t.minL == Shortest(len) && Longest(len) <= MAX_TABLE_LENGTH
    && (forall l :: t.minL <= l <= Longest(len) ==> t.limit[l] == Limit(len, l) && t.base[l] == Base(len, l))
    && (forall j :: 0 <= j < |len| ==> t.perm[j] == Links(len)[j])
  }

  method BuildTables(len: seq<Byte>) returns (t: Tables, mx: nat)
    requires |len| <= 258 && forall s :: 0 <= s < |len| ==> len[s] <= MAX_TABLE_LENGTH
    ensures TablesFor(t, len) && mx == Longest(len)
  {
    var mn;
    mn, mx := Extremes(len);
    LongestWithin(len);
    var perm := BuildPerm(len, mn, mx);
    var count := CountBase(len);
    var limit := BuildLimit(len, mn, mx, count);
    var base := AdjustBase(len, mn, mx, count, limit);
    t := Tables(limit, base, perm, mn);
  }

  lemma {:induction false} LongestWithin(len: seq<Byte>)
    requires forall s :: 0 <= s < |len| ==> len[s] <= MAX_TABLE_LENGTH
    ensures Longest(len) <= MAX_TABLE_LENGTH
  {
    if len != [] { var i := LongestAttained(len); }
  }
}
