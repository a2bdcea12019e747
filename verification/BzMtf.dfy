/** Move-to-front with bijective base-2 zero runs: vbzip2's symbol stream and its inverse. */
module BzMtf {
  import opened Bits
  import opened Seqs
  import opened BzRle1

  function MoveToFront(m: seq<nat>, j: nat): (r: seq<nat>)
    requires j < |m|
    ensures |r| == |m|
  {
    [m[j]] + m[..j] + m[j + 1..]
  }

  lemma {:induction false} MoveToFrontKeeps(m: seq<nat>, j: nat, v: nat)
    requires j < |m|
    ensures v in MoveToFront(m, j) <==> v in m
  {
    assert m == m[..j] + [m[j]] + m[j + 1..];
  }

  ghost predicate AllIn(vs: seq<nat>, m: seq<nat>)
  {
    forall i :: 0 <= i < |vs| ==> vs[i] in m
  }

  /** First position of `v`. */
  function Find(m: seq<nat>, v: nat): (j: nat)
    requires v in m
    ensures j < |m| && m[j] == v
    ensures forall i :: 0 <= i < j ==> m[i] != v
  {
    if m[0] == v then 0 else 1 + Find(m[1..], v)
  }

  /** The digits RUNA (0) and RUNB (1) of a run of `z` zeros. */
  function RunSyms(z: nat): (s: seq<nat>)
    ensures |s| <= z
    ensures forall i :: 0 <= i < |s| ==> s[i] < 2
  {
    if z == 0 then [] else [(z - 1) % 2] + RunSyms((z - 1) / 2)
  }

  /** The symbols for the rest `vs` of the column, with `z` zeros pending. */
  function Encode(vs: seq<nat>, m: seq<nat>, z: nat): (s: seq<nat>)
    requires AllIn(vs, m)
    decreases |vs|
  {
    if vs == [] then RunSyms(z)
    else
      var j := Find(m, vs[0]);
      if j == 0 then Encode(vs[1..], m, z + 1)
      else
        EncodePre(vs, m, j);
        RunSyms(z) + [j + 1] + Encode(vs[1..], MoveToFront(m, j), 0)
  }

  lemma {:induction false} EncodePre(vs: seq<nat>, m: seq<nat>, j: nat)
    requires vs != [] && j < |m| && AllIn(vs, m)
    ensures AllIn(vs[1..], MoveToFront(m, j))
  {
    forall i | 0 <= i < |vs[1..]| ensures vs[1..][i] in MoveToFront(m, j) {
      assert vs[1..][i] == vs[i + 1];
      MoveToFrontKeeps(m, j, vs[i + 1]);
    }
  }

  ghost predicate InRange(syms: seq<nat>, n: nat)
  {
    forall i :: 0 <= i < |syms| ==> syms[i] <= n
  }

  /** What the symbols stand for, with a run of `run` so far and next digit weight 2^bit. */
  function Decode(syms: seq<nat>, m: seq<nat>, run: nat, bit: nat): (vs: seq<nat>)
    requires m != [] && InRange(syms, |m|)
    decreases |syms|
  {
    if syms == [] then Repeat(m[0], run)
    else
      var sym := syms[0];
      if sym < 2 then Decode(syms[1..], m, run + (sym + 1) * Pow2(bit), bit + 1)
      else Repeat(m[0], run) + [m[sym - 1]] + Decode(syms[1..], MoveToFront(m, sym - 1), 0, 0)
  }

  lemma {:induction false} RunValue(z: nat, p: nat)
    requires z > 0
    ensures z * p == ((z - 1) % 2 + 1) * p + (z - 1) / 2 * (2 * p)
  {
    var d, h := (z - 1) % 2, (z - 1) / 2;
    assert z == d + 1 + 2 * h;
    assert (d + 1 + 2 * h) * p == (d + 1) * p + 2 * h * p;
    assert 2 * h * p == h * (2 * p);
  }

  lemma {:induction false} RunTotal(run: nat, z: nat, bit: nat)
    requires z > 0
    ensures run + ((z - 1) % 2 + 1) * Pow2(bit) + (z - 1) / 2 * Pow2(bit + 1) == run + z * Pow2(bit)
  {
    RunValue(z, Pow2(bit));
  }

  lemma {:induction false} DecodeDigit(d: nat, rest: seq<nat>, m: seq<nat>, run: nat, bit: nat)
    requires m != [] && d < 2 && InRange(rest, |m|)
    ensures InRange([d] + rest, |m|)
    ensures Decode([d] + rest, m, run, bit) == Decode(rest, m, run + (d + 1) * Pow2(bit), bit + 1)
  {
    assert ([d] + rest)[1..] == rest;
  }

  /** Reading the digits of `z` adds `z` units of the current weight to the run. */
  lemma {:induction false} DecodeRun(z: nat, rest: seq<nat>, m: seq<nat>, run: nat, bit: nat)
    requires m != [] && InRange(rest, |m|)
    ensures InRange(RunSyms(z) + rest, |m|)
    ensures Decode(RunSyms(z) + rest, m, run, bit) == Decode(rest, m, run + z * Pow2(bit), bit + |RunSyms(z)|)
    decreases z
  {
    hide Pow2, Decode;
    if z == 0 {
      EmptyLeft(rest);
      assert run + 0 * Pow2(bit) == run;
    } else {
      var d, h := (z - 1) % 2, (z - 1) / 2;
      DecodeRun(h, rest, m, run + (d + 1) * Pow2(bit), bit + 1);
      RunTotal(run, z, bit);
      Assoc([d], RunSyms(h), rest);
      DecodeDigit(d, RunSyms(h) + rest, m, run, bit);
    }
  }

  lemma {:induction false} DecodeWholeRun(z: nat, rest: seq<nat>, m: seq<nat>)
    requires m != [] && InRange(rest, |m|)
    ensures InRange(RunSyms(z) + rest, |m|)
    ensures Decode(RunSyms(z) + rest, m, 0, 0) == Decode(rest, m, z, |RunSyms(z)|)
  {
    DecodeRun(z, rest, m, 0, 0);
    assert Pow2(0) == 1;
    assert 0 + z * 1 == z;
  }

  lemma {:induction false} EncodeInRange(vs: seq<nat>, m: seq<nat>, z: nat)
    requires AllIn(vs, m)
    requires m != []
    ensures InRange(Encode(vs, m, z), |m|)
    ensures |Encode(vs, m, z)| <= z + |vs|
    decreases |vs|
  {
    if vs != [] {
      var j := Find(m, vs[0]);
      if j == 0 {
        EncodeInRange(vs[1..], m, z + 1);
      } else {
        EncodePre(vs, m, j);
        EncodeInRange(vs[1..], MoveToFront(m, j), 0);
      }
    }
  }

  /** Decoding the symbols gives the pending zeros and then the column back. */
  lemma {:induction false} DecodeEncode(vs: seq<nat>, m: seq<nat>, z: nat)
    requires m != [] && AllIn(vs, m)
    ensures InRange(Encode(vs, m, z), |m|)
    ensures Decode(Encode(vs, m, z), m, 0, 0) == Repeat(m[0], z) + vs
    decreases |vs|, 1
  {
    EncodeInRange(vs, m, z);
    if vs == [] {
      DecodeWholeRun(z, [], m);
      assert RunSyms(z) + [] == RunSyms(z);
    } else {
      var j := Find(m, vs[0]);
      if j == 0 {
        DecodeEncode(vs[1..], m, z + 1);
        assert Repeat(m[0], z + 1) + vs[1..] == Repeat(m[0], z) + vs;
      } else {
        DecodeMoved(vs, m, z, j);
      }
    }
  }

  lemma {:induction false} DecodeLiteral(j: nat, tail: seq<nat>, m: seq<nat>, run: nat, bit: nat)
    requires 0 < j < |m| && InRange(tail, |m|)
    ensures InRange([j + 1] + tail, |m|)
    ensures Decode([j + 1] + tail, m, run, bit)
         == Repeat(m[0], run) + [m[j]] + Decode(tail, MoveToFront(m, j), 0, 0)
  {
    assert ([j + 1] + tail)[1..] == tail;
  }

  lemma {:induction false} DecodeMoved(vs: seq<nat>, m: seq<nat>, z: nat, j: nat)
    requires m != [] && vs != [] && AllIn(vs, m)
    requires j == Find(m, vs[0]) && j > 0
    requires InRange(Encode(vs, m, z), |m|)
    ensures Decode(Encode(vs, m, z), m, 0, 0) == Repeat(m[0], z) + vs
    decreases |vs|, 0
  {
    hide Decode, RunSyms, MoveToFront, Repeat;
    var m' := MoveToFront(m, j);
    EncodePre(vs, m, j);
    EncodeInRange(vs[1..], m', 0);
    var tail := Encode(vs[1..], m', 0);
    DecodeEncode(vs[1..], m', 0);
    assert Decode(tail, m', 0, 0) == vs[1..] by {
      assert Repeat(m'[0], 0) + vs[1..] == vs[1..];
    }
    Assoc(RunSyms(z), [j + 1], tail);
    DecodeLiteral(j, tail, m, z, |RunSyms(z)|);
    DecodeWholeRun(z, [j + 1] + tail, m);
    ConsSlice(vs, 0);
    Assoc(Repeat(m[0], z), [m[j]], vs[1..]);
  }

  // ------------------------------------------------------- decoding symbol by symbol

  /** Where `decode_block`'s symbol loop stands: entries put out, list, pending run, next digit. */
  datatype Progress = Progress(out: seq<nat>, m: seq<nat>, run: nat, bit: nat)

  function Advance(st: Progress, sym: nat): (r: Progress)
    requires st.m != [] && sym <= |st.m|
    ensures |r.m| == |st.m|
  {
    if sym < 2 then st.(run := st.run + (sym + 1) * Pow2(st.bit), bit := st.bit + 1)
    else Progress(st.out + (Repeat(st.m[0], st.run) + [st.m[sym - 1]]), MoveToFront(st.m, sym - 1), 0, 0)
  }

  function After(syms: seq<nat>, m: seq<nat>): (r: Progress)
    requires m != [] && InRange(syms, |m|)
    ensures |r.m| == |m|
    decreases |syms|
  {
    if syms == [] then Progress([], m, 0, 0) else Advance(After(syms[..|syms| - 1], m), syms[|syms| - 1])
  }

  lemma {:induction false} AdvanceDecodes(st: Progress, sym: nat, rest: seq<nat>)
    requires st.m != [] && sym <= |st.m| && InRange(rest, |st.m|)
    ensures InRange([sym] + rest, |st.m|)
    ensures var st' := Advance(st, sym);
      st.out + Decode([sym] + rest, st.m, st.run, st.bit) == st'.out + Decode(rest, st'.m, st'.run, st'.bit)
  {
    assert ([sym] + rest)[1..] == rest;
    if sym >= 2 {
      Assoc(st.out, Repeat(st.m[0], st.run) + [st.m[sym - 1]], Decode(rest, MoveToFront(st.m, sym - 1), 0, 0));
    }
  }

  /** Decoding all at once is what the loop has put out, then decoding the rest from where it stands. */
  lemma {:induction false} DecodeContinues(syms: seq<nat>, rest: seq<nat>, m: seq<nat>)
    requires m != [] && InRange(syms, |m|) && InRange(rest, |m|)
    ensures InRange(syms + rest, |m|)
    ensures var st := After(syms, m);
      Decode(syms + rest, m, 0, 0) == st.out + Decode(rest, st.m, st.run, st.bit)
    decreases |syms|
  {
    if syms == [] {
      assert syms + rest == rest;
    } else {
      var init, last := syms[..|syms| - 1], syms[|syms| - 1];
      assert InRange([last] + rest, |m|);
      DecodeContinues(init, [last] + rest, m);
      AdvanceDecodes(After(init, m), last, rest);
      assert init + ([last] + rest) == syms + rest;
    }
  }

  /** With no symbols left the pending run is all there is to add. */
  lemma {:induction false} DecodeIsAfter(syms: seq<nat>, m: seq<nat>)
    requires m != [] && InRange(syms, |m|)
    ensures var st := After(syms, m); Decode(syms, m, 0, 0) == st.out + Repeat(st.m[0], st.run)
  {
    DecodeContinues(syms, [], m);
    assert syms + [] == syms;
  }

  // ----------------------------------------------------------- in-place move to front

  /** The shifting loop `while (v > 0) { m[v] = m[v-1]; v--; } m[0] = tmp` over the first `n` slots. */
  method ShiftToFront(mtf: array<nat>, n: nat, j: nat) returns (tmp: nat)
    requires j < n <= mtf.Length
    modifies mtf
    ensures tmp == old(mtf[j])
    ensures mtf[..n] == MoveToFront(old(mtf[..n]), j)
  {
    tmp := mtf[j];
    var v := j;
    while v > 0
      invariant 0 <= v <= j
      invariant forall i :: 0 <= i < v ==> mtf[i] == old(mtf[i])
      invariant forall i :: v < i <= j ==> mtf[i] == old(mtf[i - 1])
      invariant forall i :: j < i < mtf.Length ==> mtf[i] == old(mtf[i])
    {
      mtf[v] := mtf[v - 1];
      v := v - 1;
    }
    mtf[0] := tmp;
    ghost var was := old(mtf[..n]);
    forall i | 0 <= i < n ensures mtf[..n][i] == MoveToFront(was, j)[i] {
      if 0 < i <= j { assert MoveToFront(was, j)[i] == was[i - 1]; }
    }
  }

  /** `FLUSHZ`: append the digits of a pending run. */
  method FlushRun(sym: seq<nat>, zrun: nat) returns (out: seq<nat>)
    ensures out == sym + RunSyms(zrun)
  {
    out := sym;
    var z := zrun;
    while z > 0
      invariant out + RunSyms(z) == sym + RunSyms(zrun)
    {
      z := z - 1;
      out := out + [if z % 2 == 1 then 1 else 0];
      z := z / 2;
    }
  }

  function Identity(n: nat): (m: seq<nat>)
    ensures |m| == n && forall i :: 0 <= i < n ==> m[i] == i
  {
    seq(n, i => i)
  }

  lemma {:induction false} IdentityHas(n: nat, vs: seq<nat>)
    requires forall i :: 0 <= i < |vs| ==> vs[i] < n
    ensures AllIn(vs, Identity(n))
  {
    forall i | 0 <= i < |vs| ensures vs[i] in Identity(n) {
      assert Identity(n)[vs[i]] == vs[i];
    }
  }

  /** `while (mtf[j] != v) j++`. */
  method Search(mtf: array<nat>, v: nat) returns (j: nat)
    requires v in mtf[..]
    ensures j == Find(mtf[..], v)
  {
    j := 0;
    while mtf[j] != v
      invariant 0 <= j <= Find(mtf[..], v)
      decreases Find(mtf[..], v) - j
    {
      j := j + 1;
    }
  }

  lemma {:induction false} EncodeCons(vs: seq<nat>, m: seq<nat>, z: nat, j: nat)
    requires vs != [] && AllIn(vs, m) && j == Find(m, vs[0])
    ensures AllIn(vs[1..], MoveToFront(m, j))
    ensures j == 0 ==> AllIn(vs[1..], m) && MoveToFront(m, 0) == m && Encode(vs, m, z) == Encode(vs[1..], m, z + 1)
    ensures j > 0 ==> Encode(vs, m, z) == (RunSyms(z) + [j + 1]) + Encode(vs[1..], MoveToFront(m, j), 0)
  {
    EncodePre(vs, m, j);
    if j == 0 { assert MoveToFront(m, 0) == m; }
  }

  /** One column entry of the MTF and RLE2 loop; `rest` is the column from here on. */
  method EncodeOne(mtf: array<nat>, v: nat, sym: seq<nat>, zrun: nat, ghost rest: seq<nat>)
    returns (sym': seq<nat>, zrun': nat)
    requires rest != [] && rest[0] == v && AllIn(rest, mtf[..])
    modifies mtf
    ensures AllIn(rest[1..], mtf[..])
    ensures sym' + Encode(rest[1..], mtf[..], zrun') == sym + Encode(rest, old(mtf[..]), zrun)
  {
    hide Encode, RunSyms, MoveToFront, Find;
    ghost var m0 := mtf[..];
    var j := Search(mtf, v);
    EncodeCons(rest, m0, zrun, j);
    var tmp := ShiftToFront(mtf, mtf.Length, j);
    assert mtf[..] == mtf[..mtf.Length] && m0 == m0[..mtf.Length];
    if j == 0 {
      sym', zrun' := sym, zrun + 1;
    } else {
      sym' := FlushRun(sym, zrun);
      sym' := sym' + [j + 1];
      Assoc(sym, RunSyms(zrun), [j + 1]);
      Assoc(sym, RunSyms(zrun) + [j + 1], Encode(rest[1..], mtf[..], 0));
      zrun' := 0;
    }
  }

  /** The MTF and RLE2 loop of `compress_block`, over symbol indices. */
  method EncodeColumn(vs: seq<nat>, n: nat) returns (sym: seq<nat>)
    requires forall i :: 0 <= i < |vs| ==> vs[i] < n
    ensures AllIn(vs, Identity(n))
    ensures sym == Encode(vs, Identity(n), 0)
  {
    IdentityHas(n, vs);
    var mtf := new nat[n](i => i);
    assert mtf[..] == Identity(n);
    sym := [];
    var zrun, i := 0, 0;
    assert vs[0..] == vs;
    while i < |vs|
      invariant 0 <= i <= |vs|
      invariant AllIn(vs[i..], mtf[..])
      invariant sym + Encode(vs[i..], mtf[..], zrun) == Encode(vs, Identity(n), 0)
    {
      assert vs[i..][1..] == vs[i + 1..];
      sym, zrun := EncodeOne(mtf, vs[i], sym, zrun, vs[i..]);
      i := i + 1;
    }
    sym := FlushRun(sym, zrun);
  }
}
