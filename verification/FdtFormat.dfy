/** Flattened device trees as bytes: tokens, the structure block they make, and the pool of property
    names. Everything is big-endian (section 5.4 of the Devicetree Specification v0.4). */
module FdtFormat {
  import opened Bits
  import opened Seqs

  const BEGIN_NODE: nat := 1
  const END_NODE: nat := 2
  const PROP: nat := 3
  const NOP: nat := 4
  const END: nat := 9
  const WORD: nat := 0x1_0000_0000

  // ---------------------------------------------------------------------- words

  function Four(a: int, b: int, c: int, d: int): int
  {
    16777216 * a + 65536 * b + 256 * c + d
  }

  function Be32(v: nat): (r: seq<Byte>)
    ensures |r| == 4
  {
    [v / 16777216 % 256, v / 65536 % 256, v / 256 % 256, v % 256]
  }

  function Rd32(s: seq<Byte>, o: nat): (v: nat)
    requires o + 4 <= |s|
    ensures v < WORD
  {
    Four(s[o], s[o + 1], s[o + 2], s[o + 3])
  }

  lemma {:induction false} FourBack(v: nat)
    requires v < WORD
    ensures Four(v / 16777216 % 256, v / 65536 % 256, v / 256 % 256, v % 256) == v
  {
    var a, b, c := v / 256, v / 65536, v / 16777216;
    assert v == 256 * a + v % 256;
    assert a == 256 * (a / 256) + a % 256 && a / 256 == b;
    assert b == 256 * (b / 256) + b % 256 && b / 256 == c;
    assert c < 256 && c % 256 == c;
  }

  /** A word is read where it was written. */
  lemma {:induction false} WordAt(s: seq<Byte>, o: nat, v: nat)
    requires o + 4 <= |s| && s[o..o + 4] == Be32(v) && v < WORD
    ensures Rd32(s, o) == v
  {
    hide Four;
    FourBack(v);
    var b := Be32(v);
    assert s[o] == s[o..o + 4][0] && s[o + 1] == s[o..o + 4][1] && s[o + 2] == s[o..o + 4][2]
        && s[o + 3] == s[o..o + 4][3];
  }

  // -------------------------------------------------------------------- strings

  /** How many bytes before the first zero at or after `o`; as many as there are if there is none. */
  function StrLen(s: seq<Byte>, o: nat): (n: nat)
    requires o <= |s|
    ensures o + n <= |s| && (forall i :: o <= i < o + n ==> s[i] != 0) && (o + n < |s| ==> s[o + n] == 0)
    decreases |s| - o
  {
    if o == |s| || s[o] == 0 then 0 else 1 + StrLen(s, o + 1)
  }

  /** A string that ends where it should. */
  predicate Plain(name: seq<Byte>)
  {
    0 !in name
  }

  lemma {:induction false} StringAt(s: seq<Byte>, o: nat, name: seq<Byte>)
    requires o + |name| + 1 <= |s| && s[o..o + |name| + 1] == name + [0] && Plain(name)
    ensures StrLen(s, o) == |name| && s[o..o + StrLen(s, o)] == name
  {
    var c := s[o..o + |name| + 1];
    assert forall i :: 0 <= i <= |name| ==> s[o + i] == c[i];
    forall i | 0 <= i < |name| ensures c[i] != 0 { assert c[i] == name[i]; assert name[i] in name; }
    assert s[o + |name|] == 0;
    assert c[..|name|] == name;
    assert forall i :: 0 <= i < |name| ==> s[o..o + |name|][i] == name[i];
    assert s[o..o + |name|] == name;
  }

  // --------------------------------------------------------------------- tokens

  datatype Token = Begin(name: seq<Byte>) | Property(name: seq<Byte>, val: seq<Byte>) | EndNode

  /** `align4` */
  function Align4(n: nat): (r: nat)
    ensures n <= r < n + 4
  {
    (n + 3) / 4 * 4
  }

  function Padded(s: seq<Byte>): (r: seq<Byte>)
    ensures |r| == Align4(|s|) && r[..|s|] == s && forall i :: |s| <= i < |r| ==> r[i] == 0
  {
    s + Repeat(0, Align4(|s|) - |s|)
  }

  /** The pool: names one after another, each with its zero. */
  function Pool(names: seq<seq<Byte>>): seq<Byte>
  {
    if names == [] then [] else Pool(names[..|names| - 1]) + (names[|names| - 1] + [0])
  }

  /** Where a name is in the pool. */
  function OffsetOf(names: seq<seq<Byte>>, name: seq<Byte>): (o: nat)
    requires name in names
    ensures o + |name| + 1 <= |Pool(names)| && Pool(names)[o..o + |name| + 1] == name + [0]
  {
    var n := |names| - 1;
    if name in names[..n] then
      var o := OffsetOf(names[..n], name);
      assert Pool(names)[o..o + |name| + 1] == Pool(names[..n])[o..o + |name| + 1];
      o
    else
      assert names == names[..n] + [names[n]];
      |Pool(names[..n])|
  }

  /** A longer pool has the names where they were. */
  lemma {:induction false} OffsetStays(names: seq<seq<Byte>>, more: seq<seq<Byte>>, name: seq<Byte>)
    requires name in names
    ensures name in names + more && OffsetOf(names + more, name) == OffsetOf(names, name)
    decreases |more|
  {
    if more == [] {
      assert names + more == names;
    } else {
      var k := |more| - 1;
      OffsetStays(names, more[..k], name);
      assert (names + more)[..|names + more| - 1] == names + more[..k];
    }
  }

  /** What the writer puts for a token. */
  function Code(t: Token, names: seq<seq<Byte>>): (r: seq<Byte>)
    requires t.Property? ==> t.name in names
  {
    match t
    case Begin(name) => Be32(BEGIN_NODE) + Padded(name + [0])
    case Property(name, val) => Be32(PROP) + (Be32(|val|) + (Be32(OffsetOf(names, name)) + Padded(val)))
    case EndNode => Be32(END_NODE)
  }

  ghost predicate Known(ts: seq<Token>, names: seq<seq<Byte>>)
  {
    forall k :: 0 <= k < |ts| && ts[k].Property? ==> ts[k].name in names
  }

  function Struct(ts: seq<Token>, names: seq<seq<Byte>>): (r: seq<Byte>)
    requires forall k :: 0 <= k < |ts| && ts[k].Property? ==> ts[k].name in names
  {
    if ts == [] then [] else Struct(ts[..|ts| - 1], names) + Code(ts[|ts| - 1], names)
  }

  lemma {:induction false} StructStays(ts: seq<Token>, names: seq<seq<Byte>>, more: seq<seq<Byte>>)
    requires Known(ts, names)
    ensures Known(ts, names + more) && Struct(ts, names + more) == Struct(ts, names)
  {
    if ts != [] {
      StructStays(ts[..|ts| - 1], names, more);
      var t := ts[|ts| - 1];
      if t.Property? { OffsetStays(names, more, t.name); }
    }
  }

  /** Where the `k`-th token is. */
  ghost function Off(ts: seq<Token>, names: seq<seq<Byte>>, k: nat): nat
    requires k <= |ts| && Known(ts, names)
  {
    |Struct(ts[..k], names)|
  }

  lemma {:induction false} StructUnfold(ts: seq<Token>, names: seq<seq<Byte>>)
    requires Known(ts, names) && ts != []
    ensures Known(ts[..|ts| - 1], names)
    ensures Struct(ts, names) == Struct(ts[..|ts| - 1], names) + Code(ts[|ts| - 1], names)
  {
  }

  lemma {:induction false} PartOf(a: seq<Byte>, b: seq<Byte>, p: nat, q: nat)
    requires p <= q <= |a|
    ensures (a + b)[p..q] == a[p..q] && (a + b)[|a|..|a| + |b|] == b
  {
  }

  /** The `k`-th token's bytes are at its place. */
  lemma {:induction false} TokenAt(ts: seq<Token>, names: seq<seq<Byte>>, k: nat)
    requires k < |ts| && Known(ts, names)
    ensures Off(ts, names, k) + |Code(ts[k], names)| == Off(ts, names, k + 1) <= |Struct(ts, names)|
    ensures Struct(ts, names)[Off(ts, names, k)..Off(ts, names, k + 1)] == Code(ts[k], names)
    decreases |ts|
  {
    hide Code, Struct;
    var n := |ts| - 1;
    StructUnfold(ts, names);
    assert ts[..k + 1][..k] == ts[..k];
    if k < n {
      TokenAt(ts[..n], names, k);
      assert ts[..n][..k] == ts[..k] && ts[..n][..k + 1] == ts[..k + 1];
      PartOf(Struct(ts[..n], names), Code(ts[n], names), Off(ts, names, k), Off(ts, names, k + 1));
    } else {
      assert ts[..k + 1] == ts;
      PartOf(Struct(ts[..n], names), Code(ts[n], names), 0, 0);
    }
  }

  lemma {:induction false} OffEnd(ts: seq<Token>, names: seq<seq<Byte>>)
    requires Known(ts, names)
    ensures Off(ts, names, |ts|) == |Struct(ts, names)| && Off(ts, names, 0) == 0
  {
    assert ts[..|ts|] == ts && ts[..0] == [];
  }

  /** Lengths that the reader's 32-bit integers can hold, and names without zeros. */
  ghost predicate Sized(ts: seq<Token>)
  {
    forall k :: 0 <= k < |ts| ==> (ts[k].Begin? ==> Plain(ts[k].name)) && (ts[k].Property? ==> Plain(ts[k].name))
  }
}
