/** `make_83`: the eleven bytes of a name in a directory record. */
module FatNames {
  import opened Bits
  import opened Seqs
  import opened FatRecords

  const SLASH: Byte := 0x2f

  function Upper(b: Byte): Byte
  {
    if 0x61 <= b <= 0x7a then b - 32 else b
  }

  function Uppers(s: seq<Byte>): (r: seq<Byte>)
    ensures |r| == |s| && forall i :: 0 <= i < |s| ==> r[i] == Upper(s[i])
  {
    seq(|s|, i requires 0 <= i < |s| => Upper(s[i]))
  }

  /** The length of the part before the last dot. */
  function Stem(name: seq<Byte>): (n: nat)
    ensures n <= |name| && (n < |name| ==> name[n] == DOT)
    ensures forall i :: n < i < |name| ==> name[i] != DOT
    ensures n == |name| ==> DOT !in name
  {
    if DOT !in name then |name|
    else if name[|name| - 1] == DOT then |name| - 1
    else
      assert name == name[..|name| - 1] + [name[|name| - 1]];
      Stem(name[..|name| - 1])
  }

  /** What stands behind the last dot. */
  function Suffix(name: seq<Byte>): (s: seq<Byte>)
    ensures |s| == if Stem(name) < |name| then |name| - Stem(name) - 1 else 0
  {
    if Stem(name) < |name| then name[Stem(name) + 1..] else []
  }

  predicate NameFits(name: seq<Byte>)
  {
    SLASH !in name && 1 <= Stem(name) <= 8 && |Suffix(name)| <= 3
  }

  function Padded(s: seq<Byte>, n: nat): (r: seq<Byte>)
    requires |s| <= n
    ensures |r| == n && forall i :: 0 <= i < n ==> r[i] == if i < |s| then s[i] else SPACE
  {
    s + Repeat(SPACE, n - |s|)
  }

  function Name83(name: seq<Byte>): (r: seq<Byte>)
    requires NameFits(name)
    ensures |r| == 11 && r[0] == Upper(name[0])
  {
    Padded(Uppers(name[..Stem(name)]), 8) + Padded(Uppers(Suffix(name)), 3)
  }

  /** The first loop of `make_83`. */
  method FindDot(name: seq<Byte>) returns (dot: int)
    ensures dot == if Stem(name) < |name| then Stem(name) as int else -1
  {
    dot := -1;
    for i := 0 to |name|
      invariant -1 <= dot < i && (dot >= 0 ==> name[dot] == DOT)
      invariant forall k :: 0 <= k < i && k > dot ==> name[k] != DOT
    {
      if name[i] == DOT { dot := i; }
    }
  }

  /** A name that does not fit is refused, not cut short. */
  method Make83(name: seq<Byte>) returns (ok: bool, out: seq<Byte>)
    ensures ok <==> NameFits(name)
    ensures ok ==> out == Name83(name)
  {
    hide Stem, Suffix, Upper, Name83, Repeat;
    out := Repeat(SPACE, 11);
    ghost var stem := Stem(name);
    var n, e := 0, 0;
    var dot := FindDot(name);
    for i := 0 to |name|
      invariant n == (if i <= stem then i else stem) && n <= 8 && e == (if i <= stem then 0 else i - stem - 1) && e <= 3
      invariant |out| == 11 && SLASH !in name[..i]
      invariant forall k :: 0 <= k < 8 ==> out[k] == if k < n then Upper(name[k]) else SPACE
      invariant forall k :: 8 <= k < 11 ==> out[k] == if k < 8 + e then Upper(name[stem + k - 7]) else SPACE
    {
      var ch := Upper(name[i]);
      SnocSlice(name, i);
      UpperSlash(name[i]);
      if ch == SLASH { return false, out; }
      if i == dot { continue; }
      if dot >= 0 && i > dot {
        if e >= 3 { return false, out; }
        out := out[8 + e := ch];
        e := e + 1;
      } else {
        if n >= 8 { return false, out; }
        out := out[n := ch];
        n := n + 1;
      }
    }
    assert name[..|name|] == name;
    ok := n != 0;
    if ok { NameIs(name, out); }
  }

  lemma {:induction false} UpperSlash(b: Byte)
    ensures Upper(b) == SLASH <==> b == SLASH
  {
  }

  lemma {:induction false} NameIs(name: seq<Byte>, out: seq<Byte>)
    requires NameFits(name) && |out| == 11
    requires forall k :: 0 <= k < 8 ==> out[k] == if k < Stem(name) then Upper(name[k]) else SPACE
    requires forall k :: 8 <= k < 11 ==>
        out[k] == if k < |name| - Stem(name) + 7 then Upper(name[Stem(name) + k - 7]) else SPACE
    ensures out == Name83(name)
  {
    hide Stem, Upper;
    var r, tail := Name83(name), Padded(Uppers(Suffix(name)), 3);
    forall k | 8 <= k < 11 ensures out[k] == r[k] {
      assert r[k] == tail[k - 8];
      if k < |name| - Stem(name) + 7 { assert Suffix(name)[k - 8] == name[Stem(name) + k - 7]; }
    }
  }

  /** The name of three dots is recorded under the name that means the parent directory. */
  lemma {:induction false} ThreeDots()
    ensures NameFits([DOT, DOT, DOT]) && Dots(NewFile(Name83([DOT, DOT, DOT])))
    ensures Live(NewFile(Name83([DOT, DOT, DOT])))
  {
    var name: seq<Byte> := [DOT, DOT, DOT];
    assert Stem(name) == 2;
    var e := NewFile(Name83(name));
    assert e[0] == DOT && e[1] == DOT && e[2] == SPACE && e[8] == SPACE && e[11] == 0x20;
    BeforeUnfold(e[..8], SPACE);
    BeforeUnfold(e[1..8], SPACE);
    BeforeUnfold(e[2..8], SPACE);
    assert e[..8][1..] == e[1..8] && e[1..8][1..] == e[2..8];
    var two: seq<Byte> := [DOT, DOT];
    assert ShortName(e) == two;
    BeforeUnfold(two, 0);
    BeforeUnfold(two[1..], 0);
    BeforeUnfold(two[1..][1..], 0);
    assert two[1..] == [DOT];
  }

  lemma {:induction false} NameNotZero(name: seq<Byte>)
    requires NameFits(name) && 0 !in name
    ensures |name| > 0 && Name83(name)[0] != 0 && (Name83(name)[0] == DELETED <==> name[0] == DELETED)
  {
  }

  // ---- looking a name up ----

  /** `name_eq` with the record's short name: equal but for case. A string ends at its first zero. */
  predicate Matches(e: seq<Byte>, name: seq<Byte>)
    requires |e| == 32
  {
    Uppers(Before(ShortName(e), 0)) == Uppers(name)
  }

  /** None of the first `n` records is listed under the name. */
  ghost predicate NoneNamed(raw: seq<Byte>, n: nat, name: seq<Byte>)
  {
    forall j :: 0 <= j < n ==> !(Live(Record(raw, j)) && Matches(Record(raw, j), name))
  }

  lemma {:induction false} NoneNamedMore(raw: seq<Byte>, n: nat, name: seq<Byte>)
    requires NoneNamed(raw, n, name) && !(Live(Record(raw, n)) && Matches(Record(raw, n), name))
    ensures NoneNamed(raw, n + 1, name)
  {
    hide Live, Matches, Record;
  }

  /** Nothing is listed behind the end. */
  lemma {:induction false} NoneBehind(raw: seq<Byte>, j: nat, n: nat, name: seq<Byte>)
    requires NoneNamed(raw, j, name) && j < n && Record(raw, j)[0] == 0 && Packed(raw, n)
    ensures NoneNamed(raw, n, name)
  {
    hide Matches, Record;
  }

  lemma {:induction false} NothingNamed(raw: seq<Byte>, name: seq<Byte>)
    ensures NoneNamed(raw, 0, name)
  {
  }
}
