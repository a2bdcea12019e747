/** `fdtgen.h`: a tree is written token by token into a caller's buffer, structure block growing from
    the front, pool of names in the last quarter; at the end the names are moved up against the
    structure block. What does not fit is noted once and refused at the end. */
module FdtWriter {
  import opened Bits
  import opened FdtFormat
  import opened FdtReader
  import opened FdtTree

  const HEADER: nat := 64

  /** The names after one more has been asked for. */
  function Interned(names: seq<seq<Byte>>, name: seq<Byte>): (r: seq<seq<Byte>>)
    ensures name in r && names <= r
  {
    if name in names then names else names + [name]
  }

  lemma {:induction false} PoolGrows(names: seq<seq<Byte>>, name: seq<Byte>)
    ensures |Pool(Interned(names, name))| == |Pool(names)| + (if name in names then 0 else |name| + 1)
    ensures name !in names ==>
        Pool(names + [name]) == Pool(names) + (name + [0]) && OffsetOf(names + [name], name) == |Pool(names)|
  {
    assert (names + [name])[..|names|] == names;
  }

  /** The `j`-th name in the pool. */
  lemma {:induction false} PoolAt(names: seq<seq<Byte>>, j: nat)
    requires j < |names|
    ensures |Pool(names[..j])| + |names[j]| + 1 == |Pool(names[..j + 1])| <= |Pool(names)|
    ensures Pool(names)[|Pool(names[..j])|..|Pool(names[..j + 1])|] == names[j] + [0]
    decreases |names|
  {
    var n := |names| - 1;
    assert names[..j + 1][..j] == names[..j];
    if j < n {
      PoolAt(names[..n], j);
      assert names[..n][..j] == names[..j] && names[..n][..j + 1] == names[..j + 1];
      var a, b := |Pool(names[..j])|, |Pool(names[..j + 1])|;
      assert Pool(names)[a..b] == Pool(names[..n])[a..b];
    } else {
      assert names[..j + 1] == names;
    }
  }

  lemma {:induction false} OffsetFirst(names: seq<seq<Byte>>, j: nat)
    requires j < |names| && names[j] !in names[..j]
    ensures OffsetOf(names, names[j]) == |Pool(names[..j])|
    decreases |names|
  {
    var n := |names| - 1;
    if j < n {
      assert names[..n][..j] == names[..j];
      OffsetFirst(names[..n], j);
      assert names[j] == names[..n][j];
    }
  }

  /** The names of the properties among the tokens, each where it first occurs. */
  function NamesIn(ts: seq<Token>): seq<seq<Byte>>
  {
    if ts == [] then []
    else
      var t, before := ts[|ts| - 1], NamesIn(ts[..|ts| - 1]);
      if t.Property? then Interned(before, t.name) else before
  }

  lemma {:induction false} NamesSnoc(ts: seq<Token>, t: Token)
    ensures NamesIn(ts + [t]) == if t.Property? then Interned(NamesIn(ts), t.name) else NamesIn(ts)
  {
    assert (ts + [t])[..|ts|] == ts;
  }

  /** What the caller asked for does not fit. */
  predicate Exceeds(cap: nat, need: nat, pool: nat)
  {
    (need > 0 && HEADER + need > cap - cap / 4) || pool > cap / 4
  }

  /** The structure block is as it should be while nothing has overflowed, and zero behind and before;
      `limit` is where the names begin. */
  ghost predicate StructOk(b: seq<Byte>, limit: nat, off: nat, overflow: bool, need: nat, written: seq<Byte>)
  {
    limit <= |b| && (off > 0 ==> HEADER + off <= limit)
    && (!overflow ==> need == off == |written| && (off > 0 ==> b[HEADER..HEADER + off] == written))
    && (!overflow ==> forall i :: HEADER + off <= i < limit ==> b[i] == 0)
    && (!overflow ==> forall i :: 0 <= i < HEADER && i < limit ==> b[i] == 0)
  }

  /** The names are as they should be. */
  ghost predicate PoolOk(b: seq<Byte>, limit: nat, stroff: nat, stored: seq<seq<Byte>>, names: seq<seq<Byte>>)
  {
    limit + stroff <= |b| && stroff == |Pool(stored)| && b[limit..limit + stroff] == Pool(stored)
    && (forall i :: 0 <= i < |stored| ==> Plain(stored[i]))
    && (stored == names || |Pool(names)| > |b| - limit)
  }

  /** Only bytes of one stretch have changed. */
  ghost predicate OnlyAt(was: seq<Byte>, now: seq<Byte>, at: nat, x: seq<Byte>)
  {
    |now| == |was| && at + |x| <= |was| && now[at..at + |x|] == x
    && forall i :: 0 <= i < |was| && !(at <= i < at + |x|) ==> now[i] == was[i]
  }

  /** Bytes and padding behind the structure block. */
  lemma {:induction false} StructPut(was: seq<Byte>, now: seq<Byte>, limit: nat, off: nat, overflow: bool, need: nat,
      written: seq<Byte>, x: seq<Byte>)
    requires StructOk(was, limit, off, overflow, need, written) && HEADER + off + Align4(|x|) <= limit
    requires OnlyAt(was, now, HEADER + off, x) && x != []
    ensures StructOk(now, limit, off + Align4(|x|), overflow, need + Align4(|x|), if overflow then written
        else written + Padded(x))
  {
    hide Align4;
    if !overflow {
      if off == 0 { assert was[HEADER..HEADER + off] == written; }
      Behind(now, was, HEADER, off, x, limit, written);
    }
  }

  lemma {:induction false} PoolKept(was: seq<Byte>, now: seq<Byte>, limit: nat, stroff: nat, stored: seq<seq<Byte>>,
      names: seq<seq<Byte>>, at: nat, x: seq<Byte>)
    requires PoolOk(was, limit, stroff, stored, names) && OnlyAt(was, now, at, x) && at + |x| <= limit
    ensures PoolOk(now, limit, stroff, stored, names)
  {
    hide Pool;
    SameTail(was, now, limit, stroff);
  }

  lemma {:induction false} StructKept(was: seq<Byte>, now: seq<Byte>, limit: nat, off: nat, overflow: bool, need: nat,
      written: seq<Byte>, at: nat, x: seq<Byte>)
    requires StructOk(was, limit, off, overflow, need, written) && OnlyAt(was, now, at, x) && limit <= at
    ensures StructOk(now, limit, off, overflow, need, written)
  {
    if off > 0 {
      var l, r := now[HEADER..HEADER + off], was[HEADER..HEADER + off];
      assert forall i :: 0 <= i < off ==> l[i] == r[i];
    }
  }

  /** A new name behind the pool. */
  lemma {:induction false} PoolPut(was: seq<Byte>, now: seq<Byte>, limit: nat, stroff: nat, stored: seq<seq<Byte>>,
      names: seq<seq<Byte>>, name: seq<Byte>)
    requires PoolOk(was, limit, stroff, stored, names) && OnlyAt(was, now, limit + stroff, name + [0])
    requires name !in stored && Plain(name)
    ensures PoolOk(now, limit, stroff + |name| + 1, stored + [name], Interned(names, name))
  {
    hide Pool, OffsetOf, Interned;
    assert forall i :: 0 <= i < |stored + [name]| ==> Plain((stored + [name])[i]);
    InternedIs(names, stored, name);
    PoolGrows(stored, name);
    PoolGrows(names, name);
    Extended(was, now, limit, Pool(stored), name + [0]);
  }

  lemma {:induction false} InternedIs(names: seq<seq<Byte>>, stored: seq<seq<Byte>>, name: seq<Byte>)
    requires name !in stored
    ensures stored == names ==> Interned(names, name) == stored + [name]
  {
  }

  class Generator {
    const buf: array<Byte>
    const cap: nat
    const stcap: nat
    var stroff: nat
    var off: nat
    var overflow: bool
    /** The structure bytes so far, the names stored, and what was asked for. */
    ghost var written: seq<Byte>
    ghost var stored: seq<seq<Byte>>
    ghost var names: seq<seq<Byte>>
    ghost var need: nat
    /** The tokens asked for. */
    ghost var ts: seq<Token>

    ghost predicate Valid()
      reads this, buf
    {
      buf.Length == cap < LIMIT && stcap == cap / 4
      && StructOk(buf[..], cap - stcap, off, overflow, need, written)
      && PoolOk(buf[..], cap - stcap, stroff, stored, names)
      && (overflow <==> Exceeds(cap, need, |Pool(names)|))
    }

    /** Between calls: what was asked for is there, or it does not fit. */
    ghost predicate Wrote()
      reads this, buf
    {
      Valid() && names == NamesIn(ts) && Known(ts, names) && Sized(ts) && need == |Struct(ts, names)|
      && (!overflow ==> written == Struct(ts, names))
    }

    /** `fg_init` */
    constructor (b: array<Byte>)
      requires b.Length < LIMIT
      modifies b
      ensures Wrote() && buf == b && cap == b.Length && names == [] && ts == []
    {
      buf, cap, stcap, stroff, off, overflow := b, b.Length, b.Length / 4, 0, 0, false;
      written, stored, names, need, ts := [], [], [], 0, [];
      new;
      for i := 0 to cap
        invariant forall j :: 0 <= j < i ==> buf[j] == 0
        modifies buf
      {
        buf[i] := 0;
      }
    }

    /** Bytes are copied to a place in the buffer. */
    method Copy(at: nat, x: seq<Byte>)
      requires at + |x| <= buf.Length
      modifies buf
      ensures OnlyAt(old(buf[..]), buf[..], at, x)
    {
      for i := 0 to |x|
        invariant forall j :: 0 <= j < i ==> buf[at + j] == x[j]
        invariant forall j :: 0 <= j < buf.Length && !(at <= j < at + i) ==> buf[j] == old(buf[j])
      {
        buf[at + i] := x[i];
      }
    }

    /** `fg_putbytes`: bytes and their padding go behind the structure block, or the overflow is noted. */
    method PutBytes(x: seq<Byte>)
      requires Valid() && 0 < |x| < LIMIT
      modifies buf, this`off, this`overflow, this`written, this`need
      ensures Valid() && need == old(need) + Align4(|x|) && (old(overflow) ==> overflow)
      ensures !overflow ==> written == old(written) + Padded(x)
    {
      hide StructOk, PoolOk, Pool, OnlyAt, Align4;
      var size := Align4(|x|);
      NeedIs(buf[..], cap - stcap, off, overflow, need, written, size);
      need := need + size;
      if HEADER + off + size > cap - stcap {
        overflow := true;
        return;
      }
      Copy(HEADER + off, x);
      StructPut(old(buf[..]), buf[..], cap - stcap, off, overflow, old(need), written, x);
      PoolKept(old(buf[..]), buf[..], cap - stcap, stroff, stored, names, HEADER + off, x);
      off := off + size;
      if !overflow { written := written + Padded(x); }
    }

    /** `fg_put32` */
    method Put32(v: nat)
      requires Valid()
      modifies buf, this`off, this`overflow, this`written, this`need
      ensures Valid() && need == old(need) + 4 && (old(overflow) ==> overflow)
      ensures !overflow ==> written == old(written) + Be32(v)
    {
      PutBytes(Be32(v));
      FourPadded(v);
    }

    /** The string at a place, compared letter by letter. */
    method Same(at: nat, name: seq<Byte>) returns (same: bool)
      requires at < buf.Length && at + StrLen(buf[..], at) < buf.Length && Plain(name)
      ensures same <==> buf[at..at + StrLen(buf[..], at)] == name
    {
      ghost var n := StrLen(buf[..], at);
      ghost var x := buf[at..at + n];
      var m := 0;
      while buf[at + m] != 0 && m < |name| && buf[at + m] == name[m]
        invariant m <= n && m <= |name| && x[..m] == name[..m]
        decreases n - m
      {
        m := m + 1;
      }
      same := buf[at + m] == 0 && m == |name|;
      StringsDiffer(buf[..], at, n, x, name, m);
    }

    /** The search of `fg_intern` along the pool. */
    method FindName(name: seq<Byte>) returns (found: bool, at: nat)
      requires Valid() && Plain(name)
      ensures found <==> name in stored
      ensures found ==> at == OffsetOf(stored, name)
    {
      hide Pool, OffsetOf, StructOk, Exceeds, StrLen;
      var st := cap - stcap;
      var i := 0;
      ghost var j := 0;
      NoPool(stored);
      while i < stroff
        invariant j <= |stored| && i == |Pool(stored[..j])| && name !in stored[..j]
        decreases |stored| - j
      {
        InsidePool(stored, j);
        PoolAt(stored, j);
        SliceAt(buf[..], st, Pool(stored), i, i + |stored[j]| + 1);
        StringAt(buf[..], st + i, stored[j]);
        var same := Same(st + i, name);
        if same {
          OffsetFirst(stored, j);
          return true, i;
        }
        i := i + StrLen(buf[..], st + i) + 1;
        assert stored[..j + 1] == stored[..j] + [stored[j]];
        j := j + 1;
      }
      AllPool(stored, j);
      return false, 0;
    }

    /** `fg_intern`: the place of the name in the pool, where it is put if it is new. */
    method Intern(name: seq<Byte>) returns (at: nat)
      requires Valid() && Plain(name) && |name| + 1 < LIMIT
      modifies buf, this`stroff, this`overflow, this`stored, this`names
      ensures Valid() && names == Interned(old(names), name) && (old(overflow) ==> overflow)
      ensures !overflow ==> at == OffsetOf(names, name) && names == stored
    {
      hide Pool, OffsetOf, StructOk, PoolOk, OnlyAt;
      var found;
      found, at := FindName(name);
      NamesAre(buf[..], cap - stcap, stroff, stored, names, name);
      names := Interned(names, name);
      if found { return; }
      var n := |name| + 1;
      if stroff + n > stcap {
        NeedIs(buf[..], cap - stcap, off, overflow, need, written, 0);
        overflow := true;
        return 0;
      }
      at := stroff;
      PoolGrows(stored, name);
      Copy(cap - stcap + stroff, name + [0]);
      PoolPut(old(buf[..]), buf[..], cap - stcap, stroff, stored, old(names), name);
      StructKept(old(buf[..]), buf[..], cap - stcap, off, overflow, need, written, cap - stcap + stroff, name + [0]);
      stroff := stroff + n;
      stored := stored + [name];
    }

    /** `fg_node` */
    method Node(name: seq<Byte>)
      requires Wrote() && Plain(name) && |name| + 1 < LIMIT
      modifies this, buf
      ensures Wrote() && ts == old(ts) + [Begin(name)] && names == old(names)
    {
      hide Pool, Struct, Be32, Padded, Exceeds, StructOk, PoolOk, Align4, NamesIn;
      Put32(BEGIN_NODE);
      PutBytes(name + [0]);
      StructSnoc(ts, Begin(name), names);
      NamesSnoc(ts, Begin(name));
      ts := ts + [Begin(name)];
    }

    /** `fg_end_node` */
    method EndNode_()
      requires Wrote()
      modifies this, buf
      ensures Wrote() && ts == old(ts) + [EndNode] && names == old(names)
    {
      hide Pool, Struct, Be32, Exceeds, StructOk, PoolOk, NamesIn;
      Put32(END_NODE);
      StructSnoc(ts, EndNode, names);
      NamesSnoc(ts, EndNode);
      ts := ts + [EndNode];
    }

    /** `fg_prop` */
    method Prop_(name: seq<Byte>, val: seq<Byte>)
      requires Wrote() && Plain(name) && |name| + 1 < LIMIT && |val| < LIMIT
      modifies this, buf
      ensures Wrote() && ts == old(ts) + [Property(name, val)] && names == Interned(old(names), name)
    {
      hide Pool, Struct, Be32, Padded, Exceeds, StructOk, PoolOk, Align4, OffsetOf, NamesIn, Interned;
      StructInterned(ts, names, name);
      var at := Intern(name);
      ghost var w := written;
      Put32(PROP);
      Put32(|val|);
      Put32(at);
      PropertyPieces(w, val, at);
      NoPadding();
      if |val| > 0 { PutBytes(val); }
      StructSnoc(ts, Property(name, val), names);
      NamesSnoc(ts, Property(name, val));
      ts := ts + [Property(name, val)];
    }

    /** The names move up, first to last; the stretches may overlap. */
    method MoveUp(to: nat, from: nat, n: nat)
      requires to <= from && from + n <= buf.Length
      modifies buf
      ensures buf[to..to + n] == old(buf[from..from + n])
      ensures forall i :: 0 <= i < to ==> buf[i] == old(buf[i])
    {
      ghost var was := buf[..];
      ghost var x := was[from..from + n];
      for i := 0 to n
        invariant forall j :: to <= j < to + i ==> buf[j] == x[j - to]
        invariant forall j :: 0 <= j < to || to + i <= j < buf.Length ==> buf[j] == was[j]
      {
        assert was[from + i] == x[i];
        buf[to + i] := buf[from + i];
      }
    }

    method ClearFrom(p: nat)
      requires p <= buf.Length
      modifies buf
      ensures forall i :: 0 <= i < buf.Length ==> buf[i] == if i < p then old(buf[i]) else 0
    {
      for i := p to buf.Length
        invariant forall j :: 0 <= j < buf.Length ==> buf[j] == if p <= j < i then 0 else old(buf[j])
      {
        buf[i] := 0;
      }
    }

    /** The names move up against the structure block and the header is filled in. */
    method Assemble() returns (total: nat)
      requires Ready(buf[..], cap, stcap, off, stroff, ts, names)
      modifies buf
      ensures total == HEADER + off + stroff && Finished(buf[..], total, ts, names)
    {
      hide Pool, Struct, Be32, OnlyAt, Header, Finished, Known, Sized;
      ghost var one := buf[..];
      var stringsOff := HEADER + off;
      MoveUp(stringsOff, cap - stcap, stroff);
      ghost var two := buf[..];
      ClearFrom(stringsOff + stroff);
      ghost var three := buf[..];
      total := stringsOff + stroff;
      Copy(0, Header(total, stringsOff, stroff, off));
      Assembled(one, two, three, buf[..], cap - stcap, off, stroff, ts, names);
    }

    /** `fg_finish`: the size of the finished blob, or 0 exactly when what was asked for does not fit. */
    method Finish() returns (total: nat)
      requires Wrote()
      modifies this, buf
      ensures ts == old(ts) && names == old(names)
      ensures total == 0 <==> Exceeds(cap, |Struct(ts, names)| + 4, |Pool(names)|)
      ensures total != 0 ==> Finished(buf[..], total, ts, names)
    {
      hide Pool, Struct, Be32, Exceeds, StructOk, PoolOk, Finished, NamesIn, Known, Sized, Ready;
      Put32(END);
      if overflow { return 0; }
      NeedIs(buf[..], cap - stcap, off, overflow, need, written, 0);
      Fits(buf[..], cap, cap - stcap, off, need, written, stroff, stored, names, ts);
      total := Assemble();
    }
  }

  /** Everything is in its place for the last step. */
  ghost predicate Ready(b: seq<Byte>, cap: nat, stcap: nat, off: nat, stroff: nat, ts: seq<Token>,
      names: seq<seq<Byte>>)
  {
    |b| == cap < LIMIT && stcap <= cap && Known(ts, names) && Sized(ts) && stroff == |Pool(names)|
    && HEADER + off <= cap - stcap && cap - stcap + stroff <= cap && b[cap - stcap..cap - stcap + stroff] == Pool(names)
    && off == |Struct(ts, names)| + 4 && b[HEADER..HEADER + off] == Struct(ts, names) + Be32(END)
    && forall i :: 0 <= i < HEADER ==> b[i] == 0
  }

  /** The header: magic, sizes and offsets, versions. */
  function Header(total: nat, stringsOff: nat, stringsSize: nat, structSize: nat): (h: seq<Byte>)
    ensures |h| == 40
  {
    Be32(MAGIC) + Be32(total) + Be32(HEADER) + Be32(stringsOff) + Be32(40) + Be32(17) + Be32(16) + Be32(0)
    + Be32(stringsSize) + Be32(structSize)
  }

  /** A finished blob: the header's words, zeroes up to the structure block, tokens and names, zeroes. */
  ghost predicate Finished(b: seq<Byte>, total: nat, ts: seq<Token>, names: seq<seq<Byte>>)
  {
    Known(ts, names)
    && var size, strings := |Struct(ts, names)| + 4, HEADER + |Struct(ts, names)| + 4;
    total == strings + |Pool(names)| <= |b| && b[..40] == Header(total, strings, |Pool(names)|, size)
    && Holds(Fdt(b, HEADER, strings, size), ts, names)
    && (forall i :: 40 <= i < HEADER ==> b[i] == 0) && forall i :: total <= i < |b| ==> b[i] == 0
  }

  /** What is known when nothing has overflowed. */
  lemma {:induction false} Fits(b: seq<Byte>, cap: nat, limit: nat, off: nat, need: nat, written: seq<Byte>,
      stroff: nat,
      stored: seq<seq<Byte>>, names: seq<seq<Byte>>, ts: seq<Token>)
    requires StructOk(b, limit, off, false, need, written) && PoolOk(b, limit, stroff, stored, names) && off > 0
    requires |b| == cap < LIMIT && limit == cap - cap / 4 && !Exceeds(cap, need, |Pool(names)|)
    requires Known(ts, names) && Sized(ts) && written == Struct(ts, names) + Be32(END)
    ensures Ready(b, cap, cap / 4, off, stroff, ts, names)
  {
    hide Pool, Struct, Be32, Known, Sized;
  }

  lemma {:induction false} Assembled(one: seq<Byte>, two: seq<Byte>, three: seq<Byte>, b: seq<Byte>, limit: nat,
      size: nat, n: nat,
      ts: seq<Token>, names: seq<seq<Byte>>)
    requires |one| == |two| == |three| == |b| < LIMIT && Known(ts, names) && Sized(ts) && n == |Pool(names)|
    requires HEADER + size <= limit && limit + n <= |one| && one[limit..limit + n] == Pool(names)
    requires size == |Struct(ts, names)| + 4 && one[HEADER..HEADER + size] == Struct(ts, names) + Be32(END)
    requires forall i :: 0 <= i < HEADER ==> one[i] == 0
    requires two[HEADER + size..HEADER + size + n] == one[limit..limit + n]
    requires forall i :: 0 <= i < HEADER + size ==> two[i] == one[i]
    requires forall i :: 0 <= i < |b| ==> three[i] == if i < HEADER + size + n then two[i] else 0
    requires OnlyAt(three, b, 0, Header(HEADER + size + n, HEADER + size, n, size))
    ensures Finished(b, HEADER + size + n, ts, names)
  {
    hide Pool, Struct, Be32, Header;
    var s, e, strings := Struct(ts, names), Be32(END), HEADER + size;
    var h := Header(strings + n, strings, n, size);
    assert b[..40] == b[0..0 + |h|];
    assert forall i :: 40 <= i < |b| ==> b[i] == three[i];
    var x, y := b[HEADER..HEADER + size], one[HEADER..HEADER + size];
    assert forall i :: 0 <= i < size ==> x[i] == y[i];
    assert x == s + e;
    SliceAt(b, HEADER, s + e, 0, |s|);
    SliceAt(b, HEADER, s + e, |s|, size);
    assert (s + e)[0..|s|] == s && (s + e)[|s|..size] == e;
    var u, v := b[strings..strings + n], two[strings..strings + n];
    assert forall i :: 0 <= i < n ==> u[i] == v[i];
  }

  lemma {:induction false} StructSnoc(ts: seq<Token>, t: Token, names: seq<seq<Byte>>)
    requires Known(ts, names) && (t.Property? ==> t.name in names)
    ensures Known(ts + [t], names) && Struct(ts + [t], names) == Struct(ts, names) + Code(t, names)
  {
    assert (ts + [t])[..|ts|] == ts;
  }

  /** A new name moves none. */
  lemma {:induction false} StructInterned(ts: seq<Token>, names: seq<seq<Byte>>, name: seq<Byte>)
    requires Known(ts, names)
    ensures Known(ts, Interned(names, name)) && Struct(ts, Interned(names, name)) == Struct(ts, names)
  {
    if name !in names { StructStays(ts, names, [name]); }
  }

  /** A property's bytes put piece by piece. */
  lemma {:induction false} PropertyPieces(w: seq<Byte>, val: seq<Byte>, o: nat)
    ensures w + Be32(PROP) + Be32(|val|) + Be32(o) + Padded(val)
        == w + (Be32(PROP) + (Be32(|val|) + (Be32(o) + Padded(val))))
    ensures val == [] ==> w + Be32(PROP) + Be32(|val|) + Be32(o) == w + Be32(PROP) + Be32(|val|) + Be32(o) + Padded(val)
  {
    hide Be32, Padded;
    if val == [] { NoPadding(); }
  }

  lemma {:induction false} NoPadding()
    ensures Align4(0) == 0 && Padded([]) == []
  {
  }

  /** What a put may find. */
  lemma {:induction false} NeedIs(b: seq<Byte>, limit: nat, off: nat, overflow: bool, need: nat, written: seq<Byte>,
      size: nat)
    requires StructOk(b, limit, off, overflow, need, written)
    ensures !overflow ==> need == off
    ensures StructOk(b, limit, off, true, need + size, written)
  {
  }

  /** What a name may find. */
  lemma {:induction false} NamesAre(b: seq<Byte>, limit: nat, stroff: nat, stored: seq<seq<Byte>>,
      names: seq<seq<Byte>>, name: seq<Byte>)
    requires PoolOk(b, limit, stroff, stored, names)
    ensures limit + stroff <= |b| && stroff == |Pool(stored)| && (|Pool(names)| <= |b| - limit ==> stored == names)
    ensures name in stored || stroff + |name| + 1 > |b| - limit ==>
        PoolOk(b, limit, stroff, stored, Interned(names, name))
    ensures |Pool(Interned(names, name))| >= |Pool(names)|
    ensures |Pool(names)| <= |b| - limit ==>
        |Pool(Interned(names, name))| == stroff + if name in stored then 0 else |name| + 1
  {
    hide Pool;
    PoolGrows(names, name);
  }

  lemma {:induction false} StringsDiffer(b: seq<Byte>, at: nat, n: nat, x: seq<Byte>, name: seq<Byte>, m: nat)
    requires at + n < |b| && n == StrLen(b, at) && x == b[at..at + n] && Plain(name) && m <= n && m <= |name|
    requires x[..m] == name[..m]
    requires b[at + m] == 0 || m == |name| || b[at + m] != name[m]
    ensures x == name <==> b[at + m] == 0 && m == |name|
  {
    if m < n { assert x[m] == b[at + m]; }
    if m == n && m == |name| { assert x[..m] == x && name[..m] == name; }
  }

  lemma {:induction false} NoPool(names: seq<seq<Byte>>)
    ensures |Pool(names[..0])| == 0
  {
  }

  lemma {:induction false} FourPadded(v: nat)
    ensures Padded(Be32(v)) == Be32(v)
  {
  }

  lemma {:induction false} InsidePool(names: seq<seq<Byte>>, j: nat)
    requires j <= |names| && |Pool(names[..j])| < |Pool(names)|
    ensures j < |names|
  {
    assert names[..|names|] == names;
  }

  lemma {:induction false} AllPool(names: seq<seq<Byte>>, j: nat)
    requires j <= |names| && |Pool(names[..j])| >= |Pool(names)|
    ensures j == |names| && names[..j] == names
  {
    if j < |names| { PoolAt(names, j); }
  }

  /** Bytes put behind a structure block, where zeroes were. */
  lemma {:induction false} Behind(now: seq<Byte>, was: seq<Byte>, h: nat, off: nat, x: seq<Byte>, limit: nat,
      written: seq<Byte>)
    requires |now| == |was| && h + off + Align4(|x|) <= limit <= |was| && now[h + off..h + off + |x|] == x
    requires forall i :: 0 <= i < |was| && !(h + off <= i < h + off + |x|) ==> now[i] == was[i]
    requires |written| == off && was[h..h + off] == written && forall i :: h + off <= i < limit ==> was[i] == 0
    ensures now[h..h + off + Align4(|x|)] == written + Padded(x)
    ensures forall i :: h + off + Align4(|x|) <= i < limit ==> now[i] == 0
  {
    hide Align4;
    var l, r, p := now[h..h + off + Align4(|x|)], written + Padded(x), Padded(x);
    forall i | 0 <= i < |l| ensures l[i] == r[i] {
      if i < off {
        assert was[h..h + off][i] == written[i];
      } else if i < off + |x| {
        assert now[h + off..h + off + |x|][i - off] == x[i - off] == p[..|x|][i - off];
      }
    }
  }

  /** Bytes put behind the pool. */
  lemma {:induction false} Extended(was: seq<Byte>, now: seq<Byte>, st: nat, pool: seq<Byte>, x: seq<Byte>)
    requires |now| == |was| && st + |pool| + |x| <= |was| && was[st..st + |pool|] == pool
    requires now[st + |pool|..st + |pool| + |x|] == x
    requires forall i :: 0 <= i < |was| && !(st + |pool| <= i < st + |pool| + |x|) ==> now[i] == was[i]
    ensures now[st..st + |pool| + |x|] == pool + x
  {
    var l, r := now[st..st + |pool| + |x|], pool + x;
    forall i | 0 <= i < |l| ensures l[i] == r[i] {
      if i < |pool| { assert was[st..st + |pool|][i] == pool[i]; }
      else { assert now[st + |pool|..st + |pool| + |x|][i - |pool|] == x[i - |pool|]; }
    }
  }

  lemma {:induction false} SameTail(was: seq<Byte>, now: seq<Byte>, st: nat, n: nat)
    requires |now| == |was| && st + n <= |was| && forall i :: st <= i < |was| ==> now[i] == was[i]
    ensures now[st..st + n] == was[st..st + n]
  {
  }
}
