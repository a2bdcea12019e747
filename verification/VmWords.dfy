/** Page-table words: the fields of a 64-bit descriptor that `vm.c` tests and sets. */
module VmWords {
  import opened Bits


  /** One more than the largest frame number bits 12 to 47 (`ADDR_MASK`) can hold. */
  const MAX_FRAME: nat := 0x10_0000_0000

  /** `D_TABLE` and `D_PAGE` are both 3. */
  predicate Linked(w: nat)
  {
    w % 4 == 3
  }

  /** `D_AP_EL0`: a program may reach the page. */
  predicate El0(w: nat)
  {
    w / 64 % 2 == 1
  }

  /** `D_AP_RO`: nobody may write through this entry. */
  predicate Ro(w: nat)
  {
    w / 128 % 2 == 1
  }

  /** `w & ADDR_MASK`, as a frame number. */
  function FrameOf(w: nat): (f: nat)
    ensures f < MAX_FRAME
  {
    w / 4096 % MAX_FRAME
  }

  /** `w | D_AP_RO` */
  function SetRo(w: nat): nat
  {
    if Ro(w) then w else w + 128
  }

  /** `w & ~D_AP_RO` */
  function ClearRo(w: nat): nat
  {
    if Ro(w) then w - 128 else w
  }

  /** Everything but the address and the read-only bit: `w & ~ADDR_MASK & ~D_AP_RO`. */
  function Attrs(w: nat): (a: nat)
  {
    ClearRo(w) % 4096 + w / 4096 / MAX_FRAME * (4096 * MAX_FRAME)
  }

  function TableDesc(f: nat): nat
  {
    f * 4096 + 3
  }

  /** The attributes `map_user_page` asks for: a normal, inner-shareable page that
      programs reach and the kernel does not execute. */
  function UserAttrs(executable: bool): nat
  {
    0x20_0000_0000_0000 + 0x747 + if executable then 0 else 0x40_0000_0000_0000
  }

  /** An entry for frame `f` with the given attributes, writable. */
  function PageDesc(f: nat, attrs: nat): nat
  {
    f * 4096 + attrs
  }

  /** The entry leads to a page programs may reach. */
  predicate UserPage(w: nat)
  {
    Linked(w) && El0(w)
  }

  lemma {:induction false} TableFields(f: nat)
    requires f < MAX_FRAME
    ensures Linked(TableDesc(f)) && FrameOf(TableDesc(f)) == f && TableDesc(f) != 0
  {
  }

  /** A word splits into high bits, a frame and twelve low bits. */
  lemma {:induction false} Split(w: nat) returns (hi: nat, lo: nat)
    ensures lo < 4096 && w == (hi * MAX_FRAME + FrameOf(w)) * 4096 + lo
    ensures hi == w / 4096 / MAX_FRAME && lo == w % 4096
  {
    hi := w / 4096 / MAX_FRAME;
    lo := w % 4096;
    var q := w / 4096;
    assert q == hi * MAX_FRAME + q % MAX_FRAME;
  }

  lemma {:induction false} Joined(q: nat, lo: nat)
    requires lo < 4096
    ensures (q * 4096 + lo) / 4096 == q && (q * 4096 + lo) % 4096 == lo
  {
  }

  lemma {:induction false} JoinedFrame(hi: nat, f: nat)
    requires f < MAX_FRAME
    ensures (hi * MAX_FRAME + f) / MAX_FRAME == hi && (hi * MAX_FRAME + f) % MAX_FRAME == f
  {
  }

  lemma {:induction false} LowKind(q: nat, lo: nat)
    ensures Linked(q * 4096 + lo) == Linked(lo)
  {
  }

  lemma {:induction false} LowEl0(q: nat, lo: nat)
    ensures El0(q * 4096 + lo) == El0(lo)
  {
    var a, b := lo / 64, lo % 64;
    assert (q * 64 + a) * 64 + b == q * 4096 + lo;
    assert (q * 4096 + lo) / 64 == q * 64 + a;
  }

  lemma {:induction false} LowRo(q: nat, lo: nat)
    ensures Ro(q * 4096 + lo) == Ro(lo)
  {
    var a, b := lo / 128, lo % 128;
    assert (q * 32 + a) * 128 + b == q * 4096 + lo;
    assert (q * 4096 + lo) / 128 == q * 32 + a;
  }

  lemma {:induction false} LowBits(q: nat, lo: nat)
    ensures Linked(q * 4096 + lo) == Linked(lo) && El0(q * 4096 + lo) == El0(lo) && Ro(q * 4096 + lo) == Ro(lo)
  {
    hide *;
    LowKind(q, lo);
    LowEl0(q, lo);
    LowRo(q, lo);
  }

  /** Setting bit 7 of twelve low bits. */
  lemma {:induction false} SetLow(lo: nat)
    requires lo < 4096 && !Ro(lo)
    ensures lo + 128 < 4096 && Ro(lo + 128) && Linked(lo + 128) == Linked(lo) && El0(lo + 128) == El0(lo)
  {
    var m := lo + 128;
    DivUnique(m, 128, lo / 128 + 1, lo % 128);
    DivUnique(m, 64, lo / 64 + 2, lo % 64);
    DivUnique(m, 4, lo / 4 + 32, lo % 4);
    assert lo / 128 != 31;
  }

  /** Clearing bit 7 of twelve low bits. */
  lemma {:induction false} ClearLow(lo: nat)
    requires lo < 4096 && Ro(lo)
    ensures 128 <= lo && !Ro(lo - 128) && Linked(lo - 128) == Linked(lo) && El0(lo - 128) == El0(lo)
  {
    assert lo / 128 >= 1;
    var m := lo - 128;
    DivUnique(m, 128, lo / 128 - 1, lo % 128);
    DivUnique(m, 64, lo / 64 - 2, lo % 64);
    DivUnique(m, 4, lo / 4 - 32, lo % 4);
  }

  /** The fields of a word put together from high bits, a frame and low bits. */
  lemma {:induction false} Fields(hi: nat, f: nat, lo: nat)
    requires f < MAX_FRAME && lo < 4096
    ensures var w := (hi * MAX_FRAME + f) * 4096 + lo;
            FrameOf(w) == f && Linked(w) == Linked(lo) && El0(w) == El0(lo) && Ro(w) == Ro(lo)
            && w / 4096 / MAX_FRAME == hi && w % 4096 == lo
  {
    Joined(hi * MAX_FRAME + f, lo);
    JoinedFrame(hi, f);
    LowBits(hi * MAX_FRAME + f, lo);
  }

  lemma {:induction false} ClearOf(w: nat, hi: nat, lo: nat)
    requires lo < 4096 && w == (hi * MAX_FRAME + FrameOf(w)) * 4096 + lo
    requires Ro(w) == Ro(lo)
    ensures ClearRo(w) == (hi * MAX_FRAME + FrameOf(w)) * 4096 + ClearRo(lo)
    ensures ClearRo(lo) < 4096
  {
    if Ro(lo) { ClearLow(lo); }
  }

  lemma {:induction false} AttrsOf(w: nat, hi: nat, lo: nat)
    requires lo < 4096 && w == (hi * MAX_FRAME + FrameOf(w)) * 4096 + lo
    ensures Attrs(w) == ClearRo(lo) + hi * (4096 * MAX_FRAME)
  {
    hide Linked, El0;
    Fields(hi, FrameOf(w), lo);
    ClearOf(w, hi, lo);
    assert ClearRo(w) % 4096 == ClearRo(lo) by {
      hide *;
      Joined(hi * MAX_FRAME + FrameOf(w), ClearRo(lo));
    }
  }

  lemma {:induction false} SetRoFields(w: nat)
    ensures Ro(SetRo(w)) && Linked(SetRo(w)) == Linked(w) && El0(SetRo(w)) == El0(w)
    ensures FrameOf(SetRo(w)) == FrameOf(w) && Attrs(SetRo(w)) == Attrs(w)
  {
    hide Attrs, FrameOf, Linked, El0, Ro;
    if !Ro(w) {
      var hi, lo := Split(w);
      Fields(hi, FrameOf(w), lo);
      SetLow(lo);
      Fields(hi, FrameOf(w), lo + 128);
      AttrsOf(w, hi, lo);
      assert SetRo(w) == (hi * MAX_FRAME + FrameOf(w)) * 4096 + (lo + 128);
      AttrsOf(SetRo(w), hi, lo + 128);
    }
  }

  lemma {:induction false} ClearRoFields(w: nat)
    ensures !Ro(ClearRo(w)) && Linked(ClearRo(w)) == Linked(w) && El0(ClearRo(w)) == El0(w)
    ensures FrameOf(ClearRo(w)) == FrameOf(w) && Attrs(ClearRo(w)) == Attrs(w)
  {
    hide Attrs, FrameOf, Linked, El0, Ro;
    if Ro(w) {
      var hi, lo := Split(w);
      Fields(hi, FrameOf(w), lo);
      ClearLow(lo);
      Fields(hi, FrameOf(w), lo - 128);
      AttrsOf(w, hi, lo);
      assert ClearRo(w) == (hi * MAX_FRAME + FrameOf(w)) * 4096 + (lo - 128);
      AttrsOf(ClearRo(w), hi, lo - 128);
    }
  }

  /** A page entry made from another one's attributes differs from it only in its frame
      and in being writable. */
  lemma {:induction false} PageFields(w: nat, f: nat)
    requires f < MAX_FRAME
    ensures var d := PageDesc(f, Attrs(w));
            Linked(d) == Linked(w) && El0(d) == El0(w) && !Ro(d) && FrameOf(d) == f && Attrs(d) == Attrs(w)
  {
    hide Attrs, FrameOf, Linked, El0, Ro;
    var hi, lo := Split(w);
    Fields(hi, FrameOf(w), lo);
    if Ro(lo) { ClearLow(lo); }
    var low := ClearRo(lo);
    AttrsOf(w, hi, lo);
    Fields(hi, f, low);
    var d := PageDesc(f, Attrs(w));
    assert d == (hi * MAX_FRAME + f) * 4096 + low;
    AttrsOf(d, hi, low);
  }

  /** The attributes a new user page gets are themselves a word with those attributes. */
  lemma {:induction false} UserFields(executable: bool)
    ensures var a := UserAttrs(executable); UserPage(a) && Attrs(a) == a && !Ro(a)
  {
  }

  lemma {:induction false} ZeroWord()
    ensures !Linked(0)
  {
  }
}
