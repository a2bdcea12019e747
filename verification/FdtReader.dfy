/** `fdt.c`: walking a flattened tree. On any blob the functions say what the code does, or that it
    reads a byte or a variable it should not; on a blob made of tokens they follow the tokens. */
module FdtReader {
  import opened Bits
  import opened FdtFormat

  const MAGIC: nat := 0xd00dfeed
  const LIMIT: nat := 0x8000_0000

  /** `fdt_t`: where structure block and names are in the blob. */
  datatype Fdt = Fdt(blob: seq<Byte>, strukt: nat, strings: nat, size: nat)

  /** `step`: past a token; at a token that ends things; before any token was read; or outside. */
  datatype Stepped = Next(tok: nat, pos: nat) | Stop(tok: nat) | Unset | Wild

  function Move(tok: nat, pos: nat): Stepped
  {
    if pos < LIMIT then Next(tok, pos) else Wild
  }

  function Step(f: Fdt, off: nat): (r: Stepped)
    ensures r.Next? ==> off + 4 <= r.pos && off + 4 <= f.size
  {
    if off + 4 > f.size then Unset
    else if f.strukt + off + 4 > |f.blob| then Wild
    else
      var tok, a := Rd32(f.blob, f.strukt + off), f.strukt + off + 4;
      if tok == BEGIN_NODE then
        if a + StrLen(f.blob, a) == |f.blob| then Wild else Move(tok, off + 4 + Align4(StrLen(f.blob, a) + 1))
      else if tok == PROP then
        if off + 12 > f.size then Stop(tok)
        else if a + 4 > |f.blob| then Wild
        else Move(tok, off + 12 + Align4(Rd32(f.blob, a)))
      else if tok == END_NODE || tok == NOP then Move(tok, off + 4)
      else Stop(tok)
  }

  /** `fdt_next_node` */
  datatype Walked = Found(pos: nat, depth: int) | NoMore | Unknown

  function NextNode(f: Fdt, off: nat, depth: int): Walked
  {
    match Step(f, off)
    case Next(_, p) => Scan(f, p, depth)
    case Stop(_) => NoMore
    case Unset => NoMore
    case Wild => Unknown
  }

  function Scan(f: Fdt, p: nat, depth: int): Walked
    decreases f.size - p
  {
    match Step(f, p)
    case Unset => Unknown
    case Wild => Unknown
    case Stop(_) => NoMore
    case Next(t, q) =>
      if t == BEGIN_NODE then Found(p, depth + 1)
      else if t == END_NODE then if depth - 1 < 0 then NoMore else Scan(f, q, depth - 1)
      else Scan(f, q, depth)
  }

  /** `fdt_getprop`: where the value is, and its length. */
  datatype Value = Got(at: nat, len: nat) | Missing | Unclear

  function GetProp(f: Fdt, off: nat, name: seq<Byte>): Value
  {
    match Step(f, off)
    case Next(_, p) => Props(f, p, name)
    case Stop(_) => Missing
    case Unset => Missing
    case Wild => Unclear
  }

  function Props(f: Fdt, p: nat, name: seq<Byte>): Value
    decreases f.size - p
  {
    match OneProp(f, p, name)
    case Done(v) => v
    case Onward(q) => Props(f, q, name)
  }

  // ------------------------------------------------------------------- the loops

  /** `strlen` */
  method Measure(s: seq<Byte>, o: nat) returns (n: nat)
    requires o <= |s|
    ensures n == StrLen(s, o)
  {
    n := 0;
    while o + n < |s| && s[o + n] != 0
      invariant o + n <= |s| && StrLen(s, o) == n + StrLen(s, o + n)
    {
      n := n + 1;
    }
  }

  method TakeStep(f: Fdt, off: nat) returns (r: Stepped)
    ensures r == Step(f, off)
  {
    hide Rd32, Align4, StrLen;
    if off + 4 > f.size { return Unset; }
    if f.strukt + off + 4 > |f.blob| { return Wild; }
    var tok := Rd32(f.blob, f.strukt + off);
    if tok == BEGIN_NODE {
      var a := f.strukt + off + 4;
      var n := Measure(f.blob, a);
      if a + n == |f.blob| { return Wild; }
      return Move(tok, off + 4 + Align4(n + 1));
    }
    if tok == PROP {
      if off + 12 > f.size { return Stop(tok); }
      if f.strukt + off + 8 > |f.blob| { return Wild; }
      return Move(tok, off + 12 + Align4(Rd32(f.blob, f.strukt + off + 4)));
    }
    if tok == END_NODE || tok == NOP { return Move(tok, off + 4); }
    return Stop(tok);
  }

  method FindNext(f: Fdt, off: nat, depth0: int) returns (r: Walked)
    ensures r == NextNode(f, off, depth0)
  {
    hide Step;
    var first := TakeStep(f, off);
    if first == Wild { return Unknown; }
    if !first.Next? { return NoMore; }
    var p, depth := first.pos, depth0;
    while true
      invariant NextNode(f, off, depth0) == Scan(f, p, depth)
      decreases f.size - p
    {
      StepForward(f, p);
      var s := TakeStep(f, p);
      if s == Unset || s == Wild { return Unknown; }
      if s.Stop? { return NoMore; }
      if s.tok == BEGIN_NODE { return Found(p, depth + 1); }
      if s.tok == END_NODE {
        depth := depth - 1;
        if depth < 0 { return NoMore; }
      }
      p := s.pos;
    }
  }

  lemma {:induction false} StepForward(f: Fdt, p: nat)
    ensures Step(f, p).Next? ==> p + 4 <= Step(f, p).pos && p + 4 <= f.size
  {
  }

  /** One round of the search for a property. */
  datatype Round = Done(v: Value) | Onward(p: nat)

  function OneProp(f: Fdt, p: nat, name: seq<Byte>): (r: Round)
    ensures r.Onward? ==> p + 4 <= r.p && p + 4 <= f.size
  {
    if p + 4 > f.size then Done(Missing)
    else if f.strukt + p + 4 > |f.blob| then Done(Unclear)
    else
      var t := Rd32(f.blob, f.strukt + p);
      if t == NOP then Onward(p + 4)
      else if t != PROP then Done(Missing)
      else if f.strukt + p + 12 > |f.blob| then Done(Unclear)
      else
        var len, o := Rd32(f.blob, f.strukt + p + 4), f.strings + Rd32(f.blob, f.strukt + p + 8);
        if o > |f.blob| || o + StrLen(f.blob, o) == |f.blob| then Done(Unclear)
        else if f.blob[o..o + StrLen(f.blob, o)] == name then Done(Got(f.strukt + p + 12, len))
        else if p + 12 + Align4(len) >= LIMIT then Done(Unclear)
        else Onward(p + 12 + Align4(len))
  }

  method FindProp(f: Fdt, off: nat, name: seq<Byte>) returns (r: Value)
    ensures r == GetProp(f, off, name)
  {
    hide Step, OneProp;
    var first := TakeStep(f, off);
    if first == Wild { return Unclear; }
    if !first.Next? { return Missing; }
    var p := first.pos;
    while true
      invariant GetProp(f, off, name) == Props(f, p, name)
      decreases f.size - p
    {
      var s := TakeProp(f, p, name);
      PropForward(f, p, name);
      if s.Done? { return s.v; }
      p := s.p;
    }
  }

  lemma {:induction false} PropForward(f: Fdt, p: nat, name: seq<Byte>)
    ensures OneProp(f, p, name).Onward? ==> p + 4 <= OneProp(f, p, name).p && p + 4 <= f.size
  {
  }

  method TakeProp(f: Fdt, p: nat, name: seq<Byte>) returns (r: Round)
    ensures r == OneProp(f, p, name)
  {
    hide Rd32, StrLen, Align4;
    if p + 4 > f.size { return Done(Missing); }
    if f.strukt + p + 4 > |f.blob| { return Done(Unclear); }
    var t := Rd32(f.blob, f.strukt + p);
    if t == NOP { return Onward(p + 4); }
    if t != PROP { return Done(Missing); }
    if f.strukt + p + 12 > |f.blob| { return Done(Unclear); }
    var len, o := Rd32(f.blob, f.strukt + p + 4), f.strings + Rd32(f.blob, f.strukt + p + 8);
    if o > |f.blob| || o + StrLen(f.blob, o) == |f.blob| { return Done(Unclear); }
    if f.blob[o..o + StrLen(f.blob, o)] == name { return Done(Got(f.strukt + p + 12, len)); }
    if p + 12 + Align4(len) >= LIMIT { return Done(Unclear); }
    return Onward(p + 12 + Align4(len));
  }

  // --------------------------------------------------------------- a blob of tokens

  /** The blob holds these tokens and this pool. */
  ghost predicate Holds(f: Fdt, ts: seq<Token>, names: seq<seq<Byte>>)
  {
    Known(ts, names) && Sized(ts)
    && |f.blob| < LIMIT && f.size == |Struct(ts, names)| + 4 && f.strukt + f.size <= f.strings
    && f.strings + |Pool(names)| <= |f.blob|
    && f.blob[f.strukt..f.strukt + |Struct(ts, names)|] == Struct(ts, names)
    && f.blob[f.strukt + |Struct(ts, names)|..f.strukt + f.size] == Be32(END)
    && f.blob[f.strings..f.strings + |Pool(names)|] == Pool(names)
  }

  lemma {:induction false} SliceAt(s: seq<Byte>, b: nat, x: seq<Byte>, p: nat, q: nat)
    requires b + |x| <= |s| && s[b..b + |x|] == x && p <= q <= |x|
    ensures s[b + p..b + q] == x[p..q]
  {
    var l, r := s[b + p..b + q], x[p..q];
    forall i | 0 <= i < q - p ensures l[i] == r[i] { assert s[b..b + |x|][p + i] == s[b + (p + i)]; }
  }

  /** A token's bytes are in the blob. */
  lemma {:induction false} CodeAt(f: Fdt, ts: seq<Token>, names: seq<seq<Byte>>, k: nat)
    requires Holds(f, ts, names) && k < |ts|
    ensures Off(ts, names, k) + |Code(ts[k], names)| == Off(ts, names, k + 1) <= |Struct(ts, names)|
    ensures var a := f.strukt + Off(ts, names, k);
            f.strukt + Off(ts, names, k + 1) <= |f.blob| && f.blob[a..a + |Code(ts[k], names)|] == Code(ts[k], names)
  {
    hide Struct, Code, Pool;
    TokenAt(ts, names, k);
    SliceAt(f.blob, f.strukt, Struct(ts, names), Off(ts, names, k), Off(ts, names, k + 1));
  }

  /** The three parts of a property's bytes, and of a node's. */
  lemma {:induction false} PropertyParts(s: seq<Byte>, a: nat, o: nat, val: seq<Byte>)
    requires var c := Be32(PROP) + (Be32(|val|) + (Be32(o) + Padded(val))); a + |c| <= |s| && s[a..a + |c|] == c
    requires |val| < WORD && o < WORD
    ensures a + 12 + |val| <= |s| && Rd32(s, a) == PROP && Rd32(s, a + 4) == |val| && Rd32(s, a + 8) == o
    ensures s[a + 12..a + 12 + |val|] == val
  {
    hide Be32, Rd32, Padded, Align4;
    var c := Be32(PROP) + (Be32(|val|) + (Be32(o) + Padded(val)));
    assert c[0..4] == Be32(PROP) && c[4..8] == Be32(|val|) && c[8..12] == Be32(o);
    assert c[12..12 + |val|] == Padded(val)[..|val|];
    SliceAt(s, a, c, 0, 4);
    SliceAt(s, a, c, 4, 8);
    SliceAt(s, a, c, 8, 12);
    SliceAt(s, a, c, 12, 12 + |val|);
    WordAt(s, a, PROP);
    WordAt(s, a + 4, |val|);
    WordAt(s, a + 8, o);
  }

  lemma {:induction false} BeginParts(s: seq<Byte>, a: nat, name: seq<Byte>)
    requires var c := Be32(BEGIN_NODE) + Padded(name + [0]); a + |c| <= |s| && s[a..a + |c|] == c
    requires Plain(name)
    ensures a + 4 + |name| + 1 <= |s| && Rd32(s, a) == BEGIN_NODE && StrLen(s, a + 4) == |name|
    ensures s[a + 4..a + 4 + |name|] == name
  {
    hide Be32, Rd32, Padded, Align4, StrLen;
    var c, z := Be32(BEGIN_NODE) + Padded(name + [0]), name + [0];
    assert c[0..4] == Be32(BEGIN_NODE);
    assert c[4..4 + |z|] == Padded(z)[..|z|];
    SliceAt(s, a, c, 0, 4);
    SliceAt(s, a, c, 4, 4 + |z|);
    WordAt(s, a, BEGIN_NODE);
    StringAt(s, a + 4, name);
  }

  function Tag(t: Token): nat
  {
    match t
    case Begin(_) => BEGIN_NODE
    case Property(_, _) => PROP
    case EndNode => END_NODE
  }

  lemma {:induction false} OffsetSmall(f: Fdt, ts: seq<Token>, names: seq<seq<Byte>>, k: nat)
    requires Holds(f, ts, names) && k < |ts| && ts[k].Property?
    ensures OffsetOf(names, ts[k].name) + f.strings + |ts[k].name| + 1 <= |f.blob|
    ensures f.blob[f.strings + OffsetOf(names, ts[k].name)..f.strings + OffsetOf(names, ts[k].name) + |ts[k].name| + 1]
        == ts[k].name + [0]
  {
    hide Struct, Code, Pool;
    var o, n := OffsetOf(names, ts[k].name), |ts[k].name| + 1;
    SliceAt(f.blob, f.strings, Pool(names), o, o + n);
  }

  /** What stands at a property's place. */
  lemma {:induction false} PropertyAt(f: Fdt, ts: seq<Token>, names: seq<seq<Byte>>, k: nat)
    requires Holds(f, ts, names) && k < |ts| && ts[k].Property?
    ensures var p, o := Off(ts, names, k), f.strings + OffsetOf(names, ts[k].name);
            Off(ts, names, k + 1) == p + 12 + Align4(|ts[k].val|) <= |Struct(ts, names)|
                && f.strukt + p + 12 + |ts[k].val| <= |f.blob|
            && Rd32(f.blob, f.strukt + p) == PROP && Rd32(f.blob, f.strukt + p + 4) == |ts[k].val|
            && f.strings + Rd32(f.blob, f.strukt + p + 8) == o
                && f.blob[f.strukt + p + 12..f.strukt + p + 12 + |ts[k].val|] == ts[k].val
            && o + |ts[k].name| < |f.blob| && StrLen(f.blob, o) == |ts[k].name|
                && f.blob[o..o + |ts[k].name|] == ts[k].name
  {
    hide Struct, Pool, Off, Rd32, StrLen, Be32, Padded, OffsetOf, Align4;
    CodeAt(f, ts, names, k);
    OffsetSmall(f, ts, names, k);
    PropertyParts(f.blob, f.strukt + Off(ts, names, k), OffsetOf(names, ts[k].name), ts[k].val);
    StringAt(f.blob, f.strings + OffsetOf(names, ts[k].name), ts[k].name);
  }

  /** What stands at a node's place. */
  lemma {:induction false} BeginAt(f: Fdt, ts: seq<Token>, names: seq<seq<Byte>>, k: nat)
    requires Holds(f, ts, names) && k < |ts| && ts[k].Begin?
    ensures var a := f.strukt + Off(ts, names, k);
            Off(ts, names, k) + 4 <= f.size && a + 4 + |ts[k].name| < |f.blob| && Rd32(f.blob, a) == BEGIN_NODE
            && StrLen(f.blob, a + 4) == |ts[k].name| && f.blob[a + 4..a + 4 + |ts[k].name|] == ts[k].name
            && Off(ts, names, k + 1) == Off(ts, names, k) + 4 + Align4(|ts[k].name| + 1) <= |Struct(ts, names)|
  {
    hide Struct, Pool, Off, Rd32, StrLen, Be32, Padded, Align4;
    CodeAt(f, ts, names, k);
    BeginParts(f.blob, f.strukt + Off(ts, names, k), ts[k].name);
  }

  lemma {:induction false} EndAt(f: Fdt, ts: seq<Token>, names: seq<seq<Byte>>, k: nat)
    requires Holds(f, ts, names) && k < |ts| && ts[k] == EndNode
    ensures var a := f.strukt + Off(ts, names, k);
            Off(ts, names, k + 1) == Off(ts, names, k) + 4 <= |Struct(ts, names)| && a + 4 <= |f.blob|
                && Rd32(f.blob, a) == END_NODE
  {
    hide Struct, Pool, Off, Rd32, StrLen, Be32, Padded, Align4;
    CodeAt(f, ts, names, k);
    WordAt(f.blob, f.strukt + Off(ts, names, k), END_NODE);
  }

  lemma {:induction false} HoldsSizes(f: Fdt, ts: seq<Token>, names: seq<seq<Byte>>)
    requires Holds(f, ts, names)
    ensures Known(ts, names) && |f.blob| < LIMIT && f.size == |Struct(ts, names)| + 4
        && f.strukt + f.size <= f.strings <= |f.blob|
  {
    hide Struct, Pool, Sized;
  }

  /** The reader steps from each token to the next. */
  lemma {:induction false} StepsOver(f: Fdt, ts: seq<Token>, names: seq<seq<Byte>>, k: nat)
    requires Holds(f, ts, names) && k < |ts|
    ensures Step(f, Off(ts, names, k)) == Next(Tag(ts[k]), Off(ts, names, k + 1))
  {
    hide Struct, Pool, Rd32, StrLen, Off, Holds, OffsetOf, Align4;
    HoldsSizes(f, ts, names);
    match ts[k] {
      case Begin(name) => BeginAt(f, ts, names, k);
      case Property(name, val) => PropertyAt(f, ts, names, k);
      case EndNode => EndAt(f, ts, names, k);
    }
  }

  /** And stops behind the last. */
  lemma {:induction false} StopsBehind(f: Fdt, ts: seq<Token>, names: seq<seq<Byte>>)
    requires Holds(f, ts, names)
    ensures Step(f, Off(ts, names, |ts|)) == Stop(END)
  {
    hide Struct, Pool, Be32, Rd32, StrLen;
    OffEnd(ts, names);
    WordAt(f.blob, f.strukt + |Struct(ts, names)|, END);
  }

  // ----------------------------------------------------------------- following tokens

  /** The next node after the `k`-th token, with its depth. */
  function NextBegin(ts: seq<Token>, k: nat, depth: int): (r: Walked)
    requires k <= |ts|
    ensures r.Found? ==> k <= r.pos < |ts| && ts[r.pos].Begin?
    decreases |ts| - k
  {
    if k == |ts| then NoMore
    else match ts[k]
      case Begin(_) => Found(k, depth + 1)
      case EndNode => if depth - 1 < 0 then NoMore else NextBegin(ts, k + 1, depth - 1)
      case Property(_, _) => NextBegin(ts, k + 1, depth)
  }

  ghost function InBytes(w: Walked, ts: seq<Token>, names: seq<seq<Byte>>): Walked
    requires (w.Found? ==> w.pos < |ts|) && Known(ts, names)
  {
    if w.Found? then Found(Off(ts, names, w.pos), w.depth) else w
  }

  lemma {:induction false} ScanFollows(f: Fdt, ts: seq<Token>, names: seq<seq<Byte>>, k: nat, depth: int)
    requires Holds(f, ts, names) && k <= |ts|
    ensures Scan(f, Off(ts, names, k), depth) == InBytes(NextBegin(ts, k, depth), ts, names)
    decreases |ts| - k
  {
    hide Struct, Pool, Off, Step, Holds, Known;
    HoldsKnown(f, ts, names);
    if k == |ts| {
      StopsBehind(f, ts, names);
    } else {
      StepsOver(f, ts, names, k);
      match ts[k] {
        case Begin(_) =>
        case EndNode => if depth - 1 >= 0 { ScanFollows(f, ts, names, k + 1, depth - 1); }
        case Property(_, _) => ScanFollows(f, ts, names, k + 1, depth);
      }
    }
  }

  lemma {:induction false} HoldsKnown(f: Fdt, ts: seq<Token>, names: seq<seq<Byte>>)
    requires Holds(f, ts, names)
    ensures Known(ts, names)
  {
  }

  /** From a node, `fdt_next_node` goes to the next node of the tokens. */
  lemma {:induction false} NextFollows(f: Fdt, ts: seq<Token>, names: seq<seq<Byte>>, k: nat, depth: int)
    requires Holds(f, ts, names) && k < |ts|
    ensures NextNode(f, Off(ts, names, k), depth) == InBytes(NextBegin(ts, k + 1, depth), ts, names)
  {
    hide Struct, Pool, Off, Step, Holds, Known;
    HoldsKnown(f, ts, names);
    StepsOver(f, ts, names, k);
    ScanFollows(f, ts, names, k + 1, depth);
  }

  /** The first property of that name among those from the `k`-th token on: its token. */
  function Lookup(ts: seq<Token>, k: nat, name: seq<Byte>): (r: int)
    requires k <= |ts|
    ensures r >= 0 ==> k <= r < |ts| && ts[r].Property? && ts[r].name == name
    decreases |ts| - k
  {
    if k == |ts| || !ts[k].Property? then -1 else if ts[k].name == name then k else Lookup(ts, k + 1, name)
  }

  /** What `fdt_getprop` is to return for a token. */
  ghost predicate Answer(f: Fdt, v: Value, ts: seq<Token>, r: int)
    requires r < |ts| && (r >= 0 ==> ts[r].Property?)
  {
    if r < 0 then v == Missing
    else v.Got? && v.len == |ts[r].val| && v.at + v.len <= |f.blob| && f.blob[v.at..v.at + v.len] == ts[r].val
  }

  /** One round at a property whose parts are known. */
  lemma {:induction false} PropRound(f: Fdt, p: nat, name: seq<Byte>, n: seq<Byte>, len: nat, o: nat)
    requires p + 4 <= f.size && f.strukt + p + 12 <= |f.blob| && Rd32(f.blob, f.strukt + p) == PROP
    requires Rd32(f.blob, f.strukt + p + 4) == len && f.strings + Rd32(f.blob, f.strukt + p + 8) == o
    requires o + |n| < |f.blob| && StrLen(f.blob, o) == |n| && f.blob[o..o + |n|] == n && p + 12 + Align4(len) < LIMIT
    ensures OneProp(f, p, name) == if n == name then Done(Got(f.strukt + p + 12, len)) else Onward(p + 12 + Align4(len))
  {
    hide Rd32, StrLen, Align4;
  }

  /** One round at another token. */
  lemma {:induction false} OtherRound(f: Fdt, p: nat, name: seq<Byte>, tok: nat)
    requires p + 4 <= f.size && f.strukt + p + 4 <= |f.blob| && Rd32(f.blob, f.strukt + p) == tok && tok != NOP
        && tok != PROP
    ensures OneProp(f, p, name) == Done(Missing)
  {
    hide Rd32, StrLen, Align4;
  }

  /** One round at a token. */
  lemma {:induction false} PropAtToken(f: Fdt, ts: seq<Token>, names: seq<seq<Byte>>, k: nat, name: seq<Byte>)
    requires Holds(f, ts, names) && k < |ts|
    ensures var r := OneProp(f, Off(ts, names, k), name);
            if !ts[k].Property? then r == Done(Missing)
            else if ts[k].name == name then r.Done? && Answer(f, r.v, ts, k)
            else r == Onward(Off(ts, names, k + 1))
  {
    hide Struct, Pool, Off, Rd32, StrLen, OneProp, Holds, OffsetOf, Align4;
    HoldsSizes(f, ts, names);
    var p := Off(ts, names, k);
    match ts[k] {
      case Begin(n) =>
        BeginAt(f, ts, names, k);
        OtherRound(f, p, name, BEGIN_NODE);
      case EndNode =>
        EndAt(f, ts, names, k);
        OtherRound(f, p, name, END_NODE);
      case Property(n, val) =>
        PropertyAt(f, ts, names, k);
        PropRound(f, p, name, n, |val|, f.strings + OffsetOf(names, n));
    }
  }

  lemma {:induction false} PropsFollow(f: Fdt, ts: seq<Token>, names: seq<seq<Byte>>, k: nat, name: seq<Byte>)
    requires Holds(f, ts, names) && k <= |ts|
    ensures Answer(f, Props(f, Off(ts, names, k), name), ts, Lookup(ts, k, name))
    decreases |ts| - k
  {
    hide Struct, Pool, Off, OneProp, Holds;
    HoldsKnown(f, ts, names);
    if k == |ts| {
      NoProps(f, ts, names, name);
    } else {
      PropAtToken(f, ts, names, k, name);
      if ts[k].Property? && ts[k].name != name { PropsFollow(f, ts, names, k + 1, name); }
    }
  }

  lemma {:induction false} NoProps(f: Fdt, ts: seq<Token>, names: seq<seq<Byte>>, name: seq<Byte>)
    requires Holds(f, ts, names)
    ensures OneProp(f, Off(ts, names, |ts|), name) == Done(Missing)
  {
    hide Struct, Pool, Off, Rd32;
    EndWord(f, ts, names);
  }

  lemma {:induction false} EndWord(f: Fdt, ts: seq<Token>, names: seq<seq<Byte>>)
    requires Holds(f, ts, names)
    ensures var p := Off(ts, names, |ts|);
            p + 4 == f.size && f.strukt + p + 4 <= |f.blob| && Rd32(f.blob, f.strukt + p) == END
  {
    hide Struct, Pool, Be32, Rd32, StrLen;
    OffEnd(ts, names);
    WordAt(f.blob, f.strukt + |Struct(ts, names)|, END);
  }

  /** From a node, `fdt_getprop` returns the value of its first property of that name. */
  lemma {:induction false} PropFollows(f: Fdt, ts: seq<Token>, names: seq<seq<Byte>>, k: nat, name: seq<Byte>)
    requires Holds(f, ts, names) && k < |ts|
    ensures Answer(f, GetProp(f, Off(ts, names, k), name), ts, Lookup(ts, k + 1, name))
  {
    hide Struct, Pool, Off, Step, Holds, Known, Answer;
    HoldsKnown(f, ts, names);
    StepsOver(f, ts, names, k);
    PropsFollow(f, ts, names, k + 1, name);
  }
}
