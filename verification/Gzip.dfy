/** The gzip container (section 2.3 of RFC 1952) as vgzip writes and reads it. */
module Gzip {
  import opened Bits
  import opened Seqs
  import opened GzBits
  import opened GzTokens
  import opened Inflate
  import opened GzCrc
  import opened GzDeflate
  import opened GzInflate

  datatype Result = Ok(data: seq<Byte>) | Refused | Unknown

  /** Past a zero-terminated string. */
  function SkipName(s: seq<Byte>, p: nat): (q: nat)
    ensures q > p
    decreases |s| - p
  {
    if p < |s| && s[p] != 0 then SkipName(s, p + 1) else p + 1
  }

  predicate Flag(flg: Byte, k: nat)
  {
    flg / Pow2(k) % 2 == 1
  }

  datatype Start = At(pos: nat) | Nowhere

  /** Where the compressed data begin: after the optional fields the flags announce. */
  function DataStart(s: seq<Byte>): (r: Start)
    ensures r.At? ==> 10 <= r.pos < |s| && 18 <= |s|
  {
    if |s| < 18 || s[0] != 0x1f || s[1] != 0x8b || s[2] != 8 then Nowhere else
      var flg := s[3];
      var p0 := if Flag(flg, 2) then 12 + Le16(s[10], s[11]) else 10;
      var p1 := if Flag(flg, 3) then SkipName(s, p0) else p0;
      var p2 := if Flag(flg, 4) then SkipName(s, p1) else p1;
      var p3 := if Flag(flg, 1) then p2 + 2 else p2;
      if p3 >= |s| then Nowhere else At(p3)
  }

  /** `gz_decompress` */
  function Unzipped(s: seq<Byte>): Result
  {
    match DataStart(s)
    case Nowhere => Refused
    case At(p) =>
      match Inflated(s[p..])
      case Err => Refused
      case Undef => Unknown
      case Out(data, _) => if Stream(s[|s| - 8..|s| - 4]) == Crc(data) then Ok(data) else Refused
  }

  const HEADER: seq<Byte> := [0x1f, 0x8b, 8, 0, 0, 0, 0, 0, 0, 3]

  /** The length modulo 2^32, low byte first. */
  function SizeBytes(n: nat): (r: seq<Byte>)
    ensures |r| == 4
  {
    [n % 256, n / 256 % 256, n / 65536 % 256, n / 16777216 % 256]
  }

  lemma {:induction false} NoFlags()
    ensures !Flag(0, 1) && !Flag(0, 2) && !Flag(0, 3) && !Flag(0, 4)
  {
    hide Pow2;
  }

  /** A container around compressed data is opened to what the data stand for. */
  lemma {:induction false} ContainerOpens(body: seq<Byte>, data: seq<Byte>)
    requires |body| > 0 && forall tail: seq<Byte> :: Inflated(body + tail).Out? && Inflated(body + tail).data == data
    ensures Unzipped(HEADER + body + WordBytes(Crc(data)) + SizeBytes(|data|)) == Ok(data)
  {
    hide Inflated, Crc, Stream, Flag, WordBytes, SizeBytes;
    var crc, size := WordBytes(Crc(data)), SizeBytes(|data|);
    var s := HEADER + body + crc + size;
    NoFlags();
    assert DataStart(s) == At(10);
    assert s[10..] == body + (crc + size);
    assert s[|s| - 8..|s| - 4] == crc;
  }

  /** `gz_compress`: for every input, what `gz_decompress` turns back into it. */
  method Compress(input: seq<Byte>) returns (out: seq<Byte>)
    requires |input| < 0x8000_0000
    ensures Unzipped(out) == Ok(input)
  {
    hide Inflated, Unzipped, Crc, TokensOk, Expand, Stream;
    ghost var ts;
    var body;
    body, ts := Deflate(input);
    assert |body| > 0 by { SomeBody(body, ts); }
    var tab := CrcInit();
    var crc := Crc32(tab, input);
    out := HEADER + body + WordBytes(crc) + SizeBytes(|input|);
    ContainerOpens(body, input);
  }

  lemma {:induction false} SomeBody(body: seq<Byte>, ts: seq<Token>)
    requires TokensOk(ts, []) && exists pad :: 0 <= pad < 8 && Stream(body) == DeflatedBits(ts) + Zeros(pad)
    ensures |body| > 0
  {
  }

  /** The loop past a name or a comment. */
  method PastName(s: seq<Byte>, p0: nat) returns (p: nat)
    ensures p == SkipName(s, p0)
  {
    p := p0;
    while p < |s| && s[p] != 0
      invariant SkipName(s, p0) == SkipName(s, p)
    {
      p := p + 1;
    }
    p := p + 1;
  }

  /** The header checks of `gz_decompress` and the fields it passes over. */
  method FindStart(s: seq<Byte>) returns (r: Start)
    ensures r == DataStart(s)
  {
    hide Flag, SkipName;
    if |s| < 18 || s[0] != 0x1f || s[1] != 0x8b || s[2] != 8 { return Nowhere; }
    var flg, p := s[3], 10;
    if Flag(flg, 2) { p := p + 2 + Le16(s[p], s[p + 1]); }
    if Flag(flg, 3) { p := PastName(s, p); }
    if Flag(flg, 4) { p := PastName(s, p); }
    if Flag(flg, 1) { p := p + 2; }
    r := if p >= |s| then Nowhere else At(p);
  }

  /** The check of the stored CRC. */
  method CrcMatches(s: seq<Byte>, data: seq<Byte>) returns (ok: bool)
    requires |s| >= 8
    ensures ok <==> Stream(s[|s| - 8..|s| - 4]) == Crc(data)
  {
    hide Crc, Stream;
    var tab := CrcInit();
    var crc := Crc32(tab, data);
    ok := WordBytes(crc) == s[|s| - 8..|s| - 4];
    SameWord(WordBytes(crc), s[|s| - 8..|s| - 4]);
  }

  /** `gz_decompress`: wherever the specification is defined, the program's outcome. */
  method Decompress(s: seq<Byte>) returns (ok: bool, out: seq<Byte>)
    ensures match Unzipped(s)
            case Ok(data) => ok && out == data
            case Refused => !ok
            case Unknown => true
  {
    hide Inflated, Crc, Stream, DataStart;
    ok, out := false, [];
    var start := FindStart(s);
    if start.Nowhere? { return; }
    ok, out := InflateAll(s[start.pos..]);
    if ok { ok := CrcMatches(s, out); }
  }

  /** Four bytes are equal exactly when their bits are. */
  lemma {:induction false} SameWord(a: seq<Byte>, b: seq<Byte>)
    requires |a| == |b|
    ensures a == b <==> Stream(a) == Stream(b)
    decreases |a|
  {
    if a != [] && Stream(a) == Stream(b) {
      var n := |a| - 1;
      var d := Stream(a);
      assert Stream(a[..n]) == d[..8 * n] == Stream(b[..n]);
      SameWord(a[..n], b[..n]);
      ByteIs(a, n);
      ByteIs(b, n);
      assert a == a[..n] + [a[n]] && b == b[..n] + [b[n]];
    }
  }
}
