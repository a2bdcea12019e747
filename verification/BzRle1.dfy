/** vbzip2's first run-length stage: four equal bytes are followed by a count of 0..255 more. */
module BzRle1 {
  import opened Bits
  import opened Seqs

  /** How many of the leading elements of `s` equal `b`, counting no further than `max`. */
  function RunLength(s: seq<Byte>, b: Byte, max: nat): (n: nat)
    ensures n <= max && n <= |s|
    ensures forall i :: 0 <= i < n ==> s[i] == b
  {
    if max == 0 || s == [] || s[0] != b then 0 else 1 + RunLength(s[1..], b, max - 1)
  }

  /** The encoder's output for the rest `s` of the input, when the last `rl` bytes were all `prev`
      (`prev` is -1 when no run is open). */
  function Encode(s: seq<Byte>, prev: int, rl: nat): seq<Byte>
    decreases |s|
  {
    if s == [] then []
    else
      var b := s[0];
      if b != prev then [b] + Encode(s[1..], b, 1)
      else if rl + 1 != 4 then [b] + Encode(s[1..], prev, rl + 1)
      else
        var cnt := RunLength(s[1..], b, 255);
        [b, cnt] + Encode(s[1 + cnt..], -1, 0)
  }

  /** The decoder's output for the rest `s` of the run-length coded bytes. */
  function Decode(s: seq<Byte>, prev: int, rl: nat): seq<Byte>
    decreases |s|
  {
    if s == [] then []
    else
      var b := s[0];
      if b != prev then [b] + Decode(s[1..], b, 1)
      else if rl + 1 != 4 then [b] + Decode(s[1..], prev, rl + 1)
      else if |s| == 1 then [b]
      else [b] + Repeat(b, s[1]) + Decode(s[2..], -1, 0)
  }

  /** Decoding undoes encoding, from any point in a run. */
  lemma {:induction false} DecodeEncode(s: seq<Byte>, prev: int, rl: nat)
    ensures Decode(Encode(s, prev, rl), prev, rl) == s
    decreases |s|
  {
    if s == [] {
    } else {
      var b := s[0];
      var e := Encode(s, prev, rl);
      if b != prev {
        DecodeEncode(s[1..], b, 1);
        assert e[1..] == Encode(s[1..], b, 1);
      } else if rl + 1 != 4 {
        DecodeEncode(s[1..], prev, rl + 1);
        assert e[1..] == Encode(s[1..], prev, rl + 1);
      } else {
        var cnt := RunLength(s[1..], b, 255);
        var rest := s[1 + cnt..];
        DecodeEncode(rest, -1, 0);
        assert e[2..] == Encode(rest, -1, 0);
        assert s == [b] + Repeat(b, cnt) + rest;
      }
    }
  }

  /** Coding grows the input by at most a quarter, and never makes it vanish. */
  lemma {:induction false} EncodeLength(s: seq<Byte>, prev: int, rl: nat)
    requires rl < 4
    ensures 4 * |Encode(s, prev, rl)| <= 5 * |s| + rl
    ensures s != [] ==> Encode(s, prev, rl) != []
    decreases |s|
  {
    if s != [] {
      var b := s[0];
      if b != prev {
        EncodeLength(s[1..], b, 1);
      } else if rl + 1 != 4 {
        EncodeLength(s[1..], prev, rl + 1);
      } else {
        var cnt := RunLength(s[1..], b, 255);
        EncodeLength(s[1 + cnt..], -1, 0);
      }
    }
  }

  /** The inner loop of `rle1`: how far the run of `b` goes on from `j`. */
  method CountRun(input: seq<Byte>, j: nat, b: Byte) returns (cnt: nat)
    requires j <= |input|
    ensures cnt == RunLength(input[j..], b, 255)
  {
    cnt := 0;
    while j + cnt < |input| && input[j + cnt] == b && cnt < 255
      invariant j + cnt <= |input| && cnt <= 255
      invariant cnt + RunLength(input[j + cnt..], b, 255 - cnt) == RunLength(input[j..], b, 255)
    {
      assert input[j + cnt..][1..] == input[j + cnt + 1..];
      cnt := cnt + 1;
    }
  }

  /** `rle1`. */
  method Rle1(input: seq<Byte>) returns (out: seq<Byte>)
    ensures out == Encode(input, -1, 0)
  {
    out := [];
    var rl, i := 0, 0;
    var prev: int := -1;
    while i < |input|
      invariant 0 <= i <= |input|
      invariant out + Encode(input[i..], prev, rl) == Encode(input, -1, 0)
    {
      var b := input[i];
      ConsSlice(input, i);
      if b == prev {
        rl := rl + 1;
        if rl == 4 {
          var cnt := CountRun(input, i + 1, b);
          DropDrop(input, i, 1 + cnt);
          i := i + 1 + cnt;
          Assoc(out, [b, cnt], Encode(input[i..], -1, 0));
          out := out + [b, cnt];
          rl := 0;
          prev := -1;
        } else {
          i := i + 1;
          Assoc(out, [b], Encode(input[i..], prev, rl));
          out := out + [b];
        }
      } else {
        i := i + 1;
        Assoc(out, [b], Encode(input[i..], b, 1));
        out := out + [b];
        rl := 1;
        prev := b;
      }
    }
  }
}
