/**
 * The base64 alphabet of section 4 of RFC 4648, with '=' padding, as
 * produced by Python's `base64.b64encode` and read back by
 * `base64.b64decode`.  Audio blobs travel through the pipeline in this form.
 */
module Base64 {
  import opened Wrappers

  type byte = b: int | 0 <= b < 256
  type sextet = v: int | 0 <= v < 64

  /** The character that stands for the 6-bit value `v`. */
  function Char(v: sextet): (c: char)
  {
    if v < 26 then (('A' as int) + v) as char
    else if v < 52 then (('a' as int) + (v - 26)) as char
    else if v < 62 then (('0' as int) + (v - 52)) as char
    else if v == 62 then '+'
    else '/'
  }

  /** The 6-bit value of an alphabet character, or None for any other character. */
  function Value(c: char): (r: Option<sextet>)
  {
    if 'A' <= c <= 'Z' then Some((c as int) - ('A' as int))
    else if 'a' <= c <= 'z' then Some((c as int) - ('a' as int) + 26)
    else if '0' <= c <= '9' then Some((c as int) - ('0' as int) + 52)
    else if c == '+' then Some(62)
    else if c == '/' then Some(63)
    else None
  }

  lemma ValueOfChar(v: sextet)
    ensures Value(Char(v)) == Some(v)
    ensures Char(v) != '='
  {
  }

  /** Three bytes become four characters. */
  function EncodeBlock(b0: byte, b1: byte, b2: byte): (s: string)
  {
    [Char(b0 / 4), Char((b0 % 4) * 16 + b1 / 16), Char((b1 % 16) * 4 + b2 / 64), Char(b2 % 64)]
  }

  /** The encoding of a byte string, padded with '=' to a multiple of four characters. */
  function Encode(b: seq<byte>): (s: string)
    ensures |s| == 4 * ((|b| + 2) / 3)
    decreases |b|
  {
    if |b| == 0 then []
    else if |b| == 1 then [Char(b[0] / 4), Char((b[0] % 4) * 16), '=', '=']
    else if |b| == 2 then [Char(b[0] / 4), Char((b[0] % 4) * 16 + b[1] / 16), Char((b[1] % 16) * 4), '=']
    else EncodeBlock(b[0], b[1], b[2]) + Encode(b[3..])
  }

  /** The three bytes that four 6-bit values carry, one function per byte. */
  function First(v0: sextet, v1: sextet): byte { (v0 as int) * 4 + (v1 as int) / 16 }
  function Second(v1: sextet, v2: sextet): byte { ((v1 as int) % 16) * 16 + (v2 as int) / 4 }
  function Third(v2: sextet, v3: sextet): byte { ((v2 as int) % 4) * 64 + (v3 as int) }

  datatype DecodeError = BadLength | BadCharacter | BadPadding

  /** Decodes one group of four characters that carries no padding. */
  function DecodeFull(c0: char, c1: char, c2: char, c3: char): (r: Result<seq<byte>, DecodeError>)
    ensures r.Ok? ==> |r.value| == 3
  {
    match (Value(c0), Value(c1), Value(c2), Value(c3))
    case (Some(v0), Some(v1), Some(v2), Some(v3)) =>
      Ok([First(v0, v1), Second(v1, v2), Third(v2, v3)])
    case _ => Err(BadCharacter)
  }

  /** Decodes the last group, which may end in "=" or "==". */
  function DecodeLast(c0: char, c1: char, c2: char, c3: char): (r: Result<seq<byte>, DecodeError>)
    ensures r.Ok? ==> 1 <= |r.value| <= 3
  {
    if c2 == '=' && c3 == '=' then
      match (Value(c0), Value(c1))
      case (Some(v0), Some(v1)) => Ok([First(v0, v1)])
      case _ => Err(BadCharacter)
    else if c2 == '=' then Err(BadPadding)
    else if c3 == '=' then
      match (Value(c0), Value(c1), Value(c2))
      case (Some(v0), Some(v1), Some(v2)) => Ok([First(v0, v1), Second(v1, v2)])
      case _ => Err(BadCharacter)
    else DecodeFull(c0, c1, c2, c3)
  }

  /** Strict decoding: the length must be a multiple of four and '=' may only end the text. */
  function Decode(s: string): (r: Result<seq<byte>, DecodeError>)
    ensures r.Ok? ==> 4 * |r.value| <= 3 * |s|
    decreases |s|
  {
    if |s| == 0 then Ok([])
    else if |s| < 4 then Err(BadLength)
    else if |s| == 4 then DecodeLast(s[0], s[1], s[2], s[3])
    else
      match DecodeFull(s[0], s[1], s[2], s[3])
      case Err(e) => Err(e)
      case Ok(head) =>
        match Decode(s[4..])
        case Err(e) => Err(e)
        case Ok(tail) => Ok(head + tail)
  }

  lemma FirstOf(b0: byte, t: int)
    requires 0 <= t < 16
    ensures First(b0 / 4, (b0 % 4) * 16 + t) == b0
  {
    var r := b0 % 4;
    assert (r * 16 + t) / 16 == r;
  }

  lemma MiddleOf(b0: byte, b1: byte, b2: byte)
    ensures Second((b0 % 4) * 16 + b1 / 16, (b1 % 16) * 4 + b2 / 64) == b1
  {
    var hi := b1 / 16;
    var lo := b1 % 16;
    var t := b2 / 64;
    assert ((b0 % 4) * 16 + hi) % 16 == hi;
    assert (lo * 4 + t) / 4 == lo;
  }

  lemma LastOf(b1: byte, b2: byte)
    ensures Third((b1 % 16) * 4 + b2 / 64, b2 % 64) == b2
  {
    var t := b2 / 64;
    assert ((b1 % 16) * 4 + t) % 4 == t;
  }

  lemma BlockRoundTrip(b0: byte, b1: byte, b2: byte)
    ensures DecodeFull(Char(b0 / 4), Char((b0 % 4) * 16 + b1 / 16), Char((b1 % 16) * 4 + b2 / 64), Char(b2 % 64))
            == Ok([b0, b1, b2])
  {
    ValueOfChar(b0 / 4);
    ValueOfChar((b0 % 4) * 16 + b1 / 16);
    ValueOfChar((b1 % 16) * 4 + b2 / 64);
    ValueOfChar(b2 % 64);
    FirstOf(b0, b1 / 16);
    MiddleOf(b0, b1, b2);
    LastOf(b1, b2);
  }

  /** The doubly padded group of one byte decodes back to it. */
  lemma SingleRoundTrip(b0: byte)
    ensures DecodeLast(Char(b0 / 4), Char((b0 % 4) * 16), '=', '=') == Ok([b0])
  {
    ValueOfChar(b0 / 4);
    ValueOfChar((b0 % 4) * 16);
    FirstOf(b0, 0);
  }

  lemma RoundTripOne(b: seq<byte>)
    requires |b| == 1
    ensures Decode(Encode(b)) == Ok(b)
  {
    SingleRoundTrip(b[0]);
    assert b == [b[0]];
  }

  /** The padded group of two bytes decodes back to them. */
  lemma PairRoundTrip(b0: byte, b1: byte)
    ensures DecodeLast(Char(b0 / 4), Char((b0 % 4) * 16 + b1 / 16), Char((b1 % 16) * 4), '=') == Ok([b0, b1])
  {
    ValueOfChar(b0 / 4);
    ValueOfChar((b0 % 4) * 16 + b1 / 16);
    ValueOfChar((b1 % 16) * 4);
    FirstOf(b0, b1 / 16);
    MiddleOf(b0, b1, 0);
  }

  lemma RoundTripTwo(b: seq<byte>)
    requires |b| == 2
    ensures Decode(Encode(b)) == Ok(b)
  {
    PairRoundTrip(b[0], b[1]);
    var s := Encode(b);
    assert s == [Char(b[0] / 4), Char((b[0] % 4) * 16 + b[1] / 16), Char((b[1] % 16) * 4), '='];
    assert b == [b[0], b[1]];
  }

  /** A group of three bytes is also read back correctly when it is the last one. */
  lemma BlockRoundTripLast(b0: byte, b1: byte, b2: byte)
    ensures var s := EncodeBlock(b0, b1, b2); DecodeLast(s[0], s[1], s[2], s[3]) == Ok([b0, b1, b2])
  {
    BlockRoundTrip(b0, b1, b2);
    ValueOfChar((b1 % 16) * 4 + b2 / 64);
    ValueOfChar(b2 % 64);
  }

  lemma RoundTripThree(b: seq<byte>)
    requires |b| == 3
    ensures Decode(Encode(b)) == Ok(b)
  {
    BlockRoundTripLast(b[0], b[1], b[2]);
    assert b[3..] == [];
    assert Encode(b) == EncodeBlock(b[0], b[1], b[2]);
    assert b == [b[0], b[1], b[2]];
  }

  /** Decoding undoes encoding: `b64decode(b64encode(b)) == b`. */
  lemma {:induction false} RoundTrip(b: seq<byte>)
    ensures Decode(Encode(b)) == Ok(b)
    decreases |b|
  {
    if |b| == 0 {
    } else if |b| == 1 {
      RoundTripOne(b);
    } else if |b| == 2 {
      RoundTripTwo(b);
    } else if |b| == 3 {
      RoundTripThree(b);
    } else {
      RoundTrip(b[3..]);
      RoundTripLong(b);
    }
  }

  lemma Rejoin<T>(xs: seq<T>, k: nat)
    requires k <= |xs|
    ensures xs[..k] + xs[k..] == xs
  {
  }

  lemma DecodeStep(s: string, head: seq<byte>, tail: seq<byte>)
    requires |s| > 4
    requires DecodeFull(s[0], s[1], s[2], s[3]) == Ok(head)
    requires Decode(s[4..]) == Ok(tail)
    ensures Decode(s) == Ok(head + tail)
  {
  }

  lemma EncodeStep(b: seq<byte>)
    requires |b| > 3
    ensures |Encode(b)| > 4
    ensures Encode(b)[4..] == Encode(b[3..])
    ensures DecodeFull(Encode(b)[0], Encode(b)[1], Encode(b)[2], Encode(b)[3]) == Ok(b[..3])
  {
    var head := EncodeBlock(b[0], b[1], b[2]);
    var s := head + Encode(b[3..]);
    assert Encode(b) == s;
    assert s[4..] == Encode(b[3..]);
    BlockRoundTrip(b[0], b[1], b[2]);
    assert s[0] == head[0] && s[1] == head[1] && s[2] == head[2] && s[3] == head[3];
    assert b[..3] == [b[0], b[1], b[2]];
  }

  lemma RoundTripLong(b: seq<byte>)
    requires |b| > 3
    requires Decode(Encode(b[3..])) == Ok(b[3..])
    ensures Decode(Encode(b)) == Ok(b)
  {
    EncodeStep(b);
    DecodeStep(Encode(b), b[..3], b[3..]);
    Rejoin(b, 3);
  }

  /** Every encoded text is made of alphabet characters and trailing '=' only. */
  lemma {:induction false} EncodeAlphabet(b: seq<byte>, i: nat)
    requires i < |Encode(b)|
    ensures var c := Encode(b)[i]; Value(c).Some? || (c == '=' && i >= |Encode(b)| - 2)
    decreases |b|
  {
    if |b| >= 3 {
      if i >= 4 {
        EncodeAlphabet(b[3..], i - 4);
      }
    }
  }
}
