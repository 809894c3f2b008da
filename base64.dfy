/**
 * Base 64 encoding with the standard alphabet and '=' padding, as defined
 * in section 4 of RFC 4648, and a decoder that inverts it.
 */
module Base64 {
  import opened Wrappers

  type byte = x: int | 0 <= x < 256
  type sextet = x: int | 0 <= x < 64

  /** The alphabet of Table 1 in section 4 of RFC 4648. */
  function Letter(v: sextet): (c: char)
    ensures c != '=' && ValueOf(c) == Some(v)
  {
    if v < 26 then ('A' as int + v) as char
    else if v < 52 then ('a' as int + (v - 26)) as char
    else if v < 62 then ('0' as int + (v - 52)) as char
    else if v == 62 then '+'
    else '/'
  }

  /** The value of an alphabet character, None for anything else (padding included). */
  function ValueOf(c: char): (r: Option<sextet>)
  {
    if 'A' <= c <= 'Z' then Some(c as int - 'A' as int)
    else if 'a' <= c <= 'z' then Some(c as int - 'a' as int + 26)
    else if '0' <= c <= '9' then Some(c as int - '0' as int + 52)
    else if c == '+' then Some(62)
    else if c == '/' then Some(63)
    else None
  }

  /** Every character with a value is the letter of that value. */
  lemma LetterOfValue(c: char)
    requires ValueOf(c).Some?
    ensures Letter(ValueOf(c).value) == c
  {
  }

  predicate InAlphabet(c: char)
  {
    ValueOf(c).Some?
  }

  /** Three bytes become four letters, six bits each, most significant first. */
  function EncodeGroup(x: byte, y: byte, z: byte): (r: string)
    ensures |r| == 4 && forall k :: 0 <= k < 4 ==> InAlphabet(r[k])
  {
    [Letter(x / 4), Letter(x % 4 * 16 + y / 16), Letter(y % 16 * 4 + z / 64), Letter(z % 64)]
  }

  /** The final quantum: one or two bytes, zero-filled and padded with '=' (section 4, cases 2 and 3). */
  function EncodeTail(b: seq<byte>): (r: string)
    requires 1 <= |b| <= 2
    ensures |r| == 4 && r[3] == '=' && (r[2] == '=' <==> |b| == 1)
    ensures InAlphabet(r[0]) && InAlphabet(r[1]) && (|b| == 2 ==> InAlphabet(r[2]))
  {
    if |b| == 1 then [Letter(b[0] / 4), Letter(b[0] % 4 * 16), '=', '=']
    else [Letter(b[0] / 4), Letter(b[0] % 4 * 16 + b[1] / 16), Letter(b[1] % 16 * 4), '=']
  }

  function Encode(b: seq<byte>): (r: string)
    ensures |r| == 4 * ((|b| + 2) / 3)
    decreases |b|
  {
    if |b| == 0 then []
    else if |b| < 3 then EncodeTail(b)
    else EncodeGroup(b[0], b[1], b[2]) + Encode(b[3..])
  }

  /** Letters of the alphabet or '=', and '=' only in the last two places. */
  predicate Padded(r: string)
  {
    && (forall k :: 0 <= k < |r| ==> InAlphabet(r[k]) || r[k] == '=')
    && (forall k :: 0 <= k < |r| && r[k] == '=' ==> k >= |r| - 2)
  }

  /** Every encoding is made of alphabet letters, with '=' padding at the end only. */
  lemma {:induction false} EncodeAlphabet(b: seq<byte>)
    ensures Padded(Encode(b))
    decreases |b|
  {
    if |b| >= 3 {
      var g := EncodeGroup(b[0], b[1], b[2]);
      var rest := Encode(b[3..]);
      var r := g + rest;
      EncodeAlphabet(b[3..]);
      assert Encode(b) == r;
      assert !InAlphabet('=');
      forall k | 0 <= k < |r|
        ensures InAlphabet(r[k]) || r[k] == '='
        ensures r[k] == '=' ==> k >= |r| - 2
      {
        if k < 4 {
          assert r[k] == g[k];
        } else {
          assert r[k] == rest[k - 4];
        }
      }
    }
  }

  /** The three bytes held by four letter values. */
  function DecodeGroup(v0: sextet, v1: sextet, v2: sextet, v3: sextet): seq<byte>
  {
    [v0 * 4 + v1 / 16, v1 % 16 * 16 + v2 / 4, v2 % 4 * 64 + v3]
  }

  /** The last four characters: a full group, or one ending in "=" or "==". */
  function DecodeLast(q: string): Option<seq<byte>>
    requires |q| == 4
  {
    match (ValueOf(q[0]), ValueOf(q[1]), ValueOf(q[2]), ValueOf(q[3]))
    case (Some(v0), Some(v1), Some(v2), Some(v3)) => Some(DecodeGroup(v0, v1, v2, v3))
    case (Some(v0), Some(v1), Some(v2), None) =>
      if q[3] == '=' then Some(DecodeGroup(v0, v1, v2, 0)[..2]) else None
    case (Some(v0), Some(v1), None, None) =>
      if q[2] == '=' && q[3] == '=' then Some(DecodeGroup(v0, v1, 0, 0)[..1]) else None
    case _ => None
  }

  /** Decoding; None for a length not a multiple of four, a foreign character or misplaced padding. */
  function Decode(s: string): Option<seq<byte>>
    decreases |s|
  {
    if s == [] then Some([])
    else if |s| < 4 then None
    else if |s| == 4 then DecodeLast(s)
    else match (ValueOf(s[0]), ValueOf(s[1]), ValueOf(s[2]), ValueOf(s[3]))
      case (Some(v0), Some(v1), Some(v2), Some(v3)) =>
        (match Decode(s[4..])
         case Some(rest) => Some(DecodeGroup(v0, v1, v2, v3) + rest)
         case None => None)
      case _ => None
  }

  lemma GroupRoundTrip(x: byte, y: byte, z: byte)
    ensures DecodeGroup(x / 4, x % 4 * 16 + y / 16, y % 16 * 4 + z / 64, z % 64) == [x, y, z]
  {
    assert (x % 4 * 16 + y / 16) / 16 == x % 4;
    assert (x % 4 * 16 + y / 16) % 16 == y / 16;
    assert (y % 16 * 4 + z / 64) / 4 == y % 16;
    assert (y % 16 * 4 + z / 64) % 4 == z / 64;
  }

  lemma LastGroupRoundTrip(x: byte, y: byte, z: byte)
    ensures DecodeLast(EncodeGroup(x, y, z)) == Some([x, y, z])
  {
    GroupRoundTrip(x, y, z);
  }

  lemma TailRoundTrip(b: seq<byte>)
    requires 1 <= |b| <= 2
    ensures DecodeLast(EncodeTail(b)) == Some(b)
  {
    if |b| == 1 {
      GroupRoundTrip(b[0], 0, 0);
      assert DecodeGroup(b[0] / 4, b[0] % 4 * 16, 0, 0)[..1] == b;
    } else {
      GroupRoundTrip(b[0], b[1], 0);
      assert DecodeGroup(b[0] / 4, b[0] % 4 * 16 + b[1] / 16, b[1] % 16 * 4, 0)[..2] == b;
    }
  }

  lemma GroupThenRest(x: byte, y: byte, z: byte, rest: string, tail: seq<byte>)
    requires rest != [] && Decode(rest) == Some(tail)
    ensures Decode(EncodeGroup(x, y, z) + rest) == Some([x, y, z] + tail)
  {
    var v0, v1, v2, v3 := x / 4, x % 4 * 16 + y / 16, y % 16 * 4 + z / 64, z % 64;
    var s := EncodeGroup(x, y, z) + rest;
    GroupRoundTrip(x, y, z);
    assert s[4..] == rest;
    assert s[0] == Letter(v0) && s[1] == Letter(v1) && s[2] == Letter(v2) && s[3] == Letter(v3);
    assert (ValueOf(s[0]), ValueOf(s[1]), ValueOf(s[2]), ValueOf(s[3])) == (Some(v0), Some(v1), Some(v2), Some(v3));
  }

  /** Decoding inverts encoding, for every byte string. */
  lemma {:induction false} DecodeEncode(b: seq<byte>)
    ensures Decode(Encode(b)) == Some(b)
    decreases |b|
  {
    if |b| == 0 {
    } else if |b| < 3 {
      TailRoundTrip(b);
    } else if |b| == 3 {
      assert Encode(b) == EncodeGroup(b[0], b[1], b[2]) + Encode(b[3..]);
      assert Encode(b) == EncodeGroup(b[0], b[1], b[2]);
      LastGroupRoundTrip(b[0], b[1], b[2]);
      assert [b[0], b[1], b[2]] == b;
    } else {
      DecodeEncode(b[3..]);
      GroupThenRest(b[0], b[1], b[2], Encode(b[3..]), b[3..]);
      assert [b[0], b[1], b[2]] + b[3..] == b;
    }
  }
}
