/**
 * Base64 as Foundation's `Data.base64EncodedString()` and `Data(base64Encoded:)` use it with
 * their default options: the alphabet of section 4 of RFC 4648, '=' padding, no line breaks,
 * and a decoder that refuses any character outside the alphabet.
 */
module Base64 {
  import opened Wrappers
  import opened Bytes

  /** The value of one Base64 digit. */
  type sextet = x: int | 0 <= x < 64

  /** Table 1 of RFC 4648: A-Z, a-z, 0-9, '+', '/'. */
  function CharOf(v: sextet): (c: char)
    ensures c != '='
  {
    if v < 26 then ('A' as int + v) as char
    else if v < 52 then ('a' as int + (v - 26)) as char
    else if v < 62 then ('0' as int + (v - 52)) as char
    else if v == 62 then '+'
    else '/'
  }

  /** The inverse of the table; `None` for '=' and every character outside the alphabet. */
  function SextetOf(c: char): (r: Option<sextet>)
    ensures r.Some? ==> CharOf(r.value) == c
  {
    if 'A' <= c <= 'Z' then Some(c as int - 'A' as int)
    else if 'a' <= c <= 'z' then Some(c as int - 'a' as int + 26)
    else if '0' <= c <= '9' then Some(c as int - '0' as int + 52)
    else if c == '+' then Some(62)
    else if c == '/' then Some(63)
    else None
  }

  lemma SextetOfCharOf(v: sextet)
    ensures SextetOf(CharOf(v)) == Some(v)
  {
  }

  /** `c` is a digit of the alphabet. */
  predicate IsBase64Char(c: char)
  {
    SextetOf(c).Some?
  }

  /** Three bytes make four digits of six bits each, most significant first. */
  function EncodeBlock(b0: byte, b1: byte, b2: byte): string
  {
    [CharOf(b0 / 4), CharOf((b0 % 4) * 16 + b1 / 16), CharOf((b1 % 16) * 4 + b2 / 64), CharOf(b2 % 64)]
  }

  /** The final one or two bytes, zero-filled to whole digits and padded with '=' to four characters. */
  function EncodeTail(d: seq<byte>): string
    requires |d| < 3
  {
    if |d| == 0 then ""
    else if |d| == 1 then [CharOf(d[0] / 4), CharOf((d[0] % 4) * 16), '=', '=']
    else [CharOf(d[0] / 4), CharOf((d[0] % 4) * 16 + d[1] / 16), CharOf((d[1] % 16) * 4), '=']
  }

  /** `base64EncodedString()`: four characters for every three bytes, the last group padded. */
  function Encode(d: seq<byte>): (r: string)
    ensures |r| == (|d| + 2) / 3 * 4
    decreases |d|
  {
    if |d| < 3 then EncodeTail(d)
    else EncodeBlock(d[0], d[1], d[2]) + Encode(d[3..])
  }

  /** The three bytes spelled by four digits. */
  function BytesOf(v0: sextet, v1: sextet, v2: sextet, v3: sextet): seq<byte>
  {
    [v0 * 4 + v1 / 16, (v1 % 16) * 16 + v2 / 4, (v2 % 4) * 64 + v3]
  }

  /** A group of four alphabet characters. */
  function DecodeFull(q: string): Option<seq<byte>>
    requires |q| == 4
  {
    match (SextetOf(q[0]), SextetOf(q[1]), SextetOf(q[2]), SextetOf(q[3]))
    case (Some(v0), Some(v1), Some(v2), Some(v3)) => Some(BytesOf(v0, v1, v2, v3))
    case _ => None
  }

  /**
   * The last group: four digits, three digits and '=', or two digits and "=="; the bits the
   * padding leaves over are dropped without being checked.
   */
  function DecodeFinal(q: string): Option<seq<byte>>
    requires |q| == 4
  {
    if q[3] != '=' then DecodeFull(q)
    else
      match (SextetOf(q[0]), SextetOf(q[1]))
      case (Some(v0), Some(v1)) =>
        if q[2] == '=' then Some(BytesOf(v0, v1, 0, 0)[..1])
        else (match SextetOf(q[2])
              case Some(v2) => Some(BytesOf(v0, v1, v2, 0)[..2])
              case None => None)
      case _ => None
  }

  /**
   * `Data(base64Encoded:)`: `None` unless the length is a multiple of four, every group but the
   * last is four alphabet characters and the last is well padded.
   */
  function Decode(s: string): (r: Option<seq<byte>>)
    ensures r.Some? ==> |s| % 4 == 0
    ensures r.Some? ==> forall i :: 0 <= i < |s| ==> IsBase64Char(s[i]) || (i >= |s| - 2 && s[i] == '=')
    decreases |s|
  {
    if |s| == 0 then Some([])
    else if |s| < 4 then None
    else if |s| == 4 then DecodeFinal(s)
    else
      match (DecodeFull(s[..4]), Decode(s[4..]))
      case (Some(b), Some(rest)) =>
        assert forall i :: 4 <= i < |s| ==> s[i] == s[4..][i - 4];
        Some(b + rest)
      case _ => None
  }

  /** Regrouping the three bytes' 24 bits into six-bit digits and back loses nothing. */
  lemma BytesOfSplit(b0: byte, b1: byte, b2: byte)
    ensures BytesOf(b0 / 4, (b0 % 4) * 16 + b1 / 16, (b1 % 16) * 4 + b2 / 64, b2 % 64) == [b0, b1, b2]
  {
    var v1, v2 := (b0 % 4) * 16 + b1 / 16, (b1 % 16) * 4 + b2 / 64;
    assert v1 / 16 == b0 % 4 && v1 % 16 == b1 / 16;
    assert v2 / 4 == b1 % 16 && v2 % 4 == b2 / 64;
    assert (b0 / 4) * 4 + b0 % 4 == b0;
    assert (b1 / 16) * 16 + b1 % 16 == b1;
    assert (b2 / 64) * 64 + b2 % 64 == b2;
  }

  /** The same for the one or two bytes of a padded last group. */
  lemma BytesOfSplitTail(b0: byte, b1: byte)
    ensures BytesOf(b0 / 4, (b0 % 4) * 16, 0, 0)[..1] == [b0]
    ensures BytesOf(b0 / 4, (b0 % 4) * 16 + b1 / 16, (b1 % 16) * 4, 0)[..2] == [b0, b1]
  {
    var v1 := (b0 % 4) * 16 + b1 / 16;
    assert ((b0 % 4) * 16) / 16 == b0 % 4;
    assert v1 / 16 == b0 % 4 && v1 % 16 == b1 / 16;
    assert ((b1 % 16) * 4) / 4 == b1 % 16;
    assert (b0 / 4) * 4 + b0 % 4 == b0;
    assert (b1 / 16) * 16 + b1 % 16 == b1;
  }

  lemma DecodeEncodeBlock(b0: byte, b1: byte, b2: byte)
    ensures DecodeFull(EncodeBlock(b0, b1, b2)) == Some([b0, b1, b2])
    ensures DecodeFinal(EncodeBlock(b0, b1, b2)) == Some([b0, b1, b2])
  {
    var v0, v1, v2, v3 := b0 / 4, (b0 % 4) * 16 + b1 / 16, (b1 % 16) * 4 + b2 / 64, b2 % 64;
    var q := EncodeBlock(b0, b1, b2);
    assert q == [CharOf(v0), CharOf(v1), CharOf(v2), CharOf(v3)];
    SextetOfCharOf(v0);
    SextetOfCharOf(v1);
    SextetOfCharOf(v2);
    SextetOfCharOf(v3);
    BytesOfSplit(b0, b1, b2);
    assert DecodeFull(q) == Some(BytesOf(v0, v1, v2, v3));
  }

  lemma DecodeEncodeTail(d: seq<byte>)
    requires |d| < 3
    ensures Decode(EncodeTail(d)) == Some(d)
  {
    if |d| == 1 {
      var v0, v1 := d[0] / 4, (d[0] % 4) * 16;
      assert EncodeTail(d) == [CharOf(v0), CharOf(v1), '=', '='];
      SextetOfCharOf(v0);
      SextetOfCharOf(v1);
      BytesOfSplitTail(d[0], 0);
      assert d == [d[0]];
    } else if |d| == 2 {
      var v0, v1, v2 := d[0] / 4, (d[0] % 4) * 16 + d[1] / 16, (d[1] % 16) * 4;
      assert EncodeTail(d) == [CharOf(v0), CharOf(v1), CharOf(v2), '='];
      SextetOfCharOf(v0);
      SextetOfCharOf(v1);
      SextetOfCharOf(v2);
      BytesOfSplitTail(d[0], d[1]);
      assert d == [d[0], d[1]];
    }
  }

  /** Section 4 of RFC 4648 round trip: decoding an encoding gives back the bytes. */
  lemma {:induction false} DecodeEncode(d: seq<byte>)
    ensures Decode(Encode(d)) == Some(d)
    decreases |d|
  {
    if |d| < 3 {
      DecodeEncodeTail(d);
    } else {
      var q := EncodeBlock(d[0], d[1], d[2]);
      var rest := Encode(d[3..]);
      DecodeEncodeBlock(d[0], d[1], d[2]);
      DecodeEncode(d[3..]);
      assert d == [d[0], d[1], d[2]] + d[3..];
      if |d| == 3 {
        assert rest == "" && Encode(d) == q;
        assert d == [d[0], d[1], d[2]];
      } else {
        assert (q + rest)[..4] == q;
        assert (q + rest)[4..] == rest;
      }
    }
  }

  /** Whatever decodes has the length its encoding would have: four characters per three bytes. */
  lemma {:induction false} DecodeLength(s: string)
    requires Decode(s).Some?
    ensures |s| == (|Decode(s).value| + 2) / 3 * 4
    decreases |s|
  {
    if |s| > 4 {
      DecodeLength(s[4..]);
    }
  }
}
