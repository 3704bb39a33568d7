/** The byte encodings on the launch path: the user-data script is converted
    to its UTF-8 bytes (`[]byte(s)` in Go) and sent base64-encoded with the
    standard alphabet and padding (`base64.StdEncoding`). Each encoder comes
    with a decoder it round-trips through. */
module Encoding {
  import opened Errors

  newtype byte = x: int | 0 <= x < 256

  // ---- UTF-8 ----

  /** The UTF-8 bytes of one Unicode scalar value. */
  function EncodeRune(c: char): (r: seq<byte>)
    ensures 1 <= |r| <= 4
  {
    var cp := c as int;
    if cp < 0x80 then [cp as byte]
    else if cp < 0x800 then [(0xC0 + cp / 64) as byte, (0x80 + cp % 64) as byte]
    else if cp < 0x1_0000 then
      [(0xE0 + cp / 4096) as byte, (0x80 + cp / 64 % 64) as byte, (0x80 + cp % 64) as byte]
    else
      [(0xF0 + cp / 262144) as byte, (0x80 + cp / 4096 % 64) as byte,
       (0x80 + cp / 64 % 64) as byte, (0x80 + cp % 64) as byte]
  }

  /** The UTF-8 bytes of a string. */
  function EncodeUtf8(s: string): seq<byte>
  {
    if s == [] then [] else EncodeRune(s[0]) + EncodeUtf8(s[1..])
  }

  /** The character with code point `cp`, if there is one. */
  function RuneOf(cp: int): Option<char>
  {
    if 0 <= cp < 0xD800 || 0xE000 <= cp < 0x11_0000 then Some(cp as char) else None
  }

  /** The length of the sequence a UTF-8 lead byte starts. */
  function SequenceLength(lead: byte): nat
  {
    if lead < 0x80 then 1 else if lead < 0xE0 then 2 else if lead < 0xF0 then 3 else 4
  }

  /** The code point of the `n`-byte sequence at the start of `b`. */
  function CodePoint(b: seq<byte>, n: nat): int
    requires 1 <= n <= 4 && n <= |b|
  {
    if n == 1 then b[0] as int
    else if n == 2 then (b[0] as int - 0xC0) * 64 + (b[1] as int - 0x80)
    else if n == 3 then ((b[0] as int - 0xE0) * 64 + (b[1] as int - 0x80)) * 64 + (b[2] as int - 0x80)
    else (((b[0] as int - 0xF0) * 64 + (b[1] as int - 0x80)) * 64 + (b[2] as int - 0x80)) * 64 + (b[3] as int - 0x80)
  }

  /** Reads UTF-8 bytes back into characters; fails on a truncated sequence
      or a code point that is no character. */
  function DecodeUtf8(b: seq<byte>): Option<string>
    decreases |b|
  {
    if b == [] then Some([])
    else
      var n := SequenceLength(b[0]);
      if |b| < n then None
      else match RuneOf(CodePoint(b, n))
        case None => None
        case Some(c) =>
          match DecodeUtf8(b[n..])
          case None => None
          case Some(rest) => Some([c] + rest)
  }

  /** The bytes of one character are read back as that character. */
  lemma RuneRoundTrip(c: char, rest: seq<byte>)
    ensures var e := EncodeRune(c);
      |e| <= |e + rest| && SequenceLength((e + rest)[0]) == |e| && CodePoint(e + rest, |e|) == c as int
  {
    var cp := c as int;
    var e := EncodeRune(c);
    var b := e + rest;
    if cp < 0x80 {
    } else if cp < 0x800 {
      assert b[0] as int == 0xC0 + cp / 64 && b[1] as int == 0x80 + cp % 64;
    } else if cp < 0x1_0000 {
      assert b[0] as int == 0xE0 + cp / 4096;
      assert b[1] as int == 0x80 + cp / 64 % 64 && b[2] as int == 0x80 + cp % 64;
      assert cp / 4096 * 64 + cp / 64 % 64 == cp / 64;
    } else {
      assert b[0] as int == 0xF0 + cp / 262144;
      assert b[1] as int == 0x80 + cp / 4096 % 64;
      assert b[2] as int == 0x80 + cp / 64 % 64 && b[3] as int == 0x80 + cp % 64;
      assert cp / 262144 * 64 + cp / 4096 % 64 == cp / 4096;
      assert cp / 4096 * 64 + cp / 64 % 64 == cp / 64;
    }
  }

  /** Decoding the UTF-8 bytes of a string gives the string back. */
  lemma {:induction false} Utf8RoundTrip(s: string)
    ensures DecodeUtf8(EncodeUtf8(s)) == Some(s)
  {
    if s != [] {
      var e := EncodeRune(s[0]);
      var rest := EncodeUtf8(s[1..]);
      RuneRoundTrip(s[0], rest);
      Utf8RoundTrip(s[1..]);
      assert EncodeUtf8(s) == e + rest;
      assert (e + rest)[|e|..] == rest;
      assert RuneOf(s[0] as int) == Some(s[0]);
      assert [s[0]] + s[1..] == s;
    }
  }

  // ---- base64, standard alphabet with padding ----

  /** The character for a 6-bit value. */
  function Base64Char(i: int): char
    requires 0 <= i < 64
  {
    if i < 26 then ('A' as int + i) as char
    else if i < 52 then ('a' as int + i - 26) as char
    else if i < 62 then ('0' as int + i - 52) as char
    else if i == 62 then '+'
    else '/'
  }

  /** The 6-bit value of an alphabet character. */
  function Base64Value(c: char): Option<int>
  {
    if 'A' <= c <= 'Z' then Some(c as int - 'A' as int)
    else if 'a' <= c <= 'z' then Some(c as int - 'a' as int + 26)
    else if '0' <= c <= '9' then Some(c as int - '0' as int + 52)
    else if c == '+' then Some(62)
    else if c == '/' then Some(63)
    else None
  }

  lemma Base64CharValue(i: int)
    requires 0 <= i < 64
    ensures Base64Value(Base64Char(i)) == Some(i)
  {
  }

  /** One to three bytes as four characters, padded with `=`. */
  function EncodeGroup(b: seq<byte>): (g: string)
    requires 1 <= |b| <= 3
    ensures |g| == 4
  {
    var x0 := b[0] as int;
    if |b| == 1 then
      [Base64Char(x0 / 4), Base64Char(x0 % 4 * 16), '=', '=']
    else
      var x1 := b[1] as int;
      if |b| == 2 then
        [Base64Char(x0 / 4), Base64Char(x0 % 4 * 16 + x1 / 16), Base64Char(x1 % 16 * 4), '=']
      else
        var x2 := b[2] as int;
        [Base64Char(x0 / 4), Base64Char(x0 % 4 * 16 + x1 / 16), Base64Char(x1 % 16 * 4 + x2 / 64), Base64Char(x2 % 64)]
  }

  /** Every three bytes become four characters; a final one or two bytes
      become a padded group of four. */
  function EncodeBase64(b: seq<byte>): string
  {
    if b == [] then []
    else if |b| <= 3 then EncodeGroup(b)
    else EncodeGroup(b[..3]) + EncodeBase64(b[3..])
  }

  /** Four characters of base64 for every three bytes or part of three. */
  lemma {:induction false} EncodeBase64Length(b: seq<byte>)
    ensures |EncodeBase64(b)| == (|b| + 2) / 3 * 4
  {
    if |b| > 3 {
      EncodeBase64Length(b[3..]);
      assert (|b| + 2) / 3 == (|b| - 3 + 2) / 3 + 1;
    }
  }

  /** The bytes of one four-character group, if it is well formed. */
  function DecodeGroup(g: string): Option<seq<byte>>
    requires |g| == 4
  {
    var v0, v1, v2, v3 := Base64Value(g[0]), Base64Value(g[1]), Base64Value(g[2]), Base64Value(g[3]);
    if v0.None? || v1.None? then None
    else if g[2] == '=' && g[3] == '=' then
      Some([(v0.value * 4 + v1.value / 16) as byte])
    else if v2.None? then None
    else if g[3] == '=' then
      Some([(v0.value * 4 + v1.value / 16) as byte, (v1.value % 16 * 16 + v2.value / 4) as byte])
    else if v3.None? then None
    else
      Some([(v0.value * 4 + v1.value / 16) as byte, (v1.value % 16 * 16 + v2.value / 4) as byte,
            (v2.value % 4 * 64 + v3.value) as byte])
  }

  /** A group decodes to the bytes it was made from. */
  lemma GroupRoundTrip(b: seq<byte>)
    requires 1 <= |b| <= 3
    ensures DecodeGroup(EncodeGroup(b)) == Some(b)
  {
    if |b| == 1 {
      GroupOfOne(b);
    } else if |b| == 2 {
      GroupOfTwo(b);
    } else {
      GroupOfThree(b);
    }
  }

  lemma GroupOfOne(b: seq<byte>)
    requires |b| == 1
    ensures DecodeGroup(EncodeGroup(b)) == Some(b)
  {
    var x0 := b[0] as int;
    Base64CharValue(x0 / 4);
    Base64CharValue(x0 % 4 * 16);
    assert b == [b[0]];
  }

  lemma GroupOfTwo(b: seq<byte>)
    requires |b| == 2
    ensures DecodeGroup(EncodeGroup(b)) == Some(b)
  {
    var x0, x1 := b[0] as int, b[1] as int;
    var c1 := x0 % 4 * 16 + x1 / 16;
    Base64CharValue(x0 / 4);
    Base64CharValue(c1);
    Base64CharValue(x1 % 16 * 4);
    assert c1 / 16 == x0 % 4 && c1 % 16 == x1 / 16;
    assert b == [b[0], b[1]];
  }

  lemma GroupOfThree(b: seq<byte>)
    requires |b| == 3
    ensures DecodeGroup(EncodeGroup(b)) == Some(b)
  {
    var x0, x1, x2 := b[0] as int, b[1] as int, b[2] as int;
    var c1 := x0 % 4 * 16 + x1 / 16;
    var c2 := x1 % 16 * 4 + x2 / 64;
    Base64CharValue(x0 / 4);
    Base64CharValue(c1);
    Base64CharValue(c2);
    Base64CharValue(x2 % 64);
    assert c1 / 16 == x0 % 4 && c1 % 16 == x1 / 16;
    assert c2 / 4 == x1 % 16 && c2 % 4 == x2 / 64;
    assert b == [b[0], b[1], b[2]];
  }

  /** Reads base64 text back into bytes; padding may only end the text. */
  function DecodeBase64(s: string): Option<seq<byte>>
    decreases |s|
  {
    if s == [] then Some([])
    else if |s| < 4 then None
    else match DecodeGroup(s[..4])
      case None => None
      case Some(bytes) =>
        if |bytes| < 3 then (if |s| == 4 then Some(bytes) else None)
        else match DecodeBase64(s[4..])
          case None => None
          case Some(rest) => Some(bytes + rest)
  }

  /** Decoding the base64 text of some bytes gives the bytes back. */
  lemma {:induction false} Base64RoundTrip(b: seq<byte>)
    ensures DecodeBase64(EncodeBase64(b)) == Some(b)
    decreases |b|
  {
    if b != [] {
      var s := EncodeBase64(b);
      if |b| <= 3 {
        GroupRoundTrip(b);
        assert s[..4] == s;
        if |b| == 3 {
          assert s[4..] == [];
          assert b + [] == b;
        }
      } else {
        var rest := EncodeBase64(b[3..]);
        GroupRoundTrip(b[..3]);
        Base64RoundTrip(b[3..]);
        assert s[..4] == EncodeGroup(b[..3]) && s[4..] == rest;
        assert b[..3] + b[3..] == b;
      }
    }
  }

  /** The user data as the launch request carries it. */
  function UserDataPayload(script: string): string
  {
    EncodeBase64(EncodeUtf8(script))
  }

  /** The instance receives exactly the configured script. */
  lemma UserDataRoundTrip(script: string)
    ensures (match DecodeBase64(UserDataPayload(script))
             case Some(bytes) => DecodeUtf8(bytes)
             case None => None) == Some(script)
  {
    Base64RoundTrip(EncodeUtf8(script));
    Utf8RoundTrip(script);
  }
}
