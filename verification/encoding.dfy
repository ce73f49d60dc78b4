/** Octets, as the byte buffers of the Route 53 metadata hold them. */
module Bytes {
  type Byte = b: int | 0 <= b < 256
}

/**
 * UTF-8 (RFC 3629) over Unicode scalar values: what `new Buffer(text)` stores
 * for a string, and what `buffer.toString()` reads back from well-formed
 * bytes. The decoder is strict; it gives `None` where the bytes are not
 * well-formed UTF-8.
 */
module Utf8 {
  import opened Wrappers
  import opened Bytes

  /** The one to four bytes that encode one scalar value. */
  function EncodeChar(c: char): (r: seq<Byte>)
    ensures 1 <= |r| <= 4
  {
    var n := c as int;
    if n < 0x80 then [n]
    else if n < 0x800 then [0xC0 + n / 64, 0x80 + n % 64]
    else if n < 0x1_0000 then [0xE0 + n / 4096, 0x80 + n / 64 % 64, 0x80 + n % 64]
    else [0xF0 + n / 0x4_0000, 0x80 + n / 4096 % 64, 0x80 + n / 64 % 64, 0x80 + n % 64]
  }

  /** `new Buffer(s)`: the UTF-8 bytes of a string. */
  function Encode(s: string): (r: seq<Byte>)
    ensures |s| <= |r| <= 4 * |s|
  {
    if s == [] then [] else EncodeChar(s[0]) + Encode(s[1..])
  }

  /** A continuation byte, `10xxxxxx`. */
  predicate IsCont(b: Byte) {
    0x80 <= b < 0xC0
  }

  /** The six payload bits of a continuation byte. */
  function Low(b: Byte): int {
    b as int - 0x80
  }

  /**
   * The scalar value at the head of `bs` and the number of bytes it takes, or
   * `None` when the head is not a shortest-form encoding of a scalar value.
   */
  function DecodeChar(bs: seq<Byte>): (r: Option<(char, nat)>)
    ensures r.Some? ==> 1 <= r.value.1 <= |bs|
  {
    if bs == [] then None
    else
      var b0 := bs[0] as int;
      if b0 < 0x80 then Some((b0 as char, 1))
      else if 0xC0 <= b0 < 0xE0 && 2 <= |bs| && IsCont(bs[1]) then
        var n := (b0 - 0xC0) * 64 + Low(bs[1]);
        if 0x80 <= n then Some((n as char, 2)) else None
      else if 0xE0 <= b0 < 0xF0 && 3 <= |bs| && IsCont(bs[1]) && IsCont(bs[2]) then
        var n := (b0 - 0xE0) * 4096 + Low(bs[1]) * 64 + Low(bs[2]);
        if 0x800 <= n && !(0xD800 <= n < 0xE000) then Some((n as char, 3)) else None
      else if 0xF0 <= b0 < 0xF8 && 4 <= |bs| && IsCont(bs[1]) && IsCont(bs[2]) && IsCont(bs[3]) then
        var n := (b0 - 0xF0) * 0x4_0000 + Low(bs[1]) * 4096 + Low(bs[2]) * 64 + Low(bs[3]);
        if 0x1_0000 <= n < 0x11_0000 then Some((n as char, 4)) else None
      else None
  }

  /** `buffer.toString()` for well-formed UTF-8; `None` otherwise. */
  function Decode(bs: seq<Byte>): (r: Option<string>)
    decreases |bs|
  {
    if bs == [] then Some([])
    else match DecodeChar(bs)
      case None => None
      case Some((c, k)) =>
        match Decode(bs[k..])
        case None => None
        case Some(rest) => Some([c] + rest)
  }

  /** The encoding of one character is read back as that character, whatever follows it. */
  lemma DecodeEncodedChar(c: char, rest: seq<Byte>)
    ensures DecodeChar(EncodeChar(c) + rest) == Some((c, |EncodeChar(c)|))
  {
    var n := c as int;
    if n < 0x80 {
    } else if n < 0x800 {
      DecodeTwo(c, rest);
    } else if n < 0x1_0000 {
      DecodeThree(c, rest);
    } else {
      DecodeFour(c, rest);
    }
  }

  lemma DecodeTwo(c: char, rest: seq<Byte>)
    requires 0x80 <= c as int < 0x800
    ensures DecodeChar(EncodeChar(c) + rest) == Some((c, 2))
  {
    var n := c as int;
    var bs := EncodeChar(c) + rest;
    assert bs[0] == 0xC0 + n / 64 && bs[1] == 0x80 + n % 64;
    assert (bs[0] as int - 0xC0) * 64 + Low(bs[1]) == n;
  }

  lemma DecodeThree(c: char, rest: seq<Byte>)
    requires 0x800 <= c as int < 0x1_0000
    ensures DecodeChar(EncodeChar(c) + rest) == Some((c, 3))
  {
    var n := c as int;
    var bs := EncodeChar(c) + rest;
    assert bs[0] == 0xE0 + n / 4096 && bs[1] == 0x80 + n / 64 % 64 && bs[2] == 0x80 + n % 64;
    assert n / 64 == (n / 4096) * 64 + n / 64 % 64;
    assert (bs[0] as int - 0xE0) * 4096 + Low(bs[1]) * 64 + Low(bs[2]) == n;
  }

  lemma DecodeFour(c: char, rest: seq<Byte>)
    requires 0x1_0000 <= c as int
    ensures DecodeChar(EncodeChar(c) + rest) == Some((c, 4))
  {
    var n := c as int;
    var bs := EncodeChar(c) + rest;
    assert bs[0] == 0xF0 + n / 0x4_0000 && bs[1] == 0x80 + n / 4096 % 64;
    assert bs[2] == 0x80 + n / 64 % 64 && bs[3] == 0x80 + n % 64;
    assert n / 4096 == (n / 0x4_0000) * 64 + n / 4096 % 64;
    assert n / 64 == (n / 4096) * 64 + n / 64 % 64;
    assert (bs[0] as int - 0xF0) * 0x4_0000 + Low(bs[1]) * 4096 + Low(bs[2]) * 64 + Low(bs[3]) == n;
  }

  /** Reading back the UTF-8 bytes of a string gives the string. */
  lemma {:induction false} DecodeEncode(s: string)
    ensures Decode(Encode(s)) == Some(s)
  {
    if s != [] {
      var head := EncodeChar(s[0]);
      var tail := Encode(s[1..]);
      DecodeEncodedChar(s[0], tail);
      assert (head + tail)[|head|..] == tail;
      DecodeEncode(s[1..]);
      assert [s[0]] + s[1..] == s;
    }
  }
}

/**
 * Base64 with the alphabet of section 4 of RFC 4648 and `=` padding: what
 * `buffer.toString('base64')` writes, and what `new Buffer(text, 'base64')`
 * reads back from text in that form. The decoder is strict: it gives `None`
 * for text that is not a padded sequence of four-character groups.
 */
module Base64 {
  import opened Wrappers
  import opened Bytes

  /** A character of the alphabet. */
  predicate IsSymbol(c: char) {
    'A' <= c <= 'Z' || 'a' <= c <= 'z' || '0' <= c <= '9' || c == '+' || c == '/'
  }

  /** The value of an alphabet character. */
  function ValueOf(c: char): (v: nat)
    requires IsSymbol(c)
    ensures v < 64
  {
    if 'A' <= c <= 'Z' then c as int - 'A' as int
    else if 'a' <= c <= 'z' then c as int - 'a' as int + 26
    else if '0' <= c <= '9' then c as int - '0' as int + 52
    else if c == '+' then 62
    else 63
  }

  /** The alphabet character of a 6-bit value: `A`-`Z`, `a`-`z`, `0`-`9`, `+`, `/`. */
  function Symbol(v: nat): (c: char)
    requires v < 64
    ensures IsSymbol(c) && ValueOf(c) == v
  {
    if v < 26 then ('A' as int + v) as char
    else if v < 52 then ('a' as int + (v - 26)) as char
    else if v < 62 then ('0' as int + (v - 52)) as char
    else if v == 62 then '+'
    else '/'
  }

  /** Three bytes as four characters. */
  function EncodeGroup(b0: Byte, b1: Byte, b2: Byte): (r: string)
    ensures |r| == 4 && IsSymbol(r[0]) && IsSymbol(r[1]) && IsSymbol(r[2]) && IsSymbol(r[3])
  {
    [Symbol(b0 / 4), Symbol(b0 % 4 * 16 + b1 / 16), Symbol(b1 % 16 * 4 + b2 / 64), Symbol(b2 % 64)]
  }

  /** The final group of a text whose byte count leaves one or two bytes over. */
  function EncodeTail(bs: seq<Byte>): (r: string)
    requires 1 <= |bs| <= 2
    ensures |r| == 4
  {
    if |bs| == 1 then [Symbol(bs[0] / 4), Symbol(bs[0] % 4 * 16), '=', '=']
    else [Symbol(bs[0] / 4), Symbol(bs[0] % 4 * 16 + bs[1] / 16), Symbol(bs[1] % 16 * 4), '=']
  }

  /** Every character of an encoded text is in the alphabet or is the pad `=`. */
  predicate Encoded(s: string) {
    forall i :: 0 <= i < |s| ==> IsSymbol(s[i]) || s[i] == '='
  }

  /** `buffer.toString('base64')`. */
  function Encode(bs: seq<Byte>): (r: string)
    ensures |r| % 4 == 0 && (|r| == 0 <==> bs == [])
    ensures Encoded(r)
  {
    if bs == [] then ""
    else if |bs| <= 2 then EncodeTail(bs)
    else EncodeGroup(bs[0], bs[1], bs[2]) + Encode(bs[3..])
  }

  /** Four alphabet characters as three bytes. */
  function DecodeGroup(s: string): (r: seq<Byte>)
    requires |s| == 4 && IsSymbol(s[0]) && IsSymbol(s[1]) && IsSymbol(s[2]) && IsSymbol(s[3])
    ensures |r| == 3
  {
    var v0, v1, v2, v3 := ValueOf(s[0]), ValueOf(s[1]), ValueOf(s[2]), ValueOf(s[3]);
    [v0 * 4 + v1 / 16, v1 % 16 * 16 + v2 / 4, v2 % 4 * 64 + v3]
  }

  /** The last group of a text: three bytes, or fewer when it ends in padding. */
  function DecodeLast(s: string): (r: Option<seq<Byte>>)
    requires |s| == 4
  {
    if !(IsSymbol(s[0]) && IsSymbol(s[1])) then None
    else if s[2] == '=' && s[3] == '=' then
      Some([ValueOf(s[0]) * 4 + ValueOf(s[1]) / 16])
    else if IsSymbol(s[2]) && s[3] == '=' then
      Some([ValueOf(s[0]) * 4 + ValueOf(s[1]) / 16, ValueOf(s[1]) % 16 * 16 + ValueOf(s[2]) / 4])
    else if IsSymbol(s[2]) && IsSymbol(s[3]) then Some(DecodeGroup(s))
    else None
  }

  /** `new Buffer(s, 'base64')` for text in the padded form `Encode` writes; `None` otherwise. */
  function Decode(s: string): (r: Option<seq<Byte>>)
    decreases |s|
  {
    if s == [] then Some([])
    else if |s| < 4 then None
    else if |s| == 4 then DecodeLast(s)
    else if IsSymbol(s[0]) && IsSymbol(s[1]) && IsSymbol(s[2]) && IsSymbol(s[3]) then
      match Decode(s[4..])
      case None => None
      case Some(rest) => Some(DecodeGroup(s[..4]) + rest)
    else None
  }

  /** A group of three bytes comes back from its four characters. */
  lemma DecodeEncodedGroup(b0: Byte, b1: Byte, b2: Byte)
    ensures DecodeGroup(EncodeGroup(b0, b1, b2)) == [b0, b1, b2]
  {
    var v1 := b0 % 4 * 16 + b1 / 16;
    var v2 := b1 % 16 * 4 + b2 / 64;
    assert v1 / 16 == b0 % 4 && v1 % 16 == b1 / 16;
    assert v2 / 4 == b1 % 16 && v2 % 4 == b2 / 64;
  }

  /** A final group of one or two bytes comes back from its padded characters. */
  lemma DecodeEncodedTail(bs: seq<Byte>)
    requires 1 <= |bs| <= 2
    ensures DecodeLast(EncodeTail(bs)) == Some(bs)
  {
    if |bs| == 1 {
      DecodeOneByte(bs);
    } else {
      DecodeTwoBytes(bs);
    }
  }

  lemma DecodeOneByte(bs: seq<Byte>)
    requires |bs| == 1
    ensures DecodeLast(EncodeTail(bs)) == Some(bs)
  {
    var s := EncodeTail(bs);
    assert s[1] == Symbol(bs[0] % 4 * 16) && s[2] == '=' && s[3] == '=';
    assert (bs[0] % 4 * 16) / 16 == bs[0] % 4;
    assert DecodeLast(s) == Some([ValueOf(s[0]) * 4 + ValueOf(s[1]) / 16]);
    assert bs == [bs[0]];
  }

  lemma DecodeTwoBytes(bs: seq<Byte>)
    requires |bs| == 2
    ensures DecodeLast(EncodeTail(bs)) == Some(bs)
  {
    var s := EncodeTail(bs);
    var v1, v2 := bs[0] % 4 * 16 + bs[1] / 16, bs[1] % 16 * 4;
    assert s[1] == Symbol(v1) && s[2] == Symbol(v2) && s[3] == '=';
    assert v1 / 16 == bs[0] % 4 && v1 % 16 == bs[1] / 16 && v2 / 4 == bs[1] % 16;
    assert ValueOf(s[0]) == bs[0] / 4 && ValueOf(s[1]) == v1 && ValueOf(s[2]) == v2;
    assert DecodeLast(s) == Some([ValueOf(s[0]) * 4 + ValueOf(s[1]) / 16, ValueOf(s[1]) % 16 * 16 + ValueOf(s[2]) / 4]);
    assert bs == [bs[0], bs[1]];
  }

  /** Decoding an encoded byte sequence gives it back. */
  lemma {:induction false} DecodeEncode(bs: seq<Byte>)
    ensures Decode(Encode(bs)) == Some(bs)
    decreases |bs|
  {
    if bs == [] {
    } else if |bs| <= 2 {
      DecodeEncodedTail(bs);
    } else {
      var group := EncodeGroup(bs[0], bs[1], bs[2]);
      DecodeEncodedGroup(bs[0], bs[1], bs[2]);
      if |bs| == 3 {
        assert Encode(bs) == group;
        assert bs == [bs[0], bs[1], bs[2]];
      } else {
        DecodeEncode(bs[3..]);
        DecodeGroupThenRest(group, Encode(bs[3..]));
        assert bs == [bs[0], bs[1], bs[2]] + bs[3..];
      }
    }
  }

  /** A full group followed by more text decodes as the group's bytes before the rest's. */
  lemma DecodeGroupThenRest(group: string, rest: string)
    requires |group| == 4 && IsSymbol(group[0]) && IsSymbol(group[1]) && IsSymbol(group[2]) && IsSymbol(group[3])
    requires rest != [] && Decode(rest).Some?
    ensures Decode(group + rest) == Some(DecodeGroup(group) + Decode(rest).value)
  {
    var s := group + rest;
    assert s[..4] == group && s[4..] == rest;
  }

  /** Encoded text never holds a colon, a quote or a backslash. */
  lemma EncodedIsPlain(bs: seq<Byte>)
    ensures forall i :: 0 <= i < |Encode(bs)| ==> Encode(bs)[i] !in {':', '"', '\\'}
  {
  }
}
