/**
 * The two encodings the login header is built from: UTF-8 (RFC 3629), which
 * turns the `username:password` string into bytes, and base 64 (section 4 of
 * RFC 4648), which turns those bytes into the header text. Each comes with
 * the decoder that undoes it, so the header can be read back.
 */
module Encoding {
  import opened JamfTypes

  type Byte = x: int | 0 <= x < 256

  // ---------------------------------------------------------------------------
  // UTF-8

  /** The UTF-8 bytes of one Unicode scalar value: one to four bytes, by range. */
  function CharBytes(c: char): seq<Byte>
  {
    var n := c as int;
    if n < 0x80 then [n]
    else if n < 0x800 then [0xC0 + n / 64, 0x80 + n % 64]
    else if n < 0x1_0000 then [0xE0 + n / 4096, 0x80 + n / 64 % 64, 0x80 + n % 64]
    else [0xF0 + n / 262144, 0x80 + n / 4096 % 64, 0x80 + n / 64 % 64, 0x80 + n % 64]
  }

  /** `s.data(using: .utf8)`: the characters' encodings, one after the other. */
  function Utf8Encode(s: string): seq<Byte>
    decreases |s|
  {
    if s == [] then [] else CharBytes(s[0]) + Utf8Encode(s[1..])
  }

  predicate IsContinuation(b: Byte)
  {
    0x80 <= b < 0xC0
  }

  predicate IsScalar(n: int)
  {
    0 <= n < 0xD800 || 0xE000 <= n < 0x11_0000
  }

  /**
   * The first character of `bs` and the bytes after it, or None when `bs`
   * does not start with a well-formed sequence: a stray continuation byte, a
   * missing continuation byte, an overlong form, a surrogate or a value past
   * U+10FFFF.
   */
  function DecodeChar(bs: seq<Byte>): Option<(char, seq<Byte>)>
  {
    if bs == [] then None
    else
      var b0 := bs[0] as int;
      if b0 < 0x80 then Some((b0 as char, bs[1..]))
      else if 0xC0 <= b0 < 0xE0 && |bs| >= 2 && IsContinuation(bs[1]) then
        var n := (b0 - 0xC0) * 64 + (bs[1] as int - 0x80);
        if 0x80 <= n then Some((n as char, bs[2..])) else None
      else if 0xE0 <= b0 < 0xF0 && |bs| >= 3 && IsContinuation(bs[1]) && IsContinuation(bs[2]) then
        var n := (b0 - 0xE0) * 4096 + (bs[1] as int - 0x80) * 64 + (bs[2] as int - 0x80);
        if 0x800 <= n && IsScalar(n) then Some((n as char, bs[3..])) else None
      else if 0xF0 <= b0 < 0xF8 && |bs| >= 4 && IsContinuation(bs[1]) && IsContinuation(bs[2])
              && IsContinuation(bs[3]) then
        var n := (b0 - 0xF0) * 262144 + (bs[1] as int - 0x80) * 4096 + (bs[2] as int - 0x80) * 64 + (bs[3] as int - 0x80);
        if 0x1_0000 <= n < 0x11_0000 then Some((n as char, bs[4..])) else None
      else None
  }

  /** The string whose UTF-8 encoding is `bs`, or None when `bs` is not well-formed. */
  function Utf8Decode(bs: seq<Byte>): Option<string>
    decreases |bs|
  {
    if bs == [] then Some([])
    else match DecodeChar(bs)
      case None => None
      case Some((c, rest)) =>
        if |rest| < |bs| then
          match Utf8Decode(rest)
          case None => None
          case Some(s) => Some([c] + s)
        else None
  }

  /** Decoding the bytes of one character, followed by anything, gives back that character. */
  lemma DecodeCharBytes(c: char, rest: seq<Byte>)
    ensures DecodeChar(CharBytes(c) + rest) == Some((c, rest))
  {
    var n := c as int;
    var bs := CharBytes(c) + rest;
    if n < 0x80 {
      assert bs[1..] == rest;
    } else if n < 0x800 {
      TwoByteForm(n);
      assert bs[2..] == rest;
    } else if n < 0x1_0000 {
      ThreeByteForm(n);
      assert bs[3..] == rest;
    } else {
      FourByteForm(n);
      assert bs[4..] == rest;
    }
  }

  lemma TwoByteForm(n: int)
    requires 0x80 <= n < 0x800
    ensures 0xC0 <= 0xC0 + n / 64 < 0xE0 && (n / 64) * 64 + n % 64 == n
  {
  }

  lemma ThreeByteForm(n: int)
    requires 0x800 <= n < 0x1_0000
    ensures 0xE0 <= 0xE0 + n / 4096 < 0xF0 && (n / 4096) * 4096 + (n / 64 % 64) * 64 + n % 64 == n
  {
    assert n / 64 == (n / 4096) * 64 + n / 64 % 64;
  }

  lemma FourByteForm(n: int)
    requires 0x1_0000 <= n < 0x11_0000
    ensures 0xF0 <= 0xF0 + n / 262144 < 0xF8
    ensures (n / 262144) * 262144 + (n / 4096 % 64) * 4096 + (n / 64 % 64) * 64 + n % 64 == n
  {
    assert n / 64 == (n / 4096) * 64 + n / 64 % 64;
    assert n / 4096 == (n / 262144) * 64 + n / 4096 % 64;
  }

  /** UTF-8 loses nothing: decoding an encoding gives back the string. */
  lemma {:induction false} Utf8RoundTrip(s: string)
    ensures Utf8Decode(Utf8Encode(s)) == Some(s)
    decreases |s|
  {
    if s != [] {
      var rest := Utf8Encode(s[1..]);
      DecodeCharBytes(s[0], rest);
      Utf8RoundTrip(s[1..]);
      assert [s[0]] + s[1..] == s;
    }
  }

  // ---------------------------------------------------------------------------
  // Base 64, section 4 of RFC 4648

  /** The character of the base 64 alphabet for the 6-bit value `k`. */
  function SextetChar(k: int): char
    requires 0 <= k < 64
  {
    if k < 26 then ('A' as int + k) as char
    else if k < 52 then ('a' as int + k - 26) as char
    else if k < 62 then ('0' as int + k - 52) as char
    else if k == 62 then '+'
    else '/'
  }

  /** The 6-bit value a base 64 character stands for, or None for the pad and every other character. */
  function SextetOf(c: char): Option<int>
  {
    if 'A' <= c <= 'Z' then Some(c as int - 'A' as int)
    else if 'a' <= c <= 'z' then Some(c as int - 'a' as int + 26)
    else if '0' <= c <= '9' then Some(c as int - '0' as int + 52)
    else if c == '+' then Some(62)
    else if c == '/' then Some(63)
    else None
  }

  lemma SextetOfChar(k: int)
    requires 0 <= k < 64
    ensures SextetOf(SextetChar(k)) == Some(k)
  {
  }

  /**
   * `base64EncodedString()`: every three bytes become four characters; a
   * last group of one or two bytes is padded with `=` to four.
   */
  function Base64Encode(bs: seq<Byte>): string
    decreases |bs|
  {
    if bs == [] then []
    else if |bs| == 1 then
      [SextetChar(bs[0] / 4), SextetChar(bs[0] % 4 * 16), '=', '=']
    else if |bs| == 2 then
      [SextetChar(bs[0] / 4), SextetChar(bs[0] % 4 * 16 + bs[1] / 16), SextetChar(bs[1] % 16 * 4), '=']
    else
      [SextetChar(bs[0] / 4), SextetChar(bs[0] % 4 * 16 + bs[1] / 16),
       SextetChar(bs[1] % 16 * 4 + bs[2] / 64), SextetChar(bs[2] % 64)]
      + Base64Encode(bs[3..])
  }

  /** The bytes of one four-character group, or None when it is not one. */
  function DecodeQuantum(q: string, last: bool): Option<seq<Byte>>
    requires |q| == 4
  {
    var a, b, c, d := SextetOf(q[0]), SextetOf(q[1]), SextetOf(q[2]), SextetOf(q[3]);
    if a.None? || b.None? then None
    else if last && q[2] == '=' && q[3] == '=' then
      if b.value % 16 == 0 then Some([a.value * 4 + b.value / 16]) else None
    else if c.None? then None
    else if last && q[3] == '=' then
      if c.value % 4 == 0 then Some([a.value * 4 + b.value / 16, b.value % 16 * 16 + c.value / 4]) else None
    else if d.None? then None
    else Some([a.value * 4 + b.value / 16, b.value % 16 * 16 + c.value / 4, c.value % 4 * 64 + d.value])
  }

  /**
   * The bytes a canonical base 64 text stands for, or None: a length that is
   * not a multiple of four, a character outside the alphabet, padding
   * anywhere but at the end, or non-zero pad bits.
   */
  function Base64Decode(s: string): Option<seq<Byte>>
    decreases |s|
  {
    if s == [] then Some([])
    else if |s| < 4 then None
    else match DecodeQuantum(s[..4], |s| == 4)
      case None => None
      case Some(head) =>
        match Base64Decode(s[4..])
        case None => None
        case Some(tail) => Some(head + tail)
  }

  /** The encoding is four characters for every started group of three bytes. */
  lemma {:induction false} Base64Length(bs: seq<Byte>)
    ensures |Base64Encode(bs)| == (|bs| + 2) / 3 * 4
    decreases |bs|
  {
    if |bs| > 2 {
      Base64Length(bs[3..]);
    }
  }

  /** Each group of bytes decodes back from its four characters. */
  lemma DecodeQuantumOfGroup(bs: seq<Byte>, last: bool)
    requires 1 <= |bs| <= 3 && (|bs| < 3 ==> last)
    ensures |Base64Encode(bs)| == 4
    ensures DecodeQuantum(Base64Encode(bs), last) == Some(bs)
  {
    var q := Base64Encode(bs);
    if |bs| == 1 {
      var b0 := bs[0];
      assert bs == [b0];
      assert q == [SextetChar(b0 / 4), SextetChar(b0 % 4 * 16), '=', '='];
      OneByteGroup(b0);
    } else if |bs| == 2 {
      var b0, b1 := bs[0], bs[1];
      assert bs == [b0, b1];
      assert q == [SextetChar(b0 / 4), SextetChar(b0 % 4 * 16 + b1 / 16), SextetChar(b1 % 16 * 4), '='];
      TwoByteGroup(b0, b1);
    } else {
      var b0, b1, b2 := bs[0], bs[1], bs[2];
      assert bs == [b0, b1, b2];
      assert bs[3..] == [] && Base64Encode(bs[3..]) == [];
      var head := [SextetChar(b0 / 4), SextetChar(b0 % 4 * 16 + b1 / 16),
                   SextetChar(b1 % 16 * 4 + b2 / 64), SextetChar(b2 % 64)];
      assert q == head + [] == head;
      ThreeByteGroup(b0, b1, b2, last);
    }
  }

  lemma OneByteGroup(b0: Byte)
    ensures DecodeQuantum([SextetChar(b0 / 4), SextetChar(b0 % 4 * 16), '=', '='], true) == Some([b0])
  {
    SextetOfChar(b0 / 4);
    SextetOfChar(b0 % 4 * 16);
    SplitBits(b0, 4);
    assert (b0 % 4 * 16) / 16 == b0 % 4;
  }

  lemma TwoByteGroup(b0: Byte, b1: Byte)
    ensures DecodeQuantum([SextetChar(b0 / 4), SextetChar(b0 % 4 * 16 + b1 / 16), SextetChar(b1 % 16 * 4), '='], true)
      == Some([b0, b1])
  {
    SextetOfChar(b0 / 4);
    SextetOfChar(b0 % 4 * 16 + b1 / 16);
    SextetOfChar(b1 % 16 * 4);
    SplitBits(b0, 4);
    SplitBits(b1, 16);
    assert (b0 % 4 * 16 + b1 / 16) / 16 == b0 % 4 && (b0 % 4 * 16 + b1 / 16) % 16 == b1 / 16;
    assert (b1 % 16 * 4) / 4 == b1 % 16;
  }

  lemma ThreeByteGroup(b0: Byte, b1: Byte, b2: Byte, last: bool)
    ensures DecodeQuantum([SextetChar(b0 / 4), SextetChar(b0 % 4 * 16 + b1 / 16),
                           SextetChar(b1 % 16 * 4 + b2 / 64), SextetChar(b2 % 64)], last)
      == Some([b0, b1, b2])
  {
    SextetOfChar(b0 / 4);
    SextetOfChar(b0 % 4 * 16 + b1 / 16);
    SextetOfChar(b1 % 16 * 4 + b2 / 64);
    SextetOfChar(b2 % 64);
    SplitBits(b0, 4);
    SplitBits(b1, 16);
    SplitBits(b2, 64);
    assert (b0 % 4 * 16 + b1 / 16) / 16 == b0 % 4 && (b0 % 4 * 16 + b1 / 16) % 16 == b1 / 16;
    assert (b1 % 16 * 4 + b2 / 64) / 4 == b1 % 16 && (b1 % 16 * 4 + b2 / 64) % 4 == b2 / 64;
  }

  /** A byte is its high part times `m` plus its low part. */
  lemma SplitBits(b: Byte, m: int)
    requires m == 4 || m == 16 || m == 64
    ensures b / m * m + b % m == b && 0 <= b % m < m && 0 <= b / m < 256 / m
  {
  }

  /** Base 64 loses nothing: decoding an encoding gives back the bytes. */
  lemma {:induction false} Base64RoundTrip(bs: seq<Byte>)
    ensures Base64Decode(Base64Encode(bs)) == Some(bs)
    decreases |bs|
  {
    if bs != [] {
      var s := Base64Encode(bs);
      Base64Length(bs);
      if |bs| <= 3 {
        DecodeQuantumOfGroup(bs, true);
        assert s[..4] == s && s[4..] == [];
        assert bs + [] == bs;
      } else {
        var group, rest := bs[..3], bs[3..];
        Base64Length(rest);
        assert Base64Encode(group) == s[..4] by {
          assert group[3..] == [];
        }
        DecodeQuantumOfGroup(group, false);
        assert s[4..] == Base64Encode(rest);
        Base64RoundTrip(rest);
        assert group + rest == bs;
      }
    }
  }
}
