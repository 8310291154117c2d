/**
 * UTF-8 as RFC 3629 defines it (section 4, the syntax of UTF-8 byte
 * sequences): the check `String::from_utf8` makes on a process's output.
 * `Decode` accepts exactly the well-formed byte sequences, and they are exactly
 * the encodings of strings (`DecodeEncode`, `EncodeDecode`).
 */
module Utf8 {
  import opened Wrappers

  newtype byte = x: int | 0 <= x < 0x100

  /** The continuation bytes %x80-BF. */
  predicate IsTail(b: byte)
  {
    0x80 <= b <= 0xBF
  }

  /** The six payload bits of a continuation byte. */
  function TailBits(b: byte): int
  {
    b as int - 0x80
  }

  /** The bytes of one Unicode scalar value. */
  function EncodeChar(c: char): (r: seq<byte>)
    ensures 1 <= |r| <= 4
  {
    var n := c as int;
    if n < 0x80 then [n as byte]
    else if n < 0x800 then [(0xC0 + n / 0x40) as byte, (0x80 + n % 0x40) as byte]
    else if n < 0x10000 then
      [(0xE0 + n / 0x1000) as byte, (0x80 + (n / 0x40) % 0x40) as byte, (0x80 + n % 0x40) as byte]
    else
      [(0xF0 + n / 0x40000) as byte, (0x80 + (n / 0x1000) % 0x40) as byte,
       (0x80 + (n / 0x40) % 0x40) as byte, (0x80 + n % 0x40) as byte]
  }

  /** The UTF-8 encoding of a string, character by character. */
  function Encode(s: string): (r: seq<byte>)
    ensures |s| <= |r| <= 4 * |s|
    decreases |s|
  {
    if |s| == 0 then [] else EncodeChar(s[0]) + Encode(s[1..])
  }

  /**
   * The first character of a non-empty byte sequence and the number of bytes
   * it takes, following the RFC 3629 rules UTF8-1 to UTF8-4; `None` when the
   * sequence does not start with a well-formed character.
   */
  function DecodeFirst(b: seq<byte>): (r: Option<(char, nat)>)
    requires |b| > 0
    ensures r.Some? ==> 1 <= r.value.1 <= |b|
  {
    var b0 := b[0];
    if b0 < 0x80 then Some((b0 as int as char, 1))
    else if 0xC2 <= b0 <= 0xDF then
      if |b| >= 2 && IsTail(b[1]) then
        Some((((b0 as int - 0xC0) * 0x40 + TailBits(b[1])) as char, 2))
      else None
    else if 0xE0 <= b0 <= 0xEF then
      if |b| >= 3 && IsTail(b[1]) && IsTail(b[2])
         && (b0 == 0xE0 ==> b[1] >= 0xA0) && (b0 == 0xED ==> b[1] <= 0x9F) then
        Some((((b0 as int - 0xE0) * 0x1000 + TailBits(b[1]) * 0x40 + TailBits(b[2])) as char, 3))
      else None
    else if 0xF0 <= b0 <= 0xF4 then
      if |b| >= 4 && IsTail(b[1]) && IsTail(b[2]) && IsTail(b[3])
         && (b0 == 0xF0 ==> b[1] >= 0x90) && (b0 == 0xF4 ==> b[1] <= 0x8F) then
        Some((((b0 as int - 0xF0) * 0x40000 + TailBits(b[1]) * 0x1000 + TailBits(b[2]) * 0x40 + TailBits(b[3])) as char, 4))
      else None
    else None
  }

  /** `String::from_utf8`: the string the bytes encode, or `None` if they are not well-formed UTF-8. */
  function Decode(b: seq<byte>): (r: Option<string>)
    ensures r.Some? ==> |r.value| <= |b| <= 4 * |r.value|
    decreases |b|
  {
    if |b| == 0 then Some("")
    else match DecodeFirst(b)
      case None => None
      case Some((c, n)) =>
        match Decode(b[n..])
        case None => None
        case Some(rest) => Some([c] + rest)
  }

  /** A scalar value as its six-bit groups, most significant first. */
  lemma Groups(n: nat)
    ensures n == (n / 0x40) * 0x40 + n % 0x40
    ensures n / 0x40 == (n / 0x1000) * 0x40 + (n / 0x40) % 0x40
    ensures n / 0x1000 == (n / 0x40000) * 0x40 + (n / 0x1000) % 0x40
    ensures n / 0x1000 == (n / 0x40) / 0x40 && n / 0x40000 == (n / 0x1000) / 0x40
  {
  }

  /** The encoding of a character, followed by anything, decodes to that character. */
  lemma DecodeFirstEncodeChar(c: char, rest: seq<byte>)
    ensures DecodeFirst(EncodeChar(c) + rest) == Some((c, |EncodeChar(c)|))
  {
    var n := c as int;
    Groups(n);
    if n < 0x80 {
    } else if n < 0x800 {
      DecodeTwo(c, rest);
    } else if n < 0x10000 {
      DecodeThree(c, rest);
    } else {
      DecodeFour(c, rest);
    }
  }

  lemma DecodeTwo(c: char, rest: seq<byte>)
    requires 0x80 <= c as int < 0x800
    ensures DecodeFirst(EncodeChar(c) + rest) == Some((c, 2))
  {
    var n := c as int;
    Groups(n);
    var b := EncodeChar(c) + rest;
    assert b[0] as int == 0xC0 + n / 0x40 && b[1] as int == 0x80 + n % 0x40;
    assert (b[0] as int - 0xC0) * 0x40 + TailBits(b[1]) == n;
  }

  lemma DecodeThree(c: char, rest: seq<byte>)
    requires 0x800 <= c as int < 0x10000
    ensures DecodeFirst(EncodeChar(c) + rest) == Some((c, 3))
  {
    var n := c as int;
    Groups(n);
    var hi, mid, lo := n / 0x1000, (n / 0x40) % 0x40, n % 0x40;
    assert n == hi * 0x1000 + mid * 0x40 + lo;
    var b := EncodeChar(c) + rest;
    assert b[0] as int == 0xE0 + hi && b[1] as int == 0x80 + mid && b[2] as int == 0x80 + lo;
  }

  lemma DecodeFour(c: char, rest: seq<byte>)
    requires 0x10000 <= c as int
    ensures DecodeFirst(EncodeChar(c) + rest) == Some((c, 4))
  {
    var n := c as int;
    Groups(n);
    var top, hi, mid, lo := n / 0x40000, (n / 0x1000) % 0x40, (n / 0x40) % 0x40, n % 0x40;
    assert n == top * 0x40000 + hi * 0x1000 + mid * 0x40 + lo;
    var b := EncodeChar(c) + rest;
    assert b[0] as int == 0xF0 + top && b[1] as int == 0x80 + hi;
    assert b[2] as int == 0x80 + mid && b[3] as int == 0x80 + lo;
  }

  /** A well-formed first character occupies exactly the bytes of its encoding. */
  lemma EncodeCharDecodeFirst(b: seq<byte>)
    requires |b| > 0 && DecodeFirst(b).Some?
    ensures EncodeChar(DecodeFirst(b).value.0) == b[..DecodeFirst(b).value.1]
  {
    var len := DecodeFirst(b).value.1;
    if len == 2 {
      EncodeTwo(b);
    } else if len == 3 {
      EncodeThree(b);
    } else if len == 4 {
      EncodeFour(b);
    }
  }

  lemma EncodeTwo(b: seq<byte>)
    requires |b| > 0 && DecodeFirst(b).Some? && DecodeFirst(b).value.1 == 2
    ensures EncodeChar(DecodeFirst(b).value.0) == b[..2]
  {
    var n := DecodeFirst(b).value.0 as int;
    var hi, lo := b[0] as int - 0xC0, TailBits(b[1]);
    assert n == hi * 0x40 + lo;
    assert n / 0x40 == hi && n % 0x40 == lo;
  }

  lemma EncodeThree(b: seq<byte>)
    requires |b| > 0 && DecodeFirst(b).Some? && DecodeFirst(b).value.1 == 3
    ensures EncodeChar(DecodeFirst(b).value.0) == b[..3]
  {
    var n := DecodeFirst(b).value.0 as int;
    var hi, mid, lo := b[0] as int - 0xE0, TailBits(b[1]), TailBits(b[2]);
    assert n == hi * 0x1000 + mid * 0x40 + lo;
    assert n / 0x40 == hi * 0x40 + mid && n % 0x40 == lo;
    assert n / 0x1000 == hi && (n / 0x40) % 0x40 == mid;
    assert 0x800 <= n < 0x10000;
  }

  lemma EncodeFour(b: seq<byte>)
    requires |b| > 0 && DecodeFirst(b).Some? && DecodeFirst(b).value.1 == 4
    ensures EncodeChar(DecodeFirst(b).value.0) == b[..4]
  {
    var n := DecodeFirst(b).value.0 as int;
    var top, hi, mid, lo := b[0] as int - 0xF0, TailBits(b[1]), TailBits(b[2]), TailBits(b[3]);
    assert n == top * 0x40000 + hi * 0x1000 + mid * 0x40 + lo;
    assert n / 0x40 == top * 0x1000 + hi * 0x40 + mid && n % 0x40 == lo;
    assert n / 0x1000 == top * 0x40 + hi && (n / 0x40) % 0x40 == mid;
    assert n / 0x40000 == top && (n / 0x1000) % 0x40 == hi;
    assert 0x10000 <= n;
  }

  /** Every string's encoding is well-formed and decodes back to the string. */
  lemma {:induction false} DecodeEncode(s: string)
    ensures Decode(Encode(s)) == Some(s)
    decreases |s|
  {
    if |s| > 0 {
      var e := EncodeChar(s[0]);
      DecodeFirstEncodeChar(s[0], Encode(s[1..]));
      assert (e + Encode(s[1..]))[|e|..] == Encode(s[1..]);
      DecodeEncode(s[1..]);
      assert [s[0]] + s[1..] == s;
    }
  }

  /** Encoding a string is encoding its first character, then the rest. */
  lemma EncodeCons(c: char, t: string)
    ensures Encode([c] + t) == EncodeChar(c) + Encode(t)
  {
    assert ([c] + t)[1..] == t;
  }

  /** A non-empty well-formed sequence decodes as its first character, then the decoding of the rest. */
  lemma DecodeCons(b: seq<byte>)
    requires |b| > 0 && Decode(b).Some?
    ensures DecodeFirst(b).Some?
    ensures Decode(b[DecodeFirst(b).value.1..]).Some?
    ensures Decode(b).value == [DecodeFirst(b).value.0] + Decode(b[DecodeFirst(b).value.1..]).value
  {
  }

  /** Well-formed bytes are the encoding of the string they decode to. */
  lemma {:induction false} EncodeDecode(b: seq<byte>)
    requires Decode(b).Some?
    ensures Encode(Decode(b).value) == b
    decreases |b|
  {
    if |b| > 0 {
      DecodeCons(b);
      var c, n := DecodeFirst(b).value.0, DecodeFirst(b).value.1;
      var rest := b[n..];
      EncodeCharDecodeFirst(b);
      EncodeDecode(rest);
      EncodeCons(c, Decode(rest).value);
      assert b == b[..n] + rest;
    }
  }

  /**
   * Sequences RFC 3629 rules out: an overlong encoding of "/", a UTF-16
   * surrogate, a value above U+10FFFF, a lone continuation byte and a
   * truncated sequence.
   */
  lemma RejectsIllFormed()
    ensures Decode([0xC0, 0xAF]) == None
    ensures Decode([0xED, 0xA0, 0x80]) == None
    ensures Decode([0xF4, 0x90, 0x80, 0x80]) == None
    ensures Decode([0x80]) == None
    ensures Decode([0xE2, 0x82]) == None
  {
  }
}
