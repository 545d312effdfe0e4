/** Strict UTF-8 as bytes.decode("utf-8") applies it: well-formed sequences of Table 3-7 of
    the Unicode Standard (RFC 3629), no overlong forms, no surrogates, nothing above U+10FFFF. */
module Utf8 {

  import opened Common

  predicate IsCont(x: byte) {
    0x80 <= x <= 0xBF
  }

  predicate IsScalar(n: int) {
    (0 <= n < 0xD800) || (0xE000 <= n < 0x110000)
  }

  /** The scalar value and byte length of the well-formed sequence at the start of b, if any. */
  function DecodeFirst(b: seq<byte>): (r: Option<(int, nat)>)
    ensures r.Some? ==> 1 <= r.value.1 <= 4 && r.value.1 <= |b| && IsScalar(r.value.0)
  {
    if |b| == 0 then None
    else if b[0] < 0x80 then Some((b[0] as int, 1))
    else if 0xC2 <= b[0] <= 0xDF then
      if |b| >= 2 && IsCont(b[1]) then Some(((b[0] as int - 0xC0) * 64 + (b[1] as int - 0x80), 2)) else None
    else if 0xE0 <= b[0] <= 0xEF then
      var lo := if b[0] == 0xE0 then 0xA0 else 0x80;
      var hi := if b[0] == 0xED then 0x9F else 0xBF;
      if |b| >= 3 && lo <= b[1] <= hi && IsCont(b[2]) then
        Some(((b[0] as int - 0xE0) * 4096 + (b[1] as int - 0x80) * 64 + (b[2] as int - 0x80), 3))
      else None
    else if 0xF0 <= b[0] <= 0xF4 then
      var lo := if b[0] == 0xF0 then 0x90 else 0x80;
      var hi := if b[0] == 0xF4 then 0x8F else 0xBF;
      if |b| >= 4 && lo <= b[1] <= hi && IsCont(b[2]) && IsCont(b[3]) then
        Some(((b[0] as int - 0xF0) * 262144 + (b[1] as int - 0x80) * 4096 + (b[2] as int - 0x80) * 64 + (b[3] as int - 0x80), 4))
      else None
    else None
  }

  /** The decoded text, or None when bytes.decode("utf-8") raises UnicodeDecodeError. */
  function Decode(b: seq<byte>): (r: Option<string>)
    decreases |b|
  {
    if |b| == 0 then Some("")
    else
      match DecodeFirst(b)
      case None => None
      case Some((n, len)) =>
        match Decode(b[len..])
        case None => None
        case Some(rest) => Some([n as char] + rest)
  }

  /** The UTF-8 bytes of one character. */
  function EncodeChar(c: char): (r: seq<byte>)
    ensures 1 <= |r| <= 4
  {
    var n := c as int;
    if n < 0x80 then [n]
    else if n < 0x800 then [0xC0 + n / 64, 0x80 + n % 64]
    else if n < 0x10000 then [0xE0 + n / 4096, 0x80 + (n / 64) % 64, 0x80 + n % 64]
    else [0xF0 + n / 262144, 0x80 + (n / 4096) % 64, 0x80 + (n / 64) % 64, 0x80 + n % 64]
  }

  function Encode(s: string): (r: seq<byte>)
  {
    if s == [] then [] else EncodeChar(s[0]) + Encode(s[1..])
  }

  lemma TwoByteArithmetic(n: int)
    requires 0x80 <= n < 0x800
    ensures 0xC2 <= 0xC0 + n / 64 <= 0xDF
    ensures (n / 64) * 64 + n % 64 == n
  {
  }

  lemma ThreeByteArithmetic(n: int)
    requires 0x800 <= n < 0x10000
    ensures n / 4096 * 4096 + ((n / 64) % 64) * 64 + n % 64 == n
    ensures n / 4096 == 0 ==> 0x20 <= (n / 64) % 64
    ensures n / 4096 == 0xD && IsScalar(n) ==> (n / 64) % 64 < 0x20
  {
  }

  lemma FourByteArithmetic(n: int)
    requires 0x10000 <= n < 0x110000
    ensures n / 262144 <= 4
    ensures n / 262144 * 262144 + ((n / 4096) % 64) * 4096 + ((n / 64) % 64) * 64 + n % 64 == n
    ensures n / 262144 == 0 ==> 0x10 <= (n / 4096) % 64
    ensures n / 262144 == 4 ==> (n / 4096) % 64 < 0x10
  {
  }

  /** The first well-formed sequence of a character's encoding decodes to that character. */
  lemma DecodeFirstEncodeChar(c: char, tail: seq<byte>)
    ensures DecodeFirst(EncodeChar(c) + tail) == Some((c as int, |EncodeChar(c)|))
  {
    var n := c as int;
    var b := EncodeChar(c) + tail;
    if n < 0x80 {
    } else if n < 0x800 {
      TwoByteArithmetic(n);
      assert b[0] == 0xC0 + n / 64 && b[1] == 0x80 + n % 64;
    } else if n < 0x10000 {
      ThreeByteArithmetic(n);
      assert b[0] == 0xE0 + n / 4096 && b[1] == 0x80 + (n / 64) % 64 && b[2] == 0x80 + n % 64;
    } else {
      FourByteArithmetic(n);
      assert b[0] == 0xF0 + n / 262144 && b[1] == 0x80 + (n / 4096) % 64;
      assert b[2] == 0x80 + (n / 64) % 64 && b[3] == 0x80 + n % 64;
    }
  }

  /** Decoding the encoding of any text gives back the text. */
  lemma {:induction false} DecodeEncode(s: string)
    ensures Decode(Encode(s)) == Some(s)
  {
    if s != [] {
      var e := EncodeChar(s[0]);
      var b := Encode(s);
      assert b == e + Encode(s[1..]);
      DecodeFirstEncodeChar(s[0], Encode(s[1..]));
      assert b[|e|..] == Encode(s[1..]);
      DecodeEncode(s[1..]);
      assert [s[0]] + s[1..] == s;
    }
  }

  lemma SplitTwo(x0: int, x1: int)
    requires 0 <= x1 < 64
    ensures (x0 * 64 + x1) / 64 == x0 && (x0 * 64 + x1) % 64 == x1
  {
  }

  lemma SplitThree(x0: int, x1: int, x2: int)
    requires 0 <= x0 < 16 && 0 <= x1 < 64 && 0 <= x2 < 64
    ensures var n := x0 * 4096 + x1 * 64 + x2;
      n / 4096 == x0 && (n / 64) % 64 == x1 && n % 64 == x2
  {
    var n := x0 * 4096 + x1 * 64 + x2;
    SplitTwo(x0 * 64 + x1, x2);
    assert n == (x0 * 64 + x1) * 64 + x2;
    SplitTwo(x0, x1);
    assert n / 4096 == (n / 64) / 64;
  }

  lemma SplitFour(x0: int, x1: int, x2: int, x3: int)
    requires 0 <= x0 < 8 && 0 <= x1 < 64 && 0 <= x2 < 64 && 0 <= x3 < 64
    ensures var n := x0 * 262144 + x1 * 4096 + x2 * 64 + x3;
      n / 262144 == x0 && (n / 4096) % 64 == x1 && (n / 64) % 64 == x2 && n % 64 == x3
  {
    var n := x0 * 262144 + x1 * 4096 + x2 * 64 + x3;
    var m := x0 * 4096 + x1 * 64 + x2;
    assert n == m * 64 + x3;
    SplitTwo(m, x3);
    SplitThree(x0 % 16, x1, x2);
    assert n / 4096 == m / 64;
    assert n / 262144 == m / 4096;
  }

  lemma EncodeTwoBytes(b0: byte, b1: byte)
    requires 0xC2 <= b0 <= 0xDF && IsCont(b1)
    ensures EncodeChar(((b0 as int - 0xC0) * 64 + (b1 as int - 0x80)) as char) == [b0, b1]
  {
    SplitTwo(b0 as int - 0xC0, b1 as int - 0x80);
  }

  lemma EncodeThreeBytes(b0: byte, b1: byte, b2: byte)
    requires 0xE0 <= b0 <= 0xEF && IsCont(b1) && IsCont(b2)
    requires b0 == 0xE0 ==> 0xA0 <= b1
    requires b0 == 0xED ==> b1 <= 0x9F
    ensures EncodeChar(((b0 as int - 0xE0) * 4096 + (b1 as int - 0x80) * 64 + (b2 as int - 0x80)) as char) == [b0, b1, b2]
  {
    SplitThree(b0 as int - 0xE0, b1 as int - 0x80, b2 as int - 0x80);
  }

  lemma EncodeFourBytes(b0: byte, b1: byte, b2: byte, b3: byte)
    requires 0xF0 <= b0 <= 0xF4 && IsCont(b1) && IsCont(b2) && IsCont(b3)
    requires b0 == 0xF0 ==> 0x90 <= b1
    requires b0 == 0xF4 ==> b1 <= 0x8F
    ensures EncodeChar(((b0 as int - 0xF0) * 262144 + (b1 as int - 0x80) * 4096 + (b2 as int - 0x80) * 64 + (b3 as int - 0x80)) as char)
         == [b0, b1, b2, b3]
  {
    SplitFour(b0 as int - 0xF0, b1 as int - 0x80, b2 as int - 0x80, b3 as int - 0x80);
  }

  /** A well-formed first sequence is exactly the encoding of the character it decodes to. */
  lemma EncodeCharDecodeFirst(b: seq<byte>)
    requires DecodeFirst(b).Some?
    ensures var (n, len) := DecodeFirst(b).value; EncodeChar(n as char) == b[..len]
  {
    var (n, len) := DecodeFirst(b).value;
    if len == 1 {
      assert b[..1] == [b[0]];
    } else if len == 2 {
      EncodeTwoBytes(b[0], b[1]);
      assert b[..2] == [b[0], b[1]];
    } else if len == 3 {
      EncodeThreeBytes(b[0], b[1], b[2]);
      assert b[..3] == [b[0], b[1], b[2]];
    } else {
      EncodeFourBytes(b[0], b[1], b[2], b[3]);
      assert b[..4] == [b[0], b[1], b[2], b[3]];
    }
  }

  /** Text Decode accepts starts with the character of the first well-formed sequence. */
  lemma DecodeStep(b: seq<byte>)
    requires |b| > 0 && Decode(b).Some?
    ensures DecodeFirst(b).Some?
    ensures var (n, len) := DecodeFirst(b).value;
      Decode(b[len..]).Some? && Decode(b).value == [n as char] + Decode(b[len..]).value
  {
  }

  /** Encoding a text whose first character is encoded by the first len bytes of b and whose
      rest is encoded by the remaining bytes gives b. */
  lemma EncodeStep(s: string, b: seq<byte>, len: nat)
    requires s != [] && len <= |b|
    requires EncodeChar(s[0]) == b[..len] && Encode(s[1..]) == b[len..]
    ensures Encode(s) == b
  {
    assert b == b[..len] + b[len..];
  }

  /** Whatever Decode accepts is the encoding of its result: strict decoding is one-to-one. */
  lemma {:induction false} EncodeDecode(b: seq<byte>, s: string)
    requires Decode(b) == Some(s)
    ensures Encode(s) == b
    decreases |b|
  {
    if |b| > 0 {
      DecodeStep(b);
      var (n, len) := DecodeFirst(b).value;
      var rest := Decode(b[len..]).value;
      EncodeDecode(b[len..], rest);
      EncodeCharDecodeFirst(b);
      EncodeStep(s, b, len);
    }
  }
}
