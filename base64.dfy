/** Base64 with padding, the alphabet of section 4 of RFC 4648, as base64.b64encode
    produces it for inline screenshots and fetched files. */
module Base64 {

  import opened Common

  /** The character standing for a 6-bit value. */
  function Char(k: nat): char
    requires k < 64
  {
    if k < 26 then ('A' as int + k) as char
    else if k < 52 then ('a' as int + (k - 26)) as char
    else if k < 62 then ('0' as int + (k - 52)) as char
    else if k == 62 then '+'
    else '/'
  }

  predicate IsAlphabet(c: char) {
    ('A' <= c <= 'Z') || ('a' <= c <= 'z') || ('0' <= c <= '9') || c == '+' || c == '/'
  }

  /** The 6-bit value of an alphabet character; the inverse of Char. */
  function Value(c: char): (k: nat)
    requires IsAlphabet(c)
    ensures k < 64 && Char(k) == c
  {
    if 'A' <= c <= 'Z' then c as int - 'A' as int
    else if 'a' <= c <= 'z' then c as int - 'a' as int + 26
    else if '0' <= c <= '9' then c as int - '0' as int + 52
    else if c == '+' then 62
    else 63
  }

  lemma ValueOfChar(k: nat)
    requires k < 64
    ensures IsAlphabet(Char(k)) && Value(Char(k)) == k
  {
  }

  /** Encodes whole 3-byte groups to 4 characters; a last group of 1 or 2 bytes is padded with '='. */
  function Encode(b: seq<byte>): (r: string)
    decreases |b|
  {
    if |b| == 0 then ""
    else if |b| == 1 then
      [Char(b[0] / 4), Char((b[0] % 4) * 16), '=', '=']
    else if |b| == 2 then
      [Char(b[0] / 4), Char((b[0] % 4) * 16 + b[1] / 16), Char((b[1] % 16) * 4), '=']
    else EncodeGroup(b[0], b[1], b[2]) + Encode(b[3..])
  }

  /** The four characters of a full 3-byte group. */
  function EncodeGroup(b0: byte, b1: byte, b2: byte): (g: string)
    ensures |g| == 4
  {
    [Char(b0 / 4), Char((b0 % 4) * 16 + b1 / 16), Char((b1 % 16) * 4 + b2 / 64), Char(b2 % 64)]
  }

  /** The three bytes four alphabet characters stand for. */
  function DecodeGroup(c0: char, c1: char, c2: char, c3: char): seq<byte>
    requires IsAlphabet(c0) && IsAlphabet(c1) && IsAlphabet(c2) && IsAlphabet(c3)
  {
    [(Value(c0) * 4 + Value(c1) / 16) as byte, ((Value(c1) % 16) * 16 + Value(c2) / 4) as byte, ((Value(c2) % 4) * 64 + Value(c3)) as byte]
  }

  /** Four output characters per started group of three input bytes. */
  lemma {:induction false} EncodeLength(b: seq<byte>)
    ensures |Encode(b)| == 4 * ((|b| + 2) / 3)
    decreases |b|
  {
    if |b| > 2 {
      EncodeLength(b[3..]);
      assert (|b| + 2) / 3 == (|b[3..]| + 2) / 3 + 1;
    }
  }

  /** Decodes text in the shape Encode produces; None for anything else. */
  function Decode(s: string): (r: Option<seq<byte>>)
    decreases |s|
  {
    if |s| == 0 then Some([])
    else if |s| < 4 then None
    else if !IsAlphabet(s[0]) || !IsAlphabet(s[1]) then None
    else if s[2] == '=' && s[3] == '=' then
      (if |s| == 4 && Value(s[1]) % 16 == 0 then Some([(Value(s[0]) * 4 + Value(s[1]) / 16) as byte]) else None)
    else if !IsAlphabet(s[2]) then None
    else if s[3] == '=' then
      (if |s| == 4 && Value(s[2]) % 4 == 0 then
         Some([(Value(s[0]) * 4 + Value(s[1]) / 16) as byte, ((Value(s[1]) % 16) * 16 + Value(s[2]) / 4) as byte])
       else None)
    else if !IsAlphabet(s[3]) then None
    else
      match Decode(s[4..])
      case None => None
      case Some(rest) => Some(DecodeGroup(s[0], s[1], s[2], s[3]) + rest)
  }

  /** The arithmetic behind one full group: the four 6-bit values give back the three bytes. */
  lemma GroupArithmetic(b0: byte, b1: byte, b2: byte)
    ensures var x1, x2 := (b0 % 4) * 16 + b1 / 16, (b1 % 16) * 4 + b2 / 64;
      && (b0 / 4) * 4 + x1 / 16 == b0
      && (x1 % 16) * 16 + x2 / 4 == b1
      && (x2 % 4) * 64 + b2 % 64 == b2
  {
  }

  lemma SingleArithmetic(b0: byte)
    ensures var x1 := (b0 % 4) * 16;
      && (b0 / 4) * 4 + x1 / 16 == b0
      && x1 % 16 == 0
  {
  }

  lemma PairArithmetic(b0: byte, b1: byte)
    ensures var x1, x2 := (b0 % 4) * 16 + b1 / 16, (b1 % 16) * 4;
      && (b0 / 4) * 4 + x1 / 16 == b0
      && (x1 % 16) * 16 + x2 / 4 == b1
      && x2 % 4 == 0
  {
  }

  lemma DecodeEncodeOne(b: seq<byte>)
    requires |b| == 1
    ensures Decode(Encode(b)) == Some(b)
  {
    var x0, x1 := b[0] / 4, (b[0] % 4) * 16;
    ValueOfChar(x0);
    ValueOfChar(x1);
    SingleArithmetic(b[0]);
    var e := Encode(b);
    assert e == [Char(x0), Char(x1), '=', '='];
    assert Decode(e) == Some([(x0 * 4 + x1 / 16) as byte]);
    assert [b[0]] == b;
  }

  lemma DecodeEncodeTwo(b0: byte, b1: byte)
    ensures Decode(Encode([b0, b1])) == Some([b0, b1])
  {
    var x0, x1, x2 := b0 / 4, (b0 % 4) * 16 + b1 / 16, (b1 % 16) * 4;
    ValueOfChar(x0);
    ValueOfChar(x1);
    ValueOfChar(x2);
    PairArithmetic(b0, b1);
    assert Encode([b0, b1]) == [Char(x0), Char(x1), Char(x2), '='];
    DecodeOnePad(Char(x0), Char(x1), Char(x2));
  }

  /** Three alphabet characters and one '=' decode to two bytes. */
  lemma DecodeOnePad(c0: char, c1: char, c2: char)
    requires IsAlphabet(c0) && IsAlphabet(c1) && IsAlphabet(c2) && Value(c2) % 4 == 0
    ensures Decode([c0, c1, c2, '=']) == Some([(Value(c0) * 4 + Value(c1) / 16) as byte, ((Value(c1) % 16) * 16 + Value(c2) / 4) as byte])
  {
  }

  /** Decoding an encoding gives back the bytes. */
  lemma {:induction false} DecodeEncode(b: seq<byte>)
    ensures Decode(Encode(b)) == Some(b)
    decreases |b|
  {
    if |b| == 0 {
    } else if |b| == 1 {
      DecodeEncodeOne(b);
    } else if |b| == 2 {
      DecodeEncodeTwo(b[0], b[1]);
      assert [b[0], b[1]] == b;
    } else {
      DecodeEncode(b[3..]);
      DecodeEncodeGroup(b);
    }
  }

  /** A full group decodes back to its three bytes. */
  lemma GroupRoundTrip(b0: byte, b1: byte, b2: byte)
    ensures var g := EncodeGroup(b0, b1, b2);
      && IsAlphabet(g[0]) && IsAlphabet(g[1]) && IsAlphabet(g[2]) && IsAlphabet(g[3])
      && DecodeGroup(g[0], g[1], g[2], g[3]) == [b0, b1, b2]
  {
    ValueOfChar(b0 / 4);
    ValueOfChar((b0 % 4) * 16 + b1 / 16);
    ValueOfChar((b1 % 16) * 4 + b2 / 64);
    ValueOfChar(b2 % 64);
    GroupArithmetic(b0, b1, b2);
  }

  /** Decoding four alphabet characters in front of a decodable tail. */
  lemma DecodeGroupStep(s: string)
    requires |s| >= 4 && IsAlphabet(s[0]) && IsAlphabet(s[1]) && IsAlphabet(s[2]) && IsAlphabet(s[3])
    requires Decode(s[4..]).Some?
    ensures Decode(s) == Some(DecodeGroup(s[0], s[1], s[2], s[3]) + Decode(s[4..]).value)
  {
  }

  lemma Regroup(b: seq<byte>)
    requires |b| >= 3
    ensures b == [b[0], b[1], b[2]] + b[3..]
  {
  }

  /** One full group in front of a tail that round-trips round-trips. */
  lemma DecodeEncodeGroup(b: seq<byte>)
    requires |b| >= 3 && Decode(Encode(b[3..])) == Some(b[3..])
    ensures Decode(Encode(b)) == Some(b)
  {
    Regroup(b);
    var g := EncodeGroup(b[0], b[1], b[2]);
    GroupRoundTrip(b[0], b[1], b[2]);
    var e := Encode(b);
    assert e == g + Encode(b[3..]);
    assert e[4..] == Encode(b[3..]);
    assert e[0] == g[0] && e[1] == g[1] && e[2] == g[2] && e[3] == g[3];
    DecodeGroupStep(e);
  }

  /** Every character of an encoding is an alphabet character or padding. */
  lemma {:induction false} EncodeAlphabet(b: seq<byte>)
    ensures forall j :: 0 <= j < |Encode(b)| ==> IsAlphabet(Encode(b)[j]) || Encode(b)[j] == '='
    decreases |b|
  {
    if |b| > 2 {
      EncodeAlphabet(b[3..]);
      var e := Encode(b);
      assert e[4..] == Encode(b[3..]);
      forall j | 0 <= j < |e| ensures IsAlphabet(e[j]) || e[j] == '=' {
        if j >= 4 {
          assert e[j] == Encode(b[3..])[j - 4];
        }
      }
    }
  }
}
