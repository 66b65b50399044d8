/** `base64.b64encode` with the standard alphabet and `=` padding, over
    bytes, together with its decoder. */
module Base64 {

  /** Characters of the standard base64 alphabet (padding excluded). */
  predicate IsBase64Char(c: char) {
    ('A' <= c <= 'Z') || ('a' <= c <= 'z') || ('0' <= c <= '9') || c == '+' || c == '/'
  }

  /** An octet, and the six-bit value one alphabet character carries. */
  type Byte = x: int | 0 <= x < 256
  type Sextet = x: int | 0 <= x < 64

  /** The alphabet character for a six-bit value. */
  function SextetChar(k: Sextet): char {
    if k < 26 then (k + 'A' as int) as char
    else if k < 52 then (k - 26 + 'a' as int) as char
    else if k < 62 then (k - 52 + '0' as int) as char
    else if k == 62 then '+'
    else '/'
  }

  /** The six-bit value of an alphabet character. */
  function CharSextet(c: char): Sextet
    requires IsBase64Char(c)
  {
    if 'A' <= c <= 'Z' then c as int - 'A' as int
    else if 'a' <= c <= 'z' then c as int - 'a' as int + 26
    else if '0' <= c <= '9' then c as int - '0' as int + 52
    else if c == '+' then 62
    else 63
  }

  lemma SextetRoundTrip(k: Sextet)
    ensures IsBase64Char(SextetChar(k)) && CharSextet(SextetChar(k)) == k
  {
  }

  /** Three bytes as four alphabet characters: the high six bits of the
      first, its low two with the high four of the second, the low four of
      the second with the high two of the third, and the low six of the
      third. */
  function EncodeGroup(b0: Byte, b1: Byte, b2: Byte): string {
    [ SextetChar(b0 / 4),
      SextetChar(b0 % 4 * 16 + b1 / 16),
      SextetChar(b1 % 16 * 4 + b2 / 64),
      SextetChar(b2 % 64) ]
  }

  /** `base64.b64encode(b)`: whole groups of three bytes, then a final group
      of one or two bytes padded with `=`. */
  function Encode(b: seq<Byte>): string
    decreases |b|
  {
    if |b| == 0 then []
    else if |b| == 1 then
      [SextetChar(b[0] / 4), SextetChar(b[0] % 4 * 16), '=', '=']
    else if |b| == 2 then
      [SextetChar(b[0] / 4), SextetChar(b[0] % 4 * 16 + b[1] / 16), SextetChar(b[1] % 16 * 4), '=']
    else
      EncodeGroup(b[0], b[1], b[2]) + Encode(b[3..])
  }

  /** Text `base64.b64decode` accepts: groups of four alphabet characters,
      the last of which may end in one or two `=`. */
  predicate WellFormed(s: string)
    decreases |s|
  {
    if |s| == 0 then true
    else if |s| < 4 then false
    else
      && IsBase64Char(s[0]) && IsBase64Char(s[1])
      && if |s| == 4 then
           (s[2] == '=' && s[3] == '=') || (IsBase64Char(s[2]) && (s[3] == '=' || IsBase64Char(s[3])))
         else
           IsBase64Char(s[2]) && IsBase64Char(s[3]) && WellFormed(s[4..])
  }

  /** `base64.b64decode(s)` on well-formed text. */
  function Decode(s: string): seq<Byte>
    requires WellFormed(s)
    decreases |s|
  {
    if |s| == 0 then []
    else
      var c0, c1 := CharSextet(s[0]), CharSextet(s[1]);
      var b0 := c0 * 4 + c1 / 16;
      if s[2] == '=' then [b0]
      else
        var c2 := CharSextet(s[2]);
        var b1 := c1 % 16 * 16 + c2 / 4;
        if s[3] == '=' then [b0, b1]
        else
          var c3 := CharSextet(s[3]);
          var b2 := c2 % 4 * 64 + c3;
          [b0, b1, b2] + (if |s| == 4 then [] else Decode(s[4..]))
  }

  /** Arithmetic behind the round trip: the four sextets of a group put
      back together give the three bytes. */
  lemma GroupBits(b0: Byte, b1: Byte, b2: Byte)
    ensures (b0 / 4) * 4 + (b0 % 4 * 16 + b1 / 16) / 16 == b0
    ensures (b0 % 4 * 16 + b1 / 16) % 16 * 16 + (b1 % 16 * 4 + b2 / 64) / 4 == b1
    ensures (b1 % 16 * 4 + b2 / 64) % 4 * 64 + b2 % 64 == b2
  {
  }

  /** The encoding is four characters per started group of three bytes. */
  lemma {:induction false} EncodeLength(b: seq<Byte>)
    ensures |Encode(b)| == 4 * ((|b| + 2) / 3)
    decreases |b|
  {
    if |b| >= 3 {
      EncodeLength(b[3..]);
      assert Encode(b) == EncodeGroup(b[0], b[1], b[2]) + Encode(b[3..]);
      assert (|b| + 2) / 3 == (|b[3..]| + 2) / 3 + 1;
    }
  }

  /** A final group of one byte decodes back. */
  lemma DecodeEncodeOne(b0: Byte)
    ensures WellFormed(Encode([b0])) && Decode(Encode([b0])) == [b0]
  {
    var k0, k1: Sextet := b0 / 4, b0 % 4 * 16;
    SextetRoundTrip(k0);
    SextetRoundTrip(k1);
    assert k0 * 4 + k1 / 16 == b0 by {
      assert k1 / 16 == b0 % 4;
    }
    var s := Encode([b0]);
    assert s == [SextetChar(k0), SextetChar(k1), '=', '='];
    assert WellFormed(s);
    assert Decode(s) == [CharSextet(s[0]) * 4 + CharSextet(s[1]) / 16];
  }

  /** A final group of two bytes decodes back. */
  lemma DecodeEncodeTwo(b0: Byte, b1: Byte)
    ensures WellFormed(Encode([b0, b1])) && Decode(Encode([b0, b1])) == [b0, b1]
  {
    GroupBits(b0, b1, 0);
    SextetRoundTrip(b0 / 4);
    SextetRoundTrip(b0 % 4 * 16 + b1 / 16);
    SextetRoundTrip(b1 % 16 * 4);
  }

  /** A whole group in front of well-formed text decodes to its three bytes
      in front of what that text decodes to. */
  lemma DecodeGroupThen(b0: Byte, b1: Byte, b2: Byte, rest: string)
    requires WellFormed(rest)
    ensures WellFormed(EncodeGroup(b0, b1, b2) + rest)
    ensures Decode(EncodeGroup(b0, b1, b2) + rest) == [b0, b1, b2] + Decode(rest)
  {
    GroupBits(b0, b1, b2);
    SextetRoundTrip(b0 / 4);
    SextetRoundTrip(b0 % 4 * 16 + b1 / 16);
    SextetRoundTrip(b1 % 16 * 4 + b2 / 64);
    SextetRoundTrip(b2 % 64);
    var s := EncodeGroup(b0, b1, b2) + rest;
    assert s[4..] == rest;
  }

  /** Every encoding is well formed and decodes to the bytes it encodes. */
  lemma {:induction false} DecodeEncode(b: seq<Byte>)
    ensures WellFormed(Encode(b)) && Decode(Encode(b)) == b
    decreases |b|
  {
    if |b| == 1 {
      assert b == [b[0]];
      DecodeEncodeOne(b[0]);
    } else if |b| == 2 {
      assert b == [b[0], b[1]];
      DecodeEncodeTwo(b[0], b[1]);
    } else if |b| >= 3 {
      DecodeEncode(b[3..]);
      DecodeGroupThen(b[0], b[1], b[2], Encode(b[3..]));
      assert b == [b[0], b[1], b[2]] + b[3..];
    }
  }

  /** Characters `4 * k` to `4 * k + 4` of the encoding are the group of
      bytes `3 * k` to `3 * k + 3`. */
  lemma {:induction false} EncodeGroupAt(b: seq<Byte>, k: nat)
    requires 3 * k + 3 <= |b|
    ensures |Encode(b)| >= 4 * k + 4
    ensures Encode(b)[4 * k..4 * k + 4] == EncodeGroup(b[3 * k], b[3 * k + 1], b[3 * k + 2])
    decreases k
  {
    EncodeLength(b);
    if k > 0 {
      EncodeGroupAt(b[3..], k - 1);
      var e := Encode(b);
      assert e == EncodeGroup(b[0], b[1], b[2]) + Encode(b[3..]);
      assert e[4 * k..4 * k + 4] == Encode(b[3..])[4 * (k - 1)..4 * (k - 1) + 4];
    }
  }

  /** The first two characters of a group fix its first byte. */
  lemma GroupLead(b0: Byte, b1: Byte, b2: Byte, c0: Byte, c1: Byte, c2: Byte)
    requires EncodeGroup(b0, b1, b2)[..2] == EncodeGroup(c0, c1, c2)[..2]
    ensures b0 == c0
  {
    var g, h := EncodeGroup(b0, b1, b2), EncodeGroup(c0, c1, c2);
    assert g[0] == h[0] && g[1] == h[1];
    SextetRoundTrip(b0 / 4);
    SextetRoundTrip(c0 / 4);
    SextetRoundTrip(b0 % 4 * 16 + b1 / 16);
    SextetRoundTrip(c0 % 4 * 16 + c1 / 16);
    GroupBits(b0, b1, b2);
    GroupBits(c0, c1, c2);
  }

  /** Encoding whole groups first: the first `4 * k` characters of the
      encoding are the encoding of the first `3 * k` bytes, and they hold no
      padding. */
  lemma {:induction false} EncodePrefix(b: seq<Byte>, k: nat)
    requires 3 * k <= |b|
    ensures |Encode(b)| >= 4 * k
    ensures Encode(b)[..4 * k] == Encode(b[..3 * k])
    ensures forall i | 0 <= i < 4 * k :: IsBase64Char(Encode(b)[i])
    decreases k
  {
    EncodeLength(b);
    if k > 0 {
      EncodePrefix(b[3..], k - 1);
      assert b[..3 * k][3..] == b[3..][..3 * (k - 1)];
      SextetRoundTrip(b[0] / 4);
      SextetRoundTrip(b[0] % 4 * 16 + b[1] / 16);
      SextetRoundTrip(b[1] % 16 * 4 + b[2] / 64);
      SextetRoundTrip(b[2] % 64);
      if |b| == 3 {
        assert b[3..] == [];
      }
      var e := Encode(b);
      var g := EncodeGroup(b[0], b[1], b[2]);
      assert e == g + Encode(b[3..]);
      forall i | 0 <= i < 4 * k ensures IsBase64Char(e[i]) {
        if i >= 4 {
          assert e[i] == Encode(b[3..])[i - 4];
        }
      }
    }
  }
}
