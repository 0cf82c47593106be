/**
 * The base64 text of a buffer: section 4 of RFC 4648, with padding.
 */
module Base64 {
  import opened Trees

  type Sextet = v: int | 0 <= v < 64

  function Digit(v: Sextet): char {
    if v < 26 then ('A' as int + v) as char
    else if v < 52 then ('a' as int + v - 26) as char
    else if v < 62 then ('0' as int + v - 52) as char
    else if v == 62 then '+' else '/'
  }

  function Value(c: char): Option<Sextet> {
    if 'A' <= c <= 'Z' then Some(c as int - 'A' as int)
    else if 'a' <= c <= 'z' then Some(c as int - 'a' as int + 26)
    else if '0' <= c <= '9' then Some(c as int - '0' as int + 52)
    else if c == '+' then Some(62) else if c == '/' then Some(63) else None
  }

  lemma {:induction false} DigitValue(v: Sextet)
    ensures Value(Digit(v)) == Some(v) && Digit(v) != '='
  {}

  // The four digits of three bytes, and the three bytes of four digits.

  function D0(x: Byte): Sextet { x as int / 4 }
  function D1(x: Byte, y: Byte): Sextet { x as int % 4 * 16 + y as int / 16 }
  function D2(y: Byte, z: Byte): Sextet { y as int % 16 * 4 + z as int / 64 }
  function D3(z: Byte): Sextet { z as int % 64 }

  function B0(p: Sextet, q: Sextet): Byte { (p * 4 + q / 16) as Byte }
  function B1(q: Sextet, r: Sextet): Byte { (q % 16 * 16 + r / 4) as Byte }
  function B2(r: Sextet, t: Sextet): Byte { (r % 4 * 64 + t) as Byte }

  lemma {:induction false} Regroup(x: Byte, y: Byte, z: Byte)
    ensures B0(D0(x), D1(x, y)) == x && B1(D1(x, y), D2(y, z)) == y && B2(D2(y, z), D3(z)) == z
  {}

  function Encode(b: Bytes): string {
    if b == [] then ""
    else if |b| == 1 then [Digit(D0(b[0])), Digit(D1(b[0], 0)), '=', '=']
    else if |b| == 2 then [Digit(D0(b[0])), Digit(D1(b[0], b[1])), Digit(D2(b[1], 0)), '=']
    else [Digit(D0(b[0])), Digit(D1(b[0], b[1])), Digit(D2(b[1], b[2])), Digit(D3(b[2]))] + Encode(b[3..])
  }

  /** None for text of the wrong length, with padding out of place, or with other characters. */
  function Decode(s: string): Option<Bytes> {
    if s == [] then Some([])
    else if |s| < 4 then None
    else
      match (Value(s[0]), Value(s[1]), Value(s[2]), Value(s[3]))
      case (Some(p), Some(q), None, None) =>
        if s[2..] == "==" then Some([B0(p, q)]) else None
      case (Some(p), Some(q), Some(r), None) =>
        if s[3..] == "=" then Some([B0(p, q), B1(q, r)]) else None
      case (Some(p), Some(q), Some(r), Some(t)) =>
        (match Decode(s[4..])
         case None => None
         case Some(rest) => Some([B0(p, q), B1(q, r), B2(r, t)] + rest))
      case _ => None
  }

  lemma {:induction false} DecodeSingle(p: Sextet, q: Sextet)
    ensures Decode([Digit(p), Digit(q), '=', '=']) == Some([B0(p, q)])
  {
    DigitValue(p);
    DigitValue(q);
  }

  lemma {:induction false} DecodePair(p: Sextet, q: Sextet, r: Sextet)
    ensures Decode([Digit(p), Digit(q), Digit(r), '=']) == Some([B0(p, q), B1(q, r)])
  {
    DigitValue(p);
    DigitValue(q);
    DigitValue(r);
  }

  lemma {:induction false} DecodeGroup(p: Sextet, q: Sextet, r: Sextet, t: Sextet, s: string)
    ensures Decode([Digit(p), Digit(q), Digit(r), Digit(t)] + s) ==
            match Decode(s)
            case None => None
            case Some(rest) => Some([B0(p, q), B1(q, r), B2(r, t)] + rest)
  {
    DigitValue(p);
    DigitValue(q);
    DigitValue(r);
    DigitValue(t);
    assert ([Digit(p), Digit(q), Digit(r), Digit(t)] + s)[4..] == s;
  }

  lemma {:induction false} RestComesBack(x: Byte, y: Byte, z: Byte, rest: Bytes)
    requires Decode(Encode(rest)) == Some(rest)
    ensures Decode(Encode([x, y, z] + rest)) == Some([x, y, z] + rest)
  {
    hide D0, D1, D2, D3, B0, B1, B2, Digit, Value, Decode;
    assert ([x, y, z] + rest)[3..] == rest;
    DecodeGroup(D0(x), D1(x, y), D2(y, z), D3(z), Encode(rest));
    Regroup(x, y, z);
  }

  lemma {:induction false} FirstThree(b: Bytes)
    requires |b| >= 3
    ensures b == [b[0], b[1], b[2]] + b[3..]
  {}

  /** The text of a buffer gives the buffer back. */
  lemma {:induction false} DecodeEncode(b: Bytes)
    ensures Decode(Encode(b)) == Some(b)
  {
    hide D0, D1, D2, D3, B0, B1, B2, Digit, Value;
    if |b| >= 3 {
      var rest := b[3..];
      DecodeEncode(rest);
      FirstThree(b);
      RestComesBack(b[0], b[1], b[2], rest);
    } else if |b| == 2 {
      DecodePair(D0(b[0]), D1(b[0], b[1]), D2(b[1], 0));
      Regroup(b[0], b[1], 0);
      assert b == [b[0], b[1]];
    } else if |b| == 1 {
      DecodeSingle(D0(b[0]), D1(b[0], 0));
      Regroup(b[0], 0, 0);
      assert b == [b[0]];
    }
  }

  // ---------------------------------------------------------------------
  // Which text that is
  // ---------------------------------------------------------------------

  const UPPER := "ABCDEFGHIJKLMNOPQRSTUVWXYZ"
  const LOWER := "abcdefghijklmnopqrstuvwxyz"
  const NUMERALS := "0123456789"

  /** Table 1 of RFC 4648. */
  const ALPHABET := UPPER + LOWER + NUMERALS + "+/"

  lemma {:induction false} DigitListed(v: Sextet)
    ensures |ALPHABET| == 64 && Digit(v) == ALPHABET[v]
  {
    if v < 26 {
      assert ALPHABET[v] == UPPER[v];
    } else if v < 52 {
      assert ALPHABET[v] == LOWER[v - 26];
    } else if v < 62 {
      assert ALPHABET[v] == NUMERALS[v - 52];
    }
  }

  /** The bit of x that counts for so much. */
  function Binary(x: Byte, worth: int): int
    requires worth > 0
  {
    x as int / worth % 2
  }

  /** The n-th bit of the bytes, the most significant first; zeros follow the last. */
  function Bit(b: Bytes, n: nat): int {
    if n / 8 < |b| then Binary(b[n / 8], [128, 64, 32, 16, 8, 4, 2, 1][n % 8]) else 0
  }

  lemma {:induction false} BitBinary(b: Bytes, n: nat)
    ensures 0 <= Bit(b, n) <= 1
  {}

  /** The k-th six bits, as a number. */
  function SixBits(b: Bytes, k: nat): Sextet {
    var n := 6 * k;
    BitBinary(b, n);
    BitBinary(b, n + 1);
    BitBinary(b, n + 2);
    BitBinary(b, n + 3);
    BitBinary(b, n + 4);
    BitBinary(b, n + 5);
    32 * Bit(b, n) + 16 * Bit(b, n + 1) + 8 * Bit(b, n + 2) + 4 * Bit(b, n + 3) + 2 * Bit(b, n + 4) + Bit(b, n + 5)
  }

  lemma {:induction false} BitLater(b: Bytes, n: nat)
    requires |b| >= 3
    ensures Bit(b, n + 24) == Bit(b[3..], n)
  {
    hide Binary;
    assert (n + 24) / 8 == n / 8 + 3 && (n + 24) % 8 == n % 8;
  }

  lemma {:induction false} BitsLater(b: Bytes, k: nat)
    requires |b| >= 3
    ensures SixBits(b, k + 4) == SixBits(b[3..], k)
  {
    hide Bit;
    var n := 6 * k;
    assert 6 * (k + 4) == n + 24;
    BitLater(b, n);
    BitLater(b, n + 1);
    BitLater(b, n + 2);
    BitLater(b, n + 3);
    BitLater(b, n + 4);
    BitLater(b, n + 5);
  }

  lemma {:induction false} Halve(x: int)
    requires 0 <= x < 256
    ensures x == 2 * (x / 2) + x % 2 && x / 2 == 2 * (x / 4) + x / 2 % 2
    ensures x / 4 == 2 * (x / 8) + x / 4 % 2 && x / 8 == 2 * (x / 16) + x / 8 % 2
  {}

  lemma {:induction false} HalveMore(x: int)
    requires 0 <= x < 256
    ensures x / 16 == 2 * (x / 32) + x / 16 % 2 && x / 32 == 2 * (x / 64) + x / 32 % 2
    ensures x / 64 == 2 * (x / 128) + x / 64 % 2 && x / 128 % 2 == x / 128
  {}

  lemma {:induction false} FirstBits(x: Byte, y: Byte)
    ensures D0(x) == 32 * Binary(x, 128) + 16 * Binary(x, 64) + 8 * Binary(x, 32) + 4 * Binary(x, 16)
                     + 2 * Binary(x, 8) + Binary(x, 4)
    ensures D1(x, y) == 32 * Binary(x, 2) + 16 * Binary(x, 1) + 8 * Binary(y, 128) + 4 * Binary(y, 64)
                        + 2 * Binary(y, 32) + Binary(y, 16)
  {
    Halve(x as int);
    HalveMore(x as int);
    HalveMore(y as int);
  }

  lemma {:induction false} LastBits(y: Byte, z: Byte)
    ensures D2(y, z) == 32 * Binary(y, 8) + 16 * Binary(y, 4) + 8 * Binary(y, 2) + 4 * Binary(y, 1)
                        + 2 * Binary(z, 128) + Binary(z, 64)
    ensures D3(z) == 32 * Binary(z, 32) + 16 * Binary(z, 16) + 8 * Binary(z, 8) + 4 * Binary(z, 4)
                     + 2 * Binary(z, 2) + Binary(z, 1)
  {
    Halve(y as int);
    Halve(z as int);
    HalveMore(z as int);
  }

  /** Past the end, the bits are those of a zero byte. */
  function ByteAt(b: Bytes, i: nat): Byte {
    if i < |b| then b[i] else 0
  }

  lemma {:induction false} BitOf(b: Bytes, i: nat, j: nat)
    requires j < 8
    ensures Bit(b, 8 * i + j) == Binary(ByteAt(b, i), [128, 64, 32, 16, 8, 4, 2, 1][j])
  {
    assert (8 * i + j) / 8 == i && (8 * i + j) % 8 == j;
    assert Binary(0, [128, 64, 32, 16, 8, 4, 2, 1][j]) == 0;
  }

  lemma {:induction false} BitsOf(b: Bytes, i: nat)
    ensures Bit(b, 8 * i) == Binary(ByteAt(b, i), 128) && Bit(b, 8 * i + 1) == Binary(ByteAt(b, i), 64)
    ensures Bit(b, 8 * i + 2) == Binary(ByteAt(b, i), 32) && Bit(b, 8 * i + 3) == Binary(ByteAt(b, i), 16)
    ensures Bit(b, 8 * i + 4) == Binary(ByteAt(b, i), 8) && Bit(b, 8 * i + 5) == Binary(ByteAt(b, i), 4)
    ensures Bit(b, 8 * i + 6) == Binary(ByteAt(b, i), 2) && Bit(b, 8 * i + 7) == Binary(ByteAt(b, i), 1)
  {
    hide Bit, Binary, ByteAt;
    BitOf(b, i, 0);
    BitOf(b, i, 1);
    BitOf(b, i, 2);
    BitOf(b, i, 3);
    BitOf(b, i, 4);
    BitOf(b, i, 5);
    BitOf(b, i, 6);
    BitOf(b, i, 7);
  }

  lemma {:induction false} GroupBits(b: Bytes)
    ensures SixBits(b, 0) == D0(ByteAt(b, 0)) && SixBits(b, 1) == D1(ByteAt(b, 0), ByteAt(b, 1))
    ensures SixBits(b, 2) == D2(ByteAt(b, 1), ByteAt(b, 2)) && SixBits(b, 3) == D3(ByteAt(b, 2))
  {
    hide D0, D1, D2, D3, Binary, Bit, ByteAt;
    BitsOf(b, 0);
    BitsOf(b, 1);
    BitsOf(b, 2);
    FirstBits(ByteAt(b, 0), ByteAt(b, 1));
    LastBits(ByteAt(b, 1), ByteAt(b, 2));
  }

  lemma {:induction false} EncodeLength(b: Bytes)
    ensures |Encode(b)| == (|b| + 2) / 3 * 4
  {
    hide D0, D1, D2, D3, Digit;
    if |b| >= 3 {
      EncodeLength(b[3..]);
    }
  }

  lemma {:induction false} EncodeFirst(b: Bytes, k: nat)
    requires b != [] && k < 4
    ensures |Encode(b)| >= 4
    ensures Encode(b)[k] == if 6 * k < 8 * |b| then ALPHABET[SixBits(b, k)] else '='
  {
    hide D0, D1, D2, D3, Digit, SixBits;
    GroupBits(b);
    DigitListed(D0(ByteAt(b, 0)));
    DigitListed(D1(ByteAt(b, 0), ByteAt(b, 1)));
    DigitListed(D2(ByteAt(b, 1), ByteAt(b, 2)));
    DigitListed(D3(ByteAt(b, 2)));
  }

  lemma {:induction false} EncodeLater(b: Bytes, k: nat)
    requires |b| >= 3 && k < |Encode(b[3..])|
    ensures k + 4 < |Encode(b)| && Encode(b)[k + 4] == Encode(b[3..])[k]
  {
    hide D0, D1, D2, D3, Digit;
  }

  /** Each six bits in turn as a character of the alphabet, padded to a multiple of four. */
  lemma {:induction false} EncodeBits(b: Bytes, k: nat)
    ensures |Encode(b)| == (|b| + 2) / 3 * 4
    ensures k < |Encode(b)| ==> Encode(b)[k] == if 6 * k < 8 * |b| then ALPHABET[SixBits(b, k)] else '='
    decreases |b|
  {
    hide SixBits, Encode;
    EncodeLength(b);
    if k < |Encode(b)| {
      if k < 4 {
        EncodeFirst(b, k);
      } else {
        EncodeLength(b[3..]);
        EncodeBits(b[3..], k - 4);
        BitsLater(b, k - 4);
        EncodeLater(b, k - 4);
      }
    }
  }

  predicate Listed(c: char) {
    c in ALPHABET
  }

  /** n characters of the alphabet, and after them up to two of padding. */
  predicate Padded(s: string, n: nat) {
    && n <= |s| <= n + 2 && |s| % 4 == 0 && (forall i :: 0 <= i < n ==> Listed(s[i]))
    && forall i :: n <= i < |s| ==> s[i] == '='
  }

  lemma {:induction false} ValueListed(c: char)
    ensures Value(c).Some? <==> Listed(c)
    ensures Value(c).Some? ==> c != '='
  {
    if Value(c).Some? {
      DigitListed(Value(c).value);
    }
    if i :| 0 <= i < |ALPHABET| && ALPHABET[i] == c {
      DigitListed(i);
    }
  }

  lemma {:induction false} PaddedGroup(s: string, n: nat)
    requires |s| >= 4
    ensures Listed(s[0]) && Listed(s[1]) && Listed(s[2]) && Listed(s[3]) && Padded(s[4..], n) ==> Padded(s, n + 4)
    ensures n >= 4 && Padded(s, n) ==>
              Listed(s[0]) && Listed(s[1]) && Listed(s[2]) && Listed(s[3]) && Padded(s[4..], n - 4)
  {
    hide Listed;
    forall i | 4 <= i < |s|
      ensures s[i] == s[4..][i - 4]
    {}
  }

  /** Which text is accepted: characters of the alphabet, padded to a multiple of four. */
  lemma {:induction false} DecodesExactly(s: string)
    ensures Decode(s).Some? <==> exists n: nat :: Padded(s, n)
    decreases |s|
  {
    hide B0, B1, B2, Value, Listed;
    if s == "" {
      assert Padded(s, 0);
    } else if |s| >= 4 {
      DecodesExactly(s[4..]);
      var end := s[4..];
      ValueListed(s[0]);
      ValueListed(s[1]);
      ValueListed(s[2]);
      ValueListed(s[3]);
      if n: nat :| Padded(end, n) {
        PaddedGroup(s, n);
      }
      if n: nat :| Padded(s, n) {
        PaddedGroup(s, n);
        LastGroup(s, n);
      }
      LastGroup(s, 2);
      LastGroup(s, 3);
    }
  }

  lemma {:induction false} LastGroup(s: string, n: nat)
    requires |s| >= 4
    ensures n < 4 && Padded(s, n) ==> |s| == 4
    ensures n == 2 && |s| == 4 ==> (Padded(s, n) <==> Listed(s[0]) && Listed(s[1]) && s[2..] == "==")
    ensures n == 3 && |s| == 4 ==> (Padded(s, n) <==> Listed(s[0]) && Listed(s[1]) && Listed(s[2]) && s[3..] == "=")
  {
    hide Listed;
  }
}
