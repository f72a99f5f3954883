/** Byte strings and base64 as in section 4 of RFC 4648, which the token pipeline of ContinueWatching applies twice. */
module Base64 {
  type Byte = b: int | 0 <= b < 256
  type Bytes = seq<Byte>
  type Sextet = v: int | 0 <= v < 64

  const PAD: Byte := 61

  /** The alphabet: A-Z, a-z, 0-9, + and /. */
  function Char(v: Sextet): Byte {
    if v < 26 then 65 + v
    else if v < 52 then 97 + (v - 26)
    else if v < 62 then 48 + (v - 52)
    else if v == 62 then 43
    else 47
  }

  /** The value of a character, or -1 for a character outside the alphabet. */
  function Value(c: Byte): (v: int)
    ensures -1 <= v < 64
  {
    if 65 <= c <= 90 then c - 65
    else if 97 <= c <= 122 then c - 97 + 26
    else if 48 <= c <= 57 then c - 48 + 52
    else if c == 43 then 62
    else if c == 47 then 63
    else -1
  }

  /** What a character of an encoding can be; never NUL. */
  predicate IsText(c: Byte) {
    c == PAD || Value(c) >= 0
  }

  function EncodedSize(n: nat): nat {
    (n + 2) / 3 * 4
  }

  function DecodedSize(n: nat): nat {
    (n + 3) / 4 * 3
  }

  function Quad(a: Byte, b: Byte, c: Byte): (q: Bytes)
    ensures |q| == 4
  {
    [Char(a / 4), Char(a % 4 * 16 + b / 16), Char(b % 16 * 4 + c / 64), Char(c % 64)]
  }

  function Encode(bytes: Bytes): (text: Bytes)
    ensures |text| == EncodedSize(|bytes|)
    ensures forall i :: 0 <= i < |text| ==> IsText(text[i])
  {
    if |bytes| == 0 then []
    else if |bytes| == 1 then Quad(bytes[0], 0, 0)[..2] + [PAD, PAD]
    else if |bytes| == 2 then Quad(bytes[0], bytes[1], 0)[..3] + [PAD]
    else Quad(bytes[0], bytes[1], bytes[2]) + Encode(bytes[3..])
  }

  predicate Sextets(text: Bytes, n: nat)
    requires n <= |text|
  {
    forall i :: 0 <= i < n ==> Value(text[i]) >= 0
  }

  function Triple(p: Sextet, q: Sextet, r: Sextet, s: Sextet): (t: Bytes)
    ensures |t| == 3
  {
    [p * 4 + q / 16, q % 16 * 16 + r / 4, r % 4 * 64 + s]
  }

  /** A final group, which may be padded. */
  function DecodeLast(text: Bytes): (bytes: Bytes)
    requires |text| <= 4
    ensures |bytes| <= DecodedSize(|text|)
  {
    if |text| < 4 then []
    else if Sextets(text, 4) then Triple(Value(text[0]), Value(text[1]), Value(text[2]), Value(text[3]))
    else if Sextets(text, 3) && text[3] == PAD then Triple(Value(text[0]), Value(text[1]), Value(text[2]), 0)[..2]
    else if Sextets(text, 2) && text[2] == PAD && text[3] == PAD then Triple(Value(text[0]), Value(text[1]), 0, 0)[..1]
    else []
  }

  /** The bytes a text encodes, nothing when it is not base64. */
  function Decode(text: Bytes): Bytes {
    if |text| <= 4 then DecodeLast(text)
    else
      var head, rest := DecodeLast(text[..4]), Decode(text[4..]);
      if |head| < 3 || rest == [] then [] else head + rest
  }

  lemma GroupSize(n: nat)
    requires n >= 4
    ensures DecodedSize(n) == 3 + DecodedSize(n - 4)
  {
  }

  lemma {:induction false} DecodedFits(text: Bytes)
    ensures |Decode(text)| <= DecodedSize(|text|)
  {
    if |text| > 4 {
      assert |DecodeLast(text[..4])| <= 3;
      DecodedFits(text[4..]);
      GroupSize(|text|);
      hide DecodedSize;
    }
  }

  lemma TripleOfQuad(a: Byte, b: Byte, c: Byte)
    ensures Triple(a / 4, a % 4 * 16 + b / 16, b % 16 * 4 + c / 64, c % 64) == [a, b, c]
  {
    assert (a % 4 * 16 + b / 16) / 16 == a % 4 && (a % 4 * 16 + b / 16) % 16 == b / 16;
    assert (b % 16 * 4 + c / 64) / 4 == b % 16 && (b % 16 * 4 + c / 64) % 4 == c / 64;
  }

  lemma QuadReads(a: Byte, b: Byte, c: Byte)
    ensures var q := Quad(a, b, c);
      Value(q[0]) == a / 4 && Value(q[1]) == a % 4 * 16 + b / 16 &&
      Value(q[2]) == b % 16 * 4 + c / 64 && Value(q[3]) == c % 64
  {
  }

  /** The first bytes of a group need only the first characters. */
  lemma TriplePrefix(a: Byte, b: Byte, c: Byte)
    ensures Triple(a / 4, a % 4 * 16 + b / 16, 0, 0)[..1] == [a]
    ensures Triple(a / 4, a % 4 * 16 + b / 16, b % 16 * 4 + c / 64, 0)[..2] == [a, b]
  {
    TripleOfQuad(a, b, c);
  }

  lemma LastOne(a: Byte)
    ensures DecodeLast(Encode([a])) == [a]
  {
  }

  lemma LastTwo(a: Byte, b: Byte)
    ensures DecodeLast(Encode([a, b])) == [a, b]
  {
    QuadReads(a, b, 0);
    TriplePrefix(a, b, 0);
    var q, text := Quad(a, b, 0), Encode([a, b]);
    assert text == [q[0], q[1], q[2], PAD] && Value(PAD) == -1;
    hide Value, Quad, Encode, Triple;
  }

  lemma LastThree(a: Byte, b: Byte, c: Byte)
    ensures DecodeLast(Encode([a, b, c])) == [a, b, c]
  {
    QuadReads(a, b, c);
    TripleOfQuad(a, b, c);
    var q, text := Quad(a, b, c), Encode([a, b, c]);
    assert text == q;
    hide Value, Quad, Encode, Triple;
  }

  /** A last group of one, two or three bytes. */
  lemma LastGroup(bytes: Bytes)
    requires 1 <= |bytes| <= 3
    ensures DecodeLast(Encode(bytes)) == bytes
  {
    hide DecodeLast, Encode;
    if |bytes| == 1 {
      assert bytes == [bytes[0]];
      LastOne(bytes[0]);
    } else if |bytes| == 2 {
      assert bytes == [bytes[0], bytes[1]];
      LastTwo(bytes[0], bytes[1]);
    } else {
      assert bytes == [bytes[0], bytes[1], bytes[2]];
      LastThree(bytes[0], bytes[1], bytes[2]);
    }
  }

  lemma EncodeAppends(first: Bytes, rest: Bytes)
    requires |first| == 3
    ensures Encode(first + rest) == Encode(first) + Encode(rest)
  {
  }

  /** Decoding gives back every byte string. */
  lemma {:induction false} RoundTrip(bytes: Bytes)
    ensures Decode(Encode(bytes)) == bytes
  {
    if 1 <= |bytes| <= 3 {
      LastGroup(bytes);
    } else if |bytes| > 3 {
      var first, rest := bytes[..3], bytes[3..];
      LastGroup(first);
      RoundTrip(rest);
      EncodeAppends(first, rest);
      assert first + rest == bytes;
      assert Encode(bytes)[..4] == Encode(first) && Encode(bytes)[4..] == Encode(rest);
    }
  }

  /** Vectors of RFC 4648: section 10, and one that tells the standard alphabet of section 4 from that of section 5. */
  lemma TestVectors()
    ensures Encode([102]) == [90, 103, PAD, PAD]
    ensures Encode([102, 111]) == [90, 109, 56, PAD]
    ensures Encode([102, 111, 111]) == [90, 109, 57, 118]
    ensures Encode([251, 255]) == [43, 47, 56, PAD]
  {
    assert Quad(102, 0, 0)[..2] == [90, 103] && Quad(102, 111, 0)[..3] == [90, 109, 56];
    assert Quad(102, 111, 111) == [90, 109, 57, 118] && Quad(251, 255, 0)[..3] == [43, 47, 56];
    hide Quad;
    assert Encode([102]) == Quad(102, 0, 0)[..2] + [PAD, PAD];
    assert Encode([102, 111]) == Quad(102, 111, 0)[..3] + [PAD];
    assert Encode([102, 111, 111]) == Quad(102, 111, 111) + Encode([]);
    assert Encode([251, 255]) == Quad(251, 255, 0)[..3] + [PAD];
  }

  /** What a C reader sees of a string: all before the first NUL. */
  function CStr(s: Bytes): Bytes {
    if s == [] || s[0] == 0 then [] else [s[0]] + CStr(s[1..])
  }

  /** Base64 text reaches a C reader whole. */
  lemma {:induction false} TextIsWhole(text: Bytes)
    requires forall i :: 0 <= i < |text| ==> IsText(text[i])
    ensures CStr(text) == text
  {
    if text != [] {
      TextIsWhole(text[1..]);
    }
  }
}
