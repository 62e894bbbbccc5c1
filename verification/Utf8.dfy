/** UTF-8 as RFC 3629 defines it, code point by code point, and what the two decoders mean in its terms. */
module Utf8 {
  import opened Text8

  /** Unicode scalar values. */
  type Scalar = r: int | 0 <= r < 0xD800 || 0xE000 <= r < 0x110000

  /** The table of section 3 of RFC 3629. */
  function Character(r: Scalar): Bytes {
    if r < 0x80 then [r]
    else if r < 0x800 then [0xC0 + r / 64, 0x80 + r % 64]
    else if r < 0x10000 then [0xE0 + r / 4096, 0x80 + r / 64 % 64, 0x80 + r % 64]
    else [0xF0 + r / 262144, 0x80 + r / 4096 % 64, 0x80 + r / 64 % 64, 0x80 + r % 64]
  }

  function Text(rs: seq<Scalar>): Bytes {
    if rs == [] then [] else Character(rs[0]) + Text(rs[1..])
  }

  /** Read back: the payload bits, six from each byte after the first. */
  function CodePoint(b: Bytes): int
    requires b != []
  {
    if |b| == 1 then b[0]
    else if |b| == 2 then (b[0] as int - 192) * 64 + (b[1] as int - 128)
    else if |b| == 3 then ((b[0] as int - 224) * 64 + (b[1] as int - 128)) * 64 + (b[2] as int - 128)
    else if |b| == 4 then
      (((b[0] as int - 240) * 64 + (b[1] as int - 128)) * 64 + (b[2] as int - 128)) * 64 + (b[3] as int - 128)
    else 0
  }

  lemma Sixes(r: nat)
    ensures r / 4096 == r / 64 / 64 && r / 262144 == r / 64 / 64 / 64
  {}

  /** Every scalar value has a character, and the character tells it. */
  lemma CharacterTells(r: Scalar)
    ensures CodePoint(Character(r)) == r
  {
    Sixes(r);
  }

  lemma CharacterIsRead(r: Scalar, rest: Bytes)
    ensures CharLength(Character(r) + rest) == |Character(r)| && (Character(r) + rest)[|Character(r)|..] == rest
  {
    Sixes(r);
  }

  lemma Six(q: nat, m: nat)
    requires m < 64
    ensures (q * 64 + m) / 64 == q && (q * 64 + m) % 64 == m
  {}

  lemma ThreeBytes(x: nat, y: nat, z: nat) returns (r: nat)
    requires x < 16 && y < 64 && z < 64
    ensures r == (x * 64 + y) * 64 + z && r / 4096 == x && r / 64 % 64 == y && r % 64 == z
  {
    r := (x * 64 + y) * 64 + z;
    Six(x * 64 + y, z);
    Six(x, y);
    Sixes(r);
  }

  lemma FourBytes(w: nat, x: nat, y: nat, z: nat) returns (r: nat)
    requires w < 8 && x < 64 && y < 64 && z < 64
    ensures r == ((w * 64 + x) * 64 + y) * 64 + z
    ensures r / 262144 == w && r / 4096 % 64 == x && r / 64 % 64 == y && r % 64 == z
  {
    r := ((w * 64 + x) * 64 + y) * 64 + z;
    Six((w * 64 + x) * 64 + y, z);
    Six(w * 64 + x, y);
    Six(w, x);
    Sixes(r);
  }

  lemma OfLength2(b: Bytes) returns (r: Scalar)
    requires CharLength(b) == 2
    ensures b[..2] == Character(r)
  {
    Six(b[0] as int - 192, b[1] as int - 128);
    r := (b[0] as int - 192) * 64 + (b[1] as int - 128);
  }

  lemma OfLength3(b: Bytes) returns (r: Scalar)
    requires CharLength(b) == 3
    ensures b[..3] == Character(r)
  {
    var n := ThreeBytes(b[0] as int - 224, b[1] as int - 128, b[2] as int - 128);
    assert b[0] == 224 ==> n >= 0x800;
    assert b[0] == 237 ==> n < 0xD800;
    r := n;
  }

  lemma OfLength4(b: Bytes) returns (r: Scalar)
    requires CharLength(b) == 4
    ensures b[..4] == Character(r)
  {
    var n := FourBytes(b[0] as int - 240, b[1] as int - 128, b[2] as int - 128, b[3] as int - 128);
    assert b[0] == 240 ==> n >= 0x10000;
    assert b[0] == 244 ==> n < 0x110000;
    r := n;
  }

  lemma LengthIs(b: Bytes)
    ensures CharLength(b) <= |b| && CharLength(b) <= 4
    ensures CharLength(b) == 1 ==> b[0] < 0x80
  {}

  /** Where the grammar finds a character there is a scalar value, and these are its bytes. */
  lemma ReadIsCharacter(b: Bytes) returns (r: Scalar)
    requires 0 < CharLength(b)
    ensures CharLength(b) <= |b| && b[..CharLength(b)] == Character(r)
  {
    LengthIs(b);
    hide CharLength;
    if CharLength(b) == 1 { r := b[0]; }
    else if CharLength(b) == 2 { r := OfLength2(b); }
    else if CharLength(b) == 3 { r := OfLength3(b); }
    else { r := OfLength4(b); }
  }

  lemma {:induction false} TextIsValid(rs: seq<Scalar>)
    ensures Valid(Text(rs))
  {
    if rs != [] {
      CharacterIsRead(rs[0], Text(rs[1..]));
      TextIsValid(rs[1..]);
    }
  }

  lemma {:induction false} ValidIsText(b: Bytes) returns (rs: seq<Scalar>)
    requires Valid(b)
    ensures b == Text(rs)
    decreases |b|
  {
    hide CharLength, Character;
    if b == [] {
      rs := [];
    } else {
      var r := ReadIsCharacter(b);
      var n := CharLength(b);
      var rest := ValidIsText(b[n..]);
      rs := [r] + rest;
      assert rs[1..] == rest && b == b[..n] + b[n..];
    }
  }

  /** What utf8.Valid accepts: exactly the encodings of sequences of scalar values. */
  lemma ValidExactlyWhen(b: Bytes)
    ensures Valid(b) <==> exists rs :: b == Text(rs)
  {
    if Valid(b) {
      var rs := ValidIsText(b);
    }
    if rs :| b == Text(rs) {
      TextIsValid(rs);
    }
  }

  // ------------------------------------------------------------ Windows-1252

  /** What the bytes 80 to 9F stand for: quotation marks, */
  lemma QuotationMarks()
    ensures RuneOf(0x82) == 0x201A && RuneOf(0x84) == 0x201E    // low, single and double
    ensures RuneOf(0x91) == 0x2018 && RuneOf(0x92) == 0x2019    // single
    ensures RuneOf(0x93) == 0x201C && RuneOf(0x94) == 0x201D    // double
    ensures RuneOf(0x8B) == 0x2039 && RuneOf(0x9B) == 0x203A    // angle
  {}

  /** letters and accents, */
  lemma Letters()
    ensures RuneOf(0x8A) == 0x0160 && RuneOf(0x9A) == 0x0161    // s with caron
    ensures RuneOf(0x8C) == 0x0152 && RuneOf(0x9C) == 0x0153    // oe
    ensures RuneOf(0x8E) == 0x017D && RuneOf(0x9E) == 0x017E    // z with caron
    ensures RuneOf(0x9F) == 0x0178 && RuneOf(0x83) == 0x0192    // y with diaeresis, florin
    ensures RuneOf(0x88) == 0x02C6 && RuneOf(0x98) == 0x02DC    // circumflex, tilde
  {}

  /** other signs, */
  lemma Signs()
    ensures RuneOf(0x80) == 0x20AC                              // euro
    ensures RuneOf(0x85) == 0x2026 && RuneOf(0x89) == 0x2030    // ellipsis, per mille
    ensures RuneOf(0x86) == 0x2020 && RuneOf(0x87) == 0x2021    // daggers
    ensures RuneOf(0x95) == 0x2022 && RuneOf(0x99) == 0x2122    // bullet, trade mark
    ensures RuneOf(0x96) == 0x2013 && RuneOf(0x97) == 0x2014    // dashes
  {}

  /** and five that are kept as they are, like every byte below and above. */
  lemma Kept(c: Byte)
    requires c < 0x80 || c >= 0xA0 || c in {0x81, 0x8D, 0x8F, 0x90, 0x9D}
    ensures RuneOf(c) == c
  {}

  function Runes(b: Bytes): seq<Scalar> {
    seq(|b|, i requires 0 <= i < |b| => RuneOf(b[i]))
  }

  /** The decoding is the text of the code points that the bytes stand for, one by one. */
  lemma {:induction false} DecodedIsText(b: Bytes)
    ensures Decoded(b) == Text(Runes(b))
  {
    if b != [] {
      DecodedIsText(b[1..]);
      assert Runes(b)[1..] == Runes(b[1..]);
      assert Encoded(RuneOf(b[0])) == Character(RuneOf(b[0]));
    }
  }
}
