/** RSA signatures, PKCS#1 v1.5 over SHA-1, checked by hand because the library refuses Spotnet's
    384-bit keys (internal/spotnet/signing.go). Big integers are integers; the digest is given. */
module Signing {

  type Byte = b: int | 0 <= b < 256
  type Bytes = seq<Byte>

  /** rsa.PublicKey. */
  datatype Key = Key(n: nat, e: int)

  function Pow(b: nat, e: nat): nat {
    if e == 0 then 1 else b * Pow(b, e - 1)
  }

  /** big.Int.SetBytes: big-endian. */
  function Number(bs: Bytes): nat {
    if bs == [] then 0 else 256 * Number(bs[..|bs| - 1]) + bs[|bs| - 1]
  }

  /** big.Int.FillBytes into k bytes; x must fit. */
  function Filled(x: nat, k: nat): (bs: Bytes)
    ensures |bs| == k
  {
    if k == 0 then [] else Filled(x / 256, k - 1) + [x % 256]
  }

  function BitLen(n: nat): nat {
    if n == 0 then 0 else 1 + BitLen(n / 2)
  }

  function ByteLen(n: nat): nat {
    (BitLen(n) + 7) / 8
  }

  /** The DER prefix of a SHA-1 digest. */
  const DIGEST_INFO: Bytes := [0x30, 0x21, 0x30, 0x09, 0x06, 0x05, 0x2b, 0x0e, 0x03, 0x02, 0x1a, 0x05, 0x00, 0x04, 0x14]

  function Fill(n: nat): (bs: Bytes)
    ensures |bs| == n && forall b <- bs :: b == 0xff
  {
    if n == 0 then [] else Fill(n - 1) + [0xff]
  }

  /** EMSA-PKCS1-v1_5 (section 9.2 of RFC 8017): 00 01 PS 00 T. */
  function Encoding(digest: Bytes, k: nat): (em: Bytes)
    requires k >= |DIGEST_INFO| + |digest| + 11
    ensures |em| == k
  {
    [0x00, 0x01] + Fill(k - |DIGEST_INFO| - |digest| - 3) + [0x00] + DIGEST_INFO + digest
  }

  /** RSASSA-PKCS1-v1_5 verification (section 8.2.2 of RFC 8017), and an exponent of at least 2. */
  predicate Accepts(key: Key, digest: Bytes, sig: Bytes) {
    var k := ByteLen(key.n);
    && |sig| == k
    && k >= |DIGEST_INFO| + |digest| + 11     // at least eight bytes of padding
    && key.e >= 2
    && Number(sig) < key.n
    && Pow(Number(sig), key.e) % key.n == Number(Encoding(digest, k))
  }

  // ------------------------------------------------------------------------ DER

  /** One value in the distinguished encoding rules: tag, length (short form) and contents. */
  function Der(tag: Byte, contents: Bytes): Bytes
    requires |contents| < 128
  {
    [tag, |contents|] + contents
  }

  /** Base 128, most significant group first, bit 8 set in all groups but the last. */
  function Groups(n: nat, last: bool): (r: Bytes)
    ensures |r| <= 1 + n
  {
    (if n < 128 then [] else Groups(n / 128, false)) + [n % 128 + if last then 0 else 128]
  }

  function Arcs(arcs: seq<nat>): Bytes {
    if arcs == [] then [] else Groups(arcs[0], true) + Arcs(arcs[1..])
  }

  /** The contents of an object identifier: its first two arcs share one number. */
  function OidContents(arcs: seq<nat>): Bytes
    requires |arcs| >= 2
  {
    Groups(40 * arcs[0] + arcs[1], true) + Arcs(arcs[2..])
  }

  /** SHA-1 is {iso identified-organization oiw secsig algorithms 26}. */
  const SHA1: seq<nat> := [1, 3, 14, 3, 2, 26]

  lemma Sha1Contents()
    ensures OidContents(SHA1) == [43, 14, 3, 2, 26]
  {
    assert SHA1[2..] == [14, 3, 2, 26];
    assert [14, 3, 2, 26][1..] == [3, 2, 26] && [3, 2, 26][1..] == [2, 26];
    var two: seq<nat>, one: seq<nat> := [2, 26], [26];
    assert two[1..] == one && one[1..] == [];
    assert Groups(43, true) == [43] && Groups(14, true) == [14] && Groups(3, true) == [3];
    assert Groups(2, true) == [2] && Groups(26, true) == [26];
    assert Arcs(one) == [26];
    assert Arcs(two) == [2] + Arcs(one);
    assert Arcs([3, 2, 26]) == [3] + Arcs(two);
    assert Arcs([14, 3, 2, 26]) == [14] + Arcs([3, 2, 26]);
  }

  /** DigestInfo of RFC 8017, section 9.2: SEQUENCE { SEQUENCE { OBJECT IDENTIFIER sha1, NULL }, OCTET STRING }. */
  function DigestInfo(digest: Bytes): Bytes
    requires |digest| == 20
  {
    Sha1Contents();
    Der(0x30, Der(0x30, Der(0x06, OidContents(SHA1)) + Der(0x05, [])) + Der(0x04, digest))
  }

  lemma PrefixIsDer(digest: Bytes)
    requires |digest| == 20
    ensures DIGEST_INFO + digest == DigestInfo(digest)
  {
    Sha1Contents();
    assert Der(0x06, [43, 14, 3, 2, 26]) == [0x06, 5, 43, 14, 3, 2, 26];
    assert Der(0x05, []) == [0x05, 0];
    assert Der(0x30, [0x06, 5, 43, 14, 3, 2, 26] + [0x05, 0]) == [0x30, 9, 0x06, 5, 43, 14, 3, 2, 26, 0x05, 0];
  }

  // -------------------------------------------------------------- arithmetic

  lemma {:induction false} PowPositive(b: nat, e: nat)
    requires b > 0
    ensures Pow(b, e) > 0
  {
    if e > 0 { PowPositive(b, e - 1); }
  }

  /** Powers, by what makes them powers. */
  lemma {:induction false} PowAdds(b: nat, d: nat, e: nat)
    ensures Pow(b, 0) == 1 && Pow(b, 1) == b && Pow(b, d + e) == Pow(b, d) * Pow(b, e)
  {
    if d > 0 {
      PowAdds(b, d - 1, e);
      assert Pow(b, d + e) == b * Pow(b, d - 1 + e);
      assert b * (Pow(b, d - 1) * Pow(b, e)) == b * Pow(b, d - 1) * Pow(b, e);
    }
  }

  /** The first byte is the most significant. */
  lemma {:induction false} BigEndian(b: Byte, rest: Bytes)
    ensures Number([b] + rest) == b * Pow(256, |rest|) + Number(rest)
  {
    if rest == [] {
      assert [b] + rest == [b] && [b][..0] == [];
    } else {
      var init := rest[..|rest| - 1];
      BigEndian(b, init);
      assert ([b] + rest)[..|rest|] == [b] + init;
      assert 256 * (b * Pow(256, |init|)) == b * Pow(256, |rest|);
    }
  }

  lemma {:induction false} PowGrows(b: nat, d: nat, e: nat)
    requires b > 0 && d <= e
    ensures Pow(b, d) <= Pow(b, e)
  {
    if d < e {
      PowGrows(b, d, e - 1);
      PowPositive(b, e - 1);
    }
  }

  lemma {:induction false} PowOf256(k: nat)
    ensures Pow(256, k) == Pow(2, 8 * k)
  {
    if k > 0 {
      PowOf256(k - 1);
      var m := 8 * k;
      assert Pow(2, m) == 2 * Pow(2, m - 1) == 4 * Pow(2, m - 2) == 8 * Pow(2, m - 3) == 16 * Pow(2, m - 4);
      assert Pow(2, m - 4) == 2 * Pow(2, m - 5) == 4 * Pow(2, m - 6) == 8 * Pow(2, m - 7) == 16 * Pow(2, m - 8);
    }
  }

  lemma {:induction false} BitLenBounds(n: nat)
    ensures n < Pow(2, BitLen(n))
    ensures n > 0 ==> BitLen(n) > 0 && Pow(2, BitLen(n) - 1) <= n
  {
    if n > 0 {
      BitLenBounds(n / 2);
    }
  }

  lemma ByteLenBounds(n: nat)
    requires n > 0
    ensures ByteLen(n) > 0 && Pow(256, ByteLen(n) - 1) <= n < Pow(256, ByteLen(n))
  {
    var k := ByteLen(n);
    BitLenBounds(n);
    PowOf256(k);
    PowOf256(k - 1);
    PowGrows(2, BitLen(n), 8 * k);
    PowGrows(2, 8 * (k - 1), BitLen(n) - 1);
    hide Pow;
  }

  lemma {:induction false} NumberBound(bs: Bytes)
    ensures Number(bs) < Pow(256, |bs|)
  {
    if bs != [] { NumberBound(bs[..|bs| - 1]); }
  }

  lemma {:induction false} FilledNumber(bs: Bytes)
    ensures Filled(Number(bs), |bs|) == bs
  {
    if bs != [] { FilledNumber(bs[..|bs| - 1]); }
  }

  lemma {:induction false} NumberFilled(x: nat, k: nat)
    requires x < Pow(256, k)
    ensures Number(Filled(x, k)) == x
  {
    if k > 0 {
      NumberFilled(x / 256, k - 1);
      assert Filled(x, k)[..k - 1] == Filled(x / 256, k - 1);
    }
  }

  lemma SameNumber(a: Bytes, b: Bytes)
    requires |a| == |b| && Number(a) == Number(b)
    ensures a == b
  {
    FilledNumber(a);
    FilledNumber(b);
  }

  /** A value is its leading bytes times a power, plus less than that power. */
  lemma {:induction false} NumberSplit(a: Bytes, b: Bytes)
    ensures Number(a + b) == Number(a) * Pow(256, |b|) + Number(b)
  {
    if b == [] {
      assert a + b == a;
    } else {
      var init := b[..|b| - 1];
      NumberSplit(a, init);
      assert (a + b)[..|a + b| - 1] == a + init;
      var p := Pow(256, |init|);
      assert 256 * (Number(a) * p) == Number(a) * (256 * p);
    }
  }

  // ------------------------------------------------------------ main results

  lemma EncodingParts(digest: Bytes, k: nat)
    requires k >= |DIGEST_INFO| + |digest| + 11
    ensures var em, i := Encoding(digest, k), k - |DIGEST_INFO| - |digest| - 1;
      && em[..2] == [0x00, 0x01]
      && (forall x | 2 <= x < i :: em[x] == 0xff)
      && em[i] == 0x00
      && em[k - |digest|..] == digest
  {
    var n := k - |DIGEST_INFO| - |digest| - 3;
    var head, ps := [0x00, 0x01], Fill(n);
    assert forall x | 0 <= x < n :: ps[x] in ps;
    assert Encoding(digest, k) == (head + ps + [0x00] + DIGEST_INFO) + digest;
    assert forall x | 2 <= x < n + 2 :: Encoding(digest, k)[x] == ps[x - 2];
  }

  lemma NumberOfOne(rest: Bytes)
    ensures Number([0x00, 0x01] + rest) < 2 * Pow(256, |rest|)
  {
    var head: Bytes := [0x00, 0x01];
    assert head[..1] == [0x00] && [0x00 as Byte][..0] == [];
    assert Number([0x00]) == 0 && Number(head) == 1;
    NumberSplit(head, rest);
    NumberBound(rest);
  }

  /** The encoding is below the modulus, whatever the digest. */
  lemma EncodingBelowModulus(n: nat, digest: Bytes)
    requires ByteLen(n) >= |DIGEST_INFO| + |digest| + 11
    ensures Number(Encoding(digest, ByteLen(n))) < n
  {
    var k := ByteLen(n);
    var em := Encoding(digest, k);
    ByteLenBounds(n);
    EncodingParts(digest, k);
    NumberOfOne(em[2..]);
    assert em == em[..2] + em[2..];
    hide Encoding, ByteLen, Number;
    assert Pow(256, k - 1) == 256 * Pow(256, k - 2);
  }

  /** The padding ends where the first zero byte is, so the encoding tells the digest, of any length. */
  lemma EncodingTellsDigest(a: Bytes, b: Bytes, k: nat)
    requires k >= |DIGEST_INFO| + |a| + 11 && k >= |DIGEST_INFO| + |b| + 11
    requires Encoding(a, k) == Encoding(b, k)
    ensures a == b
  {
    EncodingParts(a, k);
    EncodingParts(b, k);
  }

  /** One signature fits at most one digest. */
  lemma OneDigestPerSignature(key: Key, a: Bytes, b: Bytes, sig: Bytes)
    requires Accepts(key, a, sig) && Accepts(key, b, sig)
    ensures a == b
  {
    SameNumber(Encoding(a, |sig|), Encoding(b, |sig|));
    EncodingTellsDigest(a, b, |sig|);
  }

  /** A key pair: raising to d and then to e gives back every number below the modulus. */
  ghost predicate Inverse(key: Key, d: nat) {
    key.e >= 2 && forall m: nat | m < key.n :: Pow(Pow(m, d) % key.n, key.e) % key.n == m
  }

  /** RSASSA-PKCS1-v1_5 signing (section 8.2.1 of RFC 8017). */
  function Sign(key: Key, d: nat, digest: Bytes): Bytes
    requires key.n > 0 && ByteLen(key.n) >= |DIGEST_INFO| + |digest| + 11
  {
    Filled(Pow(Number(Encoding(digest, ByteLen(key.n))), d) % key.n, ByteLen(key.n))
  }

  /** With any key pair, what is signed is accepted, and for no other digest. */
  lemma SignedIsAccepted(key: Key, d: nat, digest: Bytes, other: Bytes)
    requires key.n > 0 && Inverse(key, d) && ByteLen(key.n) >= |DIGEST_INFO| + |digest| + 11
    ensures Accepts(key, other, Sign(key, d, digest)) <==> other == digest
  {
    var k := ByteLen(key.n);
    var m := Number(Encoding(digest, k));
    var s := Pow(m, d) % key.n;
    EncodingBelowModulus(key.n, digest);
    ByteLenBounds(key.n);
    NumberFilled(s, k);
    assert Pow(s, key.e) % key.n == m;
    if Accepts(key, other, Sign(key, d, digest)) {
      OneDigestPerSignature(key, other, digest, Sign(key, d, digest));
    }
  }

  // ------------------------------------------------------------------ the code

  const MAX_EXPONENT := 0x7fff_ffff

  datatype KeyResult = Parsed(key: Key) | BadKey

  /** rsaPub, after base64: an empty part or an exponent over 31 bits is refused. */
  function RsaPub(modulus: Bytes, exponent: Bytes): (r: KeyResult)
    ensures r.Parsed? <==> modulus != [] && exponent != [] && Number(exponent) <= 2147483647
    ensures r.Parsed? ==> Filled(r.key.n, |modulus|) == modulus && r.key.e == Number(exponent)
  {
    FilledNumber(modulus);
    if modulus == [] || exponent == [] then BadKey
    else if Number(exponent) > MAX_EXPONENT then BadKey
    else Parsed(Key(Number(modulus), Number(exponent)))
  }

  /** copy(want[at:], src). */
  method Copy(want: array<Byte>, at: nat, src: Bytes)
    requires at + |src| <= want.Length
    modifies want
    ensures want[..] == old(want[..at]) + src + old(want[at + |src|..])
  {
    for i := 0 to |src|
      invariant want[..at] == old(want[..at]) && want[at..at + i] == src[..i]
      invariant want[at + i..] == old(want[at + i..])
    {
      want[at + i] := src[i];
    }
  }

  /** Comparing the bytes is comparing the numbers. */
  lemma EqualNumbers(n: nat, x: nat, want: Bytes)
    requires x < n && |want| == ByteLen(n)
    ensures Filled(x, ByteLen(n)) == want <==> x == Number(want)
  {
    ByteLenBounds(n);
    NumberFilled(x, ByteLen(n));
    FilledNumber(want);
  }

  lemma ByteLenIs(n: nat, k: nat)
    requires n > 0 && k > 0 && Pow(256, k - 1) <= n < Pow(256, k)
    ensures ByteLen(n) == k
  {
    var m := ByteLen(n);
    ByteLenBounds(n);
    if m < k { PowGrows(256, m, k - 1); }
    if m > k { PowGrows(256, k, m - 1); }
  }

  lemma LengthIs(n: nat, k: nat)
    requires n > 0
    ensures k > 0 ==> (ByteLen(n) == k <==> Pow(256, k - 1) <= n < Pow(256, k))
  {
    ByteLenBounds(n);
    if k > 0 && Pow(256, k - 1) <= n < Pow(256, k) { ByteLenIs(n, k); }
  }

  function Raised(key: Key, sig: Bytes): nat
    requires key.n > 0 && key.e >= 0
  {
    Pow(Number(sig), key.e) % key.n
  }

  lemma AcceptsIs(key: Key, digest: Bytes, sig: Bytes)
    requires |digest| == 20 && key.n > 0
    ensures Accepts(key, digest, sig) <==>
      && |sig| == ByteLen(key.n) && |sig| >= 46 && key.e >= 2 && Number(sig) < key.n
      && Filled(Raised(key, sig), |sig|) == [0x00, 0x01] + Fill(|sig| - 38) + [0x00] + DigestInfo(digest)
  {
    if |sig| == ByteLen(key.n) && |sig| >= 46 && key.e >= 2 {
      EncodingIs(digest, |sig|);
      EqualNumbers(key.n, Raised(key, sig), Encoding(digest, |sig|));
    }
    hide Pow, Number, Filled, Fill, DigestInfo, Encoding, ByteLen;
  }

  lemma EncodingIs(digest: Bytes, k: nat)
    requires |digest| == 20 && k >= 46
    ensures Encoding(digest, k) == [0x00, 0x01] + Fill(k - 38) + [0x00] + DigestInfo(digest)
  {
    PrefixIsDer(digest);
    hide Fill, DigestInfo;
    assert Encoding(digest, k) == [0x00, 0x01] + Fill(k - 38) + [0x00] + (DIGEST_INFO + digest);
  }

  /** What is accepted for a SHA-1 digest, byte by byte: the signature is as long as the modulus, and raised to
      the exponent it is 00 01, at least eight bytes ff, 00 and the DigestInfo. */
  lemma AcceptedExactlyWhen(key: Key, digest: Bytes, sig: Bytes)
    requires |digest| == 20 && key.n > 0
    ensures Accepts(key, digest, sig) <==>
      var k := |sig|;
      && k >= 46 && Pow(256, k - 1) <= key.n < Pow(256, k) && key.e >= 2 && Number(sig) < key.n
      && Filled(Raised(key, sig), k) == [0x00, 0x01] + Fill(k - 38) + [0x00] + DigestInfo(digest)
  {
    hide Pow, Number, Filled, Fill, DigestInfo, ByteLen, Accepts, Raised;
    LengthIs(key.n, |sig|);
    AcceptsIs(key, digest, sig);
  }

  method VerifyPkcs1v15Sha1(pub: Key, digest: Bytes, sig: Bytes) returns (ok: bool)
    ensures ok == Accepts(pub, digest, sig)
  {
    var k := ByteLen(pub.n);
    var tLen := |DIGEST_INFO| + |digest|;
    if |sig| != k || k < tLen + 11 || pub.e < 2 {
      return false;
    }
    var s := Number(sig);
    if s >= pub.n {
      return false;
    }
    var x := Pow(s, pub.e) % pub.n;
    var em := Filled(x, k);
    var want := new Byte[k](_ => 0);
    want[1] := 0x01;
    for i := 2 to k - tLen - 1
      invariant want[..i] == [0x00, 0x01] + Fill(i - 2)
      invariant forall j | i <= j < k :: want[j] == 0
    {
      want[i] := 0xff;
    }
    assert want[..k - tLen] == [0x00, 0x01] + Fill(k - tLen - 3) + [0x00];
    Copy(want, k - tLen, DIGEST_INFO);
    Copy(want, k - |digest|, digest);
    assert want[..] == Encoding(digest, k);
    EqualNumbers(pub.n, x, want[..]);
    return em == want[..];
  }
}
