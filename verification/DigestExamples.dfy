/** The constants and the padding of the digests and of HMAC, fixed by where they come from: the
    square roots of the first primes, the bytes RFC 1321 counts up and down, worked examples. */
module DigestExamples {
  import opened Octets
  import opened BlockHash
  import opened DigestCtx
  import opened Hmac
  import Sha256
  import Md5
  import Wp512

  /** `w` is the first 32 bits of the fractional part of the square root of `p`. */
  ghost predicate RootFraction(p: nat, w: nat) {
    w < TWO32 && exists i: nat :: Near(p, i * TWO32 + w)
  }

  /** `s` is the root of `p` in units of 2^-32, rounded down. */
  predicate Near(p: nat, s: nat) { s * s <= p * TWO64 < (s + 1) * (s + 1) }

  lemma Fraction(p: nat, i: nat, w: nat)
    requires w < TWO32 && Near(p, i * TWO32 + w)
    ensures RootFraction(p, w)
  {
  }

  /** Section 5.3.2 of FIPS 180-2: the initial words of SHA-256 belong to the first eight primes. */
  lemma InitialWords()
    ensures RootFraction(2, Sha256.INIT[0]) && RootFraction(3, Sha256.INIT[1])
    ensures RootFraction(5, Sha256.INIT[2]) && RootFraction(7, Sha256.INIT[3])
    ensures RootFraction(11, Sha256.INIT[4]) && RootFraction(13, Sha256.INIT[5])
    ensures RootFraction(17, Sha256.INIT[6]) && RootFraction(19, Sha256.INIT[7])
  {
    Fraction(2, 1, Sha256.INIT[0]);
    Fraction(3, 1, Sha256.INIT[1]);
    Fraction(5, 2, Sha256.INIT[2]);
    Fraction(7, 2, Sha256.INIT[3]);
    Fraction(11, 3, Sha256.INIT[4]);
    Fraction(13, 3, Sha256.INIT[5]);
    Fraction(17, 4, Sha256.INIT[6]);
    Fraction(19, 4, Sha256.INIT[7]);
  }

  lemma ByteIs(n: nat, b: byte)
    requires n % 256 == b as int
    ensures ByteOf(n) == b
  {
    NumberBack(b);
  }

  lemma LastDigit(n: nat, a: nat, r: nat)
    requires a < 256 && n == a + 256 * r
    ensures n % 256 == a && n / 256 == r
  {
  }

  /** The four bytes of a word, least significant first. */
  lemma WordIs(n: nat, a: byte, b: byte, c: byte, d: byte)
    requires n == a as int + 256 * (b as int + 256 * (c as int + 256 * (d as int)))
    ensures LittleEndian(n, 4) == [a, b, c, d]
  {
    var x, y, z, w := ToNat(a), ToNat(b), ToNat(c), ToNat(d);
    var n1, n2 := y + 256 * (z + 256 * w), z + 256 * w;
    LastDigit(n, x, n1);
    LastDigit(n1, y, n2);
    LastDigit(n2, z, w);
    LastDigit(w, w, 0);
    FourBytes(n);
    ByteIs(n, a);
    ByteIs(n1, b);
    ByteIs(n2, c);
    ByteIs(w, d);
  }

  function ToNat(b: byte): (n: nat)
    ensures n == b as int < 256
  {
    NumberBack(b);
    b as int
  }

  lemma {:induction false} NoBytes(w: nat)
    ensures BigEndian(0, w) == Zeros(w) && LittleEndian(0, w) == Zeros(w)
  {
    ByteIs(0, 0);
    if w > 0 {
      NoBytes(w - 1);
    }
  }

  /** A length of one byte. */
  lemma ShortLength(n: nat, b: byte, w: nat)
    requires n == b as int && w > 0
    ensures BigEndian(n, w) == Zeros(w - 1) + [b] && LittleEndian(n, w) == [b] + Zeros(w - 1)
  {
    NumberBack(b);
    ByteIs(n, b);
    NoBytes(w - 1);
    assert n / 256 == 0;
  }

  /** Section 3.3 of RFC 1321: the initial words of MD5, low-order byte first, count up and then down. */
  lemma InitialBytes()
    ensures LittleEndian(Md5.INIT[0], 4) == [0x01, 0x23, 0x45, 0x67]
    ensures LittleEndian(Md5.INIT[1], 4) == [0x89, 0xab, 0xcd, 0xef]
    ensures LittleEndian(Md5.INIT[2], 4) == [0xfe, 0xdc, 0xba, 0x98]
    ensures LittleEndian(Md5.INIT[3], 4) == [0x76, 0x54, 0x32, 0x10]
  {
    WordIs(Md5.INIT[0], 0x01, 0x23, 0x45, 0x67);
    WordIs(Md5.INIT[1], 0x89, 0xab, 0xcd, 0xef);
    WordIs(Md5.INIT[2], 0xfe, 0xdc, 0xba, 0x98);
    WordIs(Md5.INIT[3], 0x76, 0x54, 0x32, 0x10);
  }

  const ABC: seq<byte> := [0x61, 0x62, 0x63]

  lemma PaddedShort(m: seq<byte>, len: seq<byte>)
    requires |m| == 3 && |len| < BLOCK - 3
    ensures Padded(m, len) == m + [0x80] + Zeros(60 - |len|) + len
  {
    ZeroCounts(|m|, |len|);
  }

  /** Appendix B.1 of FIPS 180-2: the one block of the message "abc", and the same for the other digests. */
  lemma PaddedAbc(m: seq<byte>)
    requires m == ABC
    ensures Sha256.Standard(m) == m + [0x80] + Zeros(52) + (Zeros(7) + [0x18])
    ensures Md5.Standard(m) == m + [0x80] + Zeros(52) + ([0x18] + Zeros(7))
    ensures Wp512.Standard(m) == m + [0x80] + Zeros(28) + (Zeros(31) + [0x18])
  {
    var n := 8 * |m|;
    ShortLength(n, 0x18, 8);
    ShortLength(n, 0x18, 32);
    PaddedShort(m, BigEndian(n, 8));
    PaddedShort(m, LittleEndian(n, 8));
    PaddedShort(m, BigEndian(n, 32));
  }

  /** RFC 2104 with the empty key: the pads show themselves. */
  lemma EmptyKey(c: Ctx, text: seq<byte>, inner: seq<byte>, outer: seq<byte>)
    requires inner == seq(64, i => 0x36) && outer == seq(64, i => 0x5c)
    ensures HmacOf(c, [], text) == DigestOf(c, outer + DigestOf(c, inner + text))
  {
    assert Block([], IPAD) == inner && Block([], OPAD) == outer;
  }

  /** The key of the first test of RFC 2202, sixteen bytes 0b, in the two pads. */
  lemma SixteenBytes(c: Ctx, key: seq<byte>, text: seq<byte>, inner: seq<byte>, outer: seq<byte>)
    requires key == seq(16, i => 0x0b)
    requires inner == seq(64, i => if i < 16 then 0x3d else 0x36) && outer == seq(64, i => if i < 16 then 0x57 else 0x5c)
    ensures HmacOf(c, key, text) == DigestOf(c, outer + DigestOf(c, inner + text))
  {
    assert Block(key, IPAD) == inner && Block(key, OPAD) == outer;
  }
}
