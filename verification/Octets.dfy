/** Bytes as numbers. */
module Octets {
  type byte = bv8

  function ByteOf(n: nat): byte { (n % 256) as bv8 }

  predicate Odd(x: nat) { x % 2 == 1 }

  /** The bits of a byte are the binary digits of its number. */
  lemma Digits(x: nat, b: bv8)
    requires x < 256 && b == x as bv8
    ensures (b & 1 == 1 <==> Odd(x)) && (b & 2 == 2 <==> Odd(x / 2)) && (b & 4 == 4 <==> Odd(x / 4))
    ensures (b & 8 == 8 <==> Odd(x / 8)) && (b & 16 == 16 <==> Odd(x / 16)) && (b & 32 == 32 <==> Odd(x / 32))
    ensures (b & 64 == 64 <==> Odd(x / 64)) && (b & 128 == 128 <==> Odd(x / 128))
  {
  }

  predicate SameOdd(x: nat, y: nat) { Odd(x) <==> Odd(y) }

  /** Numbers below 256 with the same binary digits. */
  ghost predicate SameOdds(x: nat, y: nat) {
    && SameOdd(x, y) && SameOdd(x / 2, y / 2) && SameOdd(x / 4, y / 4) && SameOdd(x / 8, y / 8)
    && SameOdd(x / 16, y / 16) && SameOdd(x / 32, y / 32) && SameOdd(x / 64, y / 64) && SameOdd(x / 128, y / 128)
  }

  lemma SameBits(x: nat, y: nat, b: bv8)
    requires x < 256 && y < 256 && b == x as bv8 && b == y as bv8
    ensures SameOdds(x, y)
  {
    Digits(x, b);
    Digits(y, b);
  }

  /** Two halvings are one quartering, and so on down. */
  lemma Halving(x: nat)
    ensures x / 4 == x / 2 / 2 && x / 8 == x / 4 / 2 && x / 16 == x / 8 / 2 && x / 32 == x / 16 / 2
    ensures x / 64 == x / 32 / 2 && x / 128 == x / 64 / 2 && (x < 256 ==> x / 128 < 2)
  {
  }

  lemma SameHalf(x: nat, y: nat, x1: nat, y1: nat)
    requires x1 == x / 2 && y1 == y / 2 && SameOdd(x, y)
    ensures x == y <==> x1 == y1
  {
  }

  lemma SameNumber(x: nat, y: nat)
    requires x < 256 && y < 256 && SameOdds(x, y)
    ensures x == y
  {
    Halving(x);
    Halving(y);
    FromTop(x, y, x / 2, y / 2, x / 4, y / 4, x / 8, y / 8, x / 16, y / 16, x / 32, y / 32, x / 64, y / 64, x / 128, y / 128);
  }

  lemma FromTop(x: nat, y: nat, x1: nat, y1: nat, x2: nat, y2: nat, x3: nat, y3: nat, x4: nat, y4: nat,
                x5: nat, y5: nat, x6: nat, y6: nat, x7: nat, y7: nat)
    requires x1 == x / 2 && x2 == x1 / 2 && x3 == x2 / 2 && x4 == x3 / 2 && x5 == x4 / 2 && x6 == x5 / 2 && x7 == x6 / 2 < 2
    requires y1 == y / 2 && y2 == y1 / 2 && y3 == y2 / 2 && y4 == y3 / 2 && y5 == y4 / 2 && y6 == y5 / 2 && y7 == y6 / 2 < 2
    requires SameOdd(x, y) && SameOdd(x1, y1) && SameOdd(x2, y2) && SameOdd(x3, y3)
    requires SameOdd(x4, y4) && SameOdd(x5, y5) && SameOdd(x6, y6) && SameOdd(x7, y7)
    ensures x == y
  {
    assert x7 == y7;
    SameHalf(x6, y6, x7, y7);
    SameHalf(x5, y5, x6, y6);
    SameHalf(x4, y4, x5, y5);
    SameHalf(x3, y3, x4, y4);
    SameHalf(x2, y2, x3, y3);
    SameHalf(x1, y1, x2, y2);
    SameHalf(x, y, x1, y1);
  }

  lemma SameDigits(x: nat, y: nat)
    requires x < 256 && y < 256 && x as bv8 == y as bv8
    ensures x == y
  {
    SameBits(x, y, x as bv8);
    SameNumber(x, y);
  }

  lemma NumberBack(b: bv8)
    ensures 0 <= b as int < 256 && (b as int) as bv8 == b
  {
  }

  lemma ByteBack(x: nat)
    requires x < 256
    ensures (x as bv8) as int == x
  {
    var b := x as bv8;
    NumberBack(b);
    SameDigits(b as int, x);
  }

  lemma ByteInjective(x: nat, y: nat)
    requires ByteOf(x) == ByteOf(y)
    ensures x % 256 == y % 256
  {
    SameDigits(x % 256, y % 256);
  }
}
