/**
 * Arithmetic in GF(2^8) with the polynomial x^8 + x^4 + x^3 + x + 1, by shift and add, and the
 * powers of the generator 3 on which the table construction of the AES code rests.
 */
module Gf256 {

  /** Addition in the field. */
  function Add(p: bv8, q: bv8): bv8 { p ^ q }

  function Add4(p: bv8, q: bv8, r: bv8, s: bv8): bv8 { Add(Add(p, q), Add(r, s)) }

  /** Multiplication by x. */
  function Xt(p: bv8): bv8 { (p << 1) ^ (if p & 0x80 != 0 then 0x1b else 0) }

  function Bit(a: bv8, m: bv8, p: bv8): bv8 { if a & m != 0 then p else 0 }

  /** The product of two field elements: the sum of `b * x^i` over the set bits `i` of `a`. */
  function Mul(a: bv8, b: bv8): bv8 {
    var b1 := Xt(b);
    var b2 := Xt(b1);
    var b3 := Xt(b2);
    var b4 := Xt(b3);
    var b5 := Xt(b4);
    var b6 := Xt(b5);
    var b7 := Xt(b6);
    Sum8(a, b, b1, b2, b3, b4, b5, b6, b7)
  }

  function Sum8(a: bv8, b0: bv8, b1: bv8, b2: bv8, b3: bv8, b4: bv8, b5: bv8, b6: bv8, b7: bv8): bv8 {
    Add(Add4(Bit(a, 0x01, b0), Bit(a, 0x02, b1), Bit(a, 0x04, b2), Bit(a, 0x08, b3)),
        Add4(Bit(a, 0x10, b4), Bit(a, 0x20, b5), Bit(a, 0x40, b6), Bit(a, 0x80, b7)))
  }

  lemma AddIsXor(p: bv8, q: bv8)
    ensures Add(p, q) == p ^ q
  {
  }

  lemma Add4IsXor(p: bv8, q: bv8, r: bv8, s: bv8)
    ensures Add4(p, q, r, s) == p ^ q ^ r ^ s
  {
  }

  lemma AddSwap(p: bv8, q: bv8, r: bv8, s: bv8)
    ensures Add4(p, q, r, s) == Add4(p, r, q, s)
  {
    Add4IsXor(p, q, r, s);
    Add4IsXor(p, r, q, s);
  }

  lemma XtAdd(p: bv8, q: bv8)
    ensures Xt(Add(p, q)) == Add(Xt(p), Xt(q))
  {
    if p & 0x80 != 0 {
      if q & 0x80 != 0 {
      } else {
      }
    } else {
      if q & 0x80 != 0 {
      } else {
      }
    }
  }

  lemma XtAdd4(p: bv8, q: bv8, r: bv8, s: bv8)
    ensures Xt(Add4(p, q, r, s)) == Add4(Xt(p), Xt(q), Xt(r), Xt(s))
  {
    XtAdd(p, q);
    XtAdd(r, s);
    XtAdd(Add(p, q), Add(r, s));
  }

  lemma XtBit(a: bv8, m: bv8, p: bv8)
    ensures Xt(Bit(a, m, p)) == Bit(a, m, Xt(p))
  {
  }

  lemma XtBits(a: bv8, m0: bv8, m1: bv8, m2: bv8, m3: bv8, b0: bv8, b1: bv8, b2: bv8, b3: bv8)
    ensures Xt(Add4(Bit(a, m0, b0), Bit(a, m1, b1), Bit(a, m2, b2), Bit(a, m3, b3))) ==
      Add4(Bit(a, m0, Xt(b0)), Bit(a, m1, Xt(b1)), Bit(a, m2, Xt(b2)), Bit(a, m3, Xt(b3)))
  {
    XtBit(a, m0, b0);
    XtBit(a, m1, b1);
    XtBit(a, m2, b2);
    XtBit(a, m3, b3);
    XtAdd4(Bit(a, m0, b0), Bit(a, m1, b1), Bit(a, m2, b2), Bit(a, m3, b3));
  }

  lemma XtSum8(a: bv8, b0: bv8, b1: bv8, b2: bv8, b3: bv8, b4: bv8, b5: bv8, b6: bv8, b7: bv8)
    ensures Xt(Sum8(a, b0, b1, b2, b3, b4, b5, b6, b7)) ==
      Sum8(a, Xt(b0), Xt(b1), Xt(b2), Xt(b3), Xt(b4), Xt(b5), Xt(b6), Xt(b7))
  {
    XtBits(a, 0x01, 0x02, 0x04, 0x08, b0, b1, b2, b3);
    XtBits(a, 0x10, 0x20, 0x40, 0x80, b4, b5, b6, b7);
    XtAdd(Add4(Bit(a, 0x01, b0), Bit(a, 0x02, b1), Bit(a, 0x04, b2), Bit(a, 0x08, b3)),
      Add4(Bit(a, 0x10, b4), Bit(a, 0x20, b5), Bit(a, 0x40, b6), Bit(a, 0x80, b7)));
  }

  /** x^8 reduces to the rest of the polynomial. */
  lemma Reduce(b: bv8)
    ensures Xt(Xt(Xt(Xt(Xt(Xt(Xt(Xt(b)))))))) == Add4(Xt(Xt(Xt(Xt(b)))), Xt(Xt(Xt(b))), Xt(b), b)
  {
    var b4 := Xt(Xt(Xt(Xt(b))));
    Reduce4(b);
    XtTop(Xt(Xt(Xt(b))));
  }

  lemma Reduce4(b: bv8)
    ensures Xt(Xt(Xt(Xt(b)))) == ((b << 4) ^ Bit(b, 0x10, 0x1b) ^ Bit(b, 0x20, 0x36) ^ Bit(b, 0x40, 0x6c) ^ Bit(b, 0x80, 0xd8))
  {
  }

  lemma XtTop(b: bv8)
    ensures Xt(b) == ((b << 1) ^ Bit(b, 0x80, 0x1b))
  {
  }

  lemma ShiftBits(a: bv8, p: bv8)
    ensures Bit(Xt(a), 0x01, p) == Bit(a, 0x80, p)
    ensures Bit(Xt(a), 0x02, p) == Add(Bit(a, 0x01, p), Bit(a, 0x80, p))
    ensures Bit(Xt(a), 0x04, p) == Bit(a, 0x02, p)
    ensures Bit(Xt(a), 0x08, p) == Add(Bit(a, 0x04, p), Bit(a, 0x80, p))
    ensures Bit(Xt(a), 0x10, p) == Add(Bit(a, 0x08, p), Bit(a, 0x80, p))
    ensures Bit(Xt(a), 0x20, p) == Bit(a, 0x10, p)
    ensures Bit(Xt(a), 0x40, p) == Bit(a, 0x20, p)
    ensures Bit(Xt(a), 0x80, p) == Bit(a, 0x40, p)
  {
  }

  lemma BitAdd4(a: bv8, m: bv8, p: bv8, q: bv8, r: bv8, s: bv8)
    ensures Bit(a, m, Add4(p, q, r, s)) == Add4(Bit(a, m, p), Bit(a, m, q), Bit(a, m, r), Bit(a, m, s))
  {
  }

  lemma Flat6(u0: bv8, t0: bv8, u1: bv8, t1: bv8, t2: bv8, u3: bv8)
    ensures Add4(u0, Add(t0, u1), t1, Add(t2, u3)) == u0 ^ t0 ^ u1 ^ t1 ^ t2 ^ u3
  {
    AddIsXor(t0, u1);
    AddIsXor(t2, u3);
    Add4IsXor(u0, t0 ^ u1, t1, t2 ^ u3);
  }

  lemma Flat5(t3: bv8, u4: bv8, t4: bv8, t5: bv8, t6: bv8)
    ensures Add4(Add(t3, u4), t4, t5, t6) == t3 ^ u4 ^ t4 ^ t5 ^ t6
  {
    AddIsXor(t3, u4);
    Add4IsXor(t3 ^ u4, t4, t5, t6);
  }

  lemma Flat7(t4: bv8, t5: bv8, t6: bv8, u4: bv8, u3: bv8, u1: bv8, u0: bv8)
    ensures Add4(t4, t5, t6, Add4(u4, u3, u1, u0)) == t4 ^ t5 ^ t6 ^ u4 ^ u3 ^ u1 ^ u0
  {
    Add4IsXor(u4, u3, u1, u0);
    Add4IsXor(t4, t5, t6, u4 ^ u3 ^ u1 ^ u0);
  }

  lemma Reorder(t0: bv8, t1: bv8, t2: bv8, t3: bv8, t4: bv8, t5: bv8, t6: bv8, u0: bv8, u1: bv8, u3: bv8, u4: bv8,
                a: bv8, b: bv8, c: bv8, d: bv8)
    requires a == u0 ^ t0 ^ u1 ^ t1 ^ t2 ^ u3 && b == t3 ^ u4 ^ t4 ^ t5 ^ t6
    requires c == t0 ^ t1 ^ t2 ^ t3 && d == t4 ^ t5 ^ t6 ^ u4 ^ u3 ^ u1 ^ u0
    ensures Add(a, b) == Add(c, d)
  {
    AddIsXor(a, b);
    AddIsXor(c, d);
  }

  lemma Rearrange(t0: bv8, t1: bv8, t2: bv8, t3: bv8, t4: bv8, t5: bv8, t6: bv8, u0: bv8, u1: bv8, u3: bv8, u4: bv8)
    ensures Add(Add4(u0, Add(t0, u1), t1, Add(t2, u3)), Add4(Add(t3, u4), t4, t5, t6)) ==
      Add(Add4(t0, t1, t2, t3), Add4(t4, t5, t6, Add4(u4, u3, u1, u0)))
  {
    Flat6(u0, t0, u1, t1, t2, u3);
    Flat5(t3, u4, t4, t5, t6);
    Add4IsXor(t0, t1, t2, t3);
    Flat7(t4, t5, t6, u4, u3, u1, u0);
    Reorder(t0, t1, t2, t3, t4, t5, t6, u0, u1, u3, u4, Add4(u0, Add(t0, u1), t1, Add(t2, u3)),
      Add4(Add(t3, u4), t4, t5, t6), Add4(t0, t1, t2, t3), Add4(t4, t5, t6, Add4(u4, u3, u1, u0)));
  }

  lemma Shifted(a: bv8, b0: bv8, b1: bv8, b2: bv8, b3: bv8, b4: bv8, b5: bv8, b6: bv8, b7: bv8)
    ensures Sum8(Xt(a), b0, b1, b2, b3, b4, b5, b6, b7) ==
      Sum8(a, b1, b2, b3, b4, b5, b6, b7, Add4(b4, b3, b1, b0))
  {
    ShiftBits(a, b0);
    ShiftBits(a, b1);
    ShiftBits(a, b2);
    ShiftBits(a, b3);
    ShiftBits(a, b4);
    ShiftBits(a, b5);
    ShiftBits(a, b6);
    ShiftBits(a, b7);
    BitAdd4(a, 0x80, b4, b3, b1, b0);
    Rearrange(Bit(a, 0x01, b1), Bit(a, 0x02, b2), Bit(a, 0x04, b3), Bit(a, 0x08, b4), Bit(a, 0x10, b5), Bit(a, 0x20, b6),
      Bit(a, 0x40, b7), Bit(a, 0x80, b0), Bit(a, 0x80, b1), Bit(a, 0x80, b3), Bit(a, 0x80, b4));
  }

  /** Multiplication by x commutes with the product. */
  lemma MulXt(a: bv8, b: bv8)
    ensures Mul(Xt(a), b) == Xt(Mul(a, b))
  {
    var b1 := Xt(b);
    var b2 := Xt(b1);
    var b3 := Xt(b2);
    var b4 := Xt(b3);
    var b5 := Xt(b4);
    var b6 := Xt(b5);
    var b7 := Xt(b6);
    XtSum8(a, b, b1, b2, b3, b4, b5, b6, b7);
    Reduce(b);
    Shifted(a, b, b1, b2, b3, b4, b5, b6, b7);
  }

  // ---------------------------------------------------------------- the product is additive

  lemma BitAdd(m: bv8, a: bv8, c: bv8, p: bv8)
    requires m == 0x01 || m == 0x02 || m == 0x04 || m == 0x08 || m == 0x10 || m == 0x20 || m == 0x40 || m == 0x80
    ensures Bit(Add(a, c), m, p) == Add(Bit(a, m, p), Bit(c, m, p))
  {
    assert (a ^ c) & m == (a & m) ^ (c & m);
  }

  lemma Zip4(p: bv8, q: bv8, r: bv8, s: bv8, p': bv8, q': bv8, r': bv8, s': bv8)
    ensures Add4(Add(p, p'), Add(q, q'), Add(r, r'), Add(s, s')) == Add(Add4(p, q, r, s), Add4(p', q', r', s'))
  {
    AddSwap(p, p', q, q');
    AddSwap(r, r', s, s');
    AddSwap(Add(p, q), Add(p', q'), Add(r, s), Add(r', s'));
  }

  lemma Sum8Add(a: bv8, c: bv8, b0: bv8, b1: bv8, b2: bv8, b3: bv8, b4: bv8, b5: bv8, b6: bv8, b7: bv8)
    ensures Sum8(Add(a, c), b0, b1, b2, b3, b4, b5, b6, b7) ==
      Add(Sum8(a, b0, b1, b2, b3, b4, b5, b6, b7), Sum8(c, b0, b1, b2, b3, b4, b5, b6, b7))
  {
    BitAdd(0x01, a, c, b0);
    BitAdd(0x02, a, c, b1);
    BitAdd(0x04, a, c, b2);
    BitAdd(0x08, a, c, b3);
    BitAdd(0x10, a, c, b4);
    BitAdd(0x20, a, c, b5);
    BitAdd(0x40, a, c, b6);
    BitAdd(0x80, a, c, b7);
    var l, l' := Add4(Bit(a, 0x01, b0), Bit(a, 0x02, b1), Bit(a, 0x04, b2), Bit(a, 0x08, b3)),
      Add4(Bit(c, 0x01, b0), Bit(c, 0x02, b1), Bit(c, 0x04, b2), Bit(c, 0x08, b3));
    var h, h' := Add4(Bit(a, 0x10, b4), Bit(a, 0x20, b5), Bit(a, 0x40, b6), Bit(a, 0x80, b7)),
      Add4(Bit(c, 0x10, b4), Bit(c, 0x20, b5), Bit(c, 0x40, b6), Bit(c, 0x80, b7));
    Zip4(Bit(a, 0x01, b0), Bit(a, 0x02, b1), Bit(a, 0x04, b2), Bit(a, 0x08, b3),
      Bit(c, 0x01, b0), Bit(c, 0x02, b1), Bit(c, 0x04, b2), Bit(c, 0x08, b3));
    Zip4(Bit(a, 0x10, b4), Bit(a, 0x20, b5), Bit(a, 0x40, b6), Bit(a, 0x80, b7),
      Bit(c, 0x10, b4), Bit(c, 0x20, b5), Bit(c, 0x40, b6), Bit(c, 0x80, b7));
    AddSwap(l, l', h, h');
  }

  lemma MulAdd(a: bv8, c: bv8, b: bv8)
    ensures Mul(Add(a, c), b) == Add(Mul(a, b), Mul(c, b))
  {
    var b1 := Xt(b);
    var b2 := Xt(b1);
    var b3 := Xt(b2);
    var b4 := Xt(b3);
    var b5 := Xt(b4);
    var b6 := Xt(b5);
    Sum8Add(a, c, b, b1, b2, b3, b4, b5, b6, Xt(b6));
  }

  // ---------------------------------------------------------------- the generator

  /** Multiplication by the generator 3, as the table loop does it. */
  function Times3(p: bv8): bv8 { Add(p, Xt(p)) }

  lemma MulTimes3(a: bv8, b: bv8)
    ensures Mul(Times3(a), b) == Times3(Mul(a, b))
  {
    MulAdd(a, Xt(a), b);
    MulXt(a, b);
  }

  lemma Times3Injective(p: bv8, q: bv8)
    requires Times3(p) == Times3(q)
    ensures p == q
  {
  }

  function Iter(k: nat, x: bv8): bv8 { if k == 0 then x else Times3(Iter(k - 1, x)) }

  function Pow(k: nat): bv8 { Iter(k, 1) }

  lemma MulOne(x: bv8)
    ensures Mul(1, x) == x
  {
  }

  lemma {:induction false} MulPow(k: nat, x: bv8)
    ensures Mul(Pow(k), x) == Iter(k, x)
  {
    if k == 0 {
      MulOne(x);
    } else {
      MulPow(k - 1, x);
      MulTimes3(Pow(k - 1), x);
    }
  }

  lemma {:induction false} IterIter(i: nat, j: nat, x: bv8)
    ensures Iter(i, Iter(j, x)) == Iter(i + j, x)
  {
    if i > 0 {
      IterIter(i - 1, j, x);
    }
  }

  /** Powers add up under the product. */
  lemma MulPows(i: nat, j: nat)
    ensures Mul(Pow(i), Pow(j)) == Pow(i + j)
  {
    MulPow(i, Pow(j));
    IterIter(i, j, 1);
  }

  lemma {:induction false} IterInjective(k: nat, x: bv8, y: bv8)
    requires Iter(k, x) == Iter(k, y)
    ensures x == y
  {
    if k > 0 {
      Times3Injective(Iter(k - 1, x), Iter(k - 1, y));
      IterInjective(k - 1, x, y);
    }
  }

  function Times3x4(p: bv8): bv8 { Times3(Times3(Times3(Times3(p)))) }

  function Times3x16(p: bv8): bv8 { Times3x4(Times3x4(Times3x4(Times3x4(p)))) }

  lemma Iter4(k: nat, p: bv8)
    ensures Iter(k + 4, p) == Times3x4(Iter(k, p))
  {
    assert Iter(k + 1, p) == Times3(Iter(k, p));
    assert Iter(k + 2, p) == Times3(Iter(k + 1, p));
    assert Iter(k + 3, p) == Times3(Iter(k + 2, p));
  }

  /** `x` is one of the four powers from `p` on. */
  predicate Near(x: bv8, p: bv8) {
    x == p || x == Times3(p) || x == Times3(Times3(p)) || x == Times3(Times3(Times3(p)))
  }

  /** `x` is one of the sixteen powers from `p` on. */
  predicate Close(x: bv8, p: bv8) {
    Near(x, p) || Near(x, Times3x4(p)) || Near(x, Times3x4(Times3x4(p))) || Near(x, Times3x4(Times3x4(Times3x4(p))))
  }

  lemma NearPow(x: bv8, k: nat) returns (i: nat)
    requires Near(x, Pow(k))
    ensures k <= i < k + 4 && Pow(i) == x
  {
    assert Pow(k + 1) == Times3(Pow(k));
    assert Pow(k + 2) == Times3(Pow(k + 1));
    assert Pow(k + 3) == Times3(Pow(k + 2));
    i := if x == Pow(k) then k else if x == Pow(k + 1) then k + 1 else if x == Pow(k + 2) then k + 2 else k + 3;
  }

  lemma ClosePow(x: bv8, p: bv8, k: nat) returns (i: nat)
    requires Close(x, p) && Pow(k) == p
    ensures k <= i < k + 16 && Pow(i) == x
  {
    Iter4(k, 1);
    Iter4(k + 4, 1);
    Iter4(k + 8, 1);
    if Near(x, Pow(k)) {
      i := NearPow(x, k);
    } else if Near(x, Pow(k + 4)) {
      i := NearPow(x, k + 4);
    } else if Near(x, Pow(k + 8)) {
      i := NearPow(x, k + 8);
    } else {
      i := NearPow(x, k + 12);
    }
  }

  lemma Iter16(k: nat, p: bv8)
    ensures Iter(k + 16, p) == Times3x16(Iter(k, p))
  {
    Iter4(k, p);
    Iter4(k + 4, p);
    Iter4(k + 8, p);
    Iter4(k + 12, p);
  }

  lemma HopsA()
    ensures Times3x16(0x1) == 0x5f
    ensures Times3x16(0x5f) == 0xe5
    ensures Times3x16(0xe5) == 0x53
    ensures Times3x16(0x53) == 0x4c
    ensures Times3x16(0x4c) == 0x83
  {
  }

  lemma HopsB()
    ensures Times3x16(0x83) == 0xb5
    ensures Times3x16(0xb5) == 0xfe
    ensures Times3x16(0xfe) == 0xfb
    ensures Times3x16(0xfb) == 0xc3
    ensures Times3x16(0xc3) == 0x9f
  {
  }

  lemma HopsC()
    ensures Times3x16(0x9f) == 0x9b
    ensures Times3x16(0x9b) == 0xfc
    ensures Times3x16(0xfc) == 0x45
    ensures Times3x16(0x45) == 0x12
    ensures Times3x16(0x12) == 0x39
  {
  }

  lemma Next16(k: nat, c: bv8, d: bv8)
    requires Pow(k) == c && Times3x16(c) == d
    ensures Pow(k + 16) == d
  {
    Iter16(k, 1);
  }

  lemma SixteenLow(z: nat)
    requires Pow(z) == 1
    ensures Pow(z + 16) == 0x5f
    ensures Pow(z + 32) == 0xe5
    ensures Pow(z + 48) == 0x53
    ensures Pow(z + 64) == 0x4c
    ensures Pow(z + 80) == 0x83
    ensures Pow(z + 96) == 0xb5
    ensures Pow(z + 112) == 0xfe
  {
    HopsA();
    HopsB();
    Next16(z, 0x1, 0x5f);
    Next16(z + 16, 0x5f, 0xe5);
    Next16(z + 32, 0xe5, 0x53);
    Next16(z + 48, 0x53, 0x4c);
    Next16(z + 64, 0x4c, 0x83);
    Next16(z + 80, 0x83, 0xb5);
    Next16(z + 96, 0xb5, 0xfe);
  }

  lemma SixteenHigh(z: nat)
    requires Pow(z) == 0xfe
    ensures Pow(z + 16) == 0xfb
    ensures Pow(z + 32) == 0xc3
    ensures Pow(z + 48) == 0x9f
    ensures Pow(z + 64) == 0x9b
    ensures Pow(z + 80) == 0xfc
    ensures Pow(z + 96) == 0x45
    ensures Pow(z + 112) == 0x12
    ensures Pow(z + 128) == 0x39
  {
    HopsB();
    HopsC();
    Next16(z, 0xfe, 0xfb);
    Next16(z + 16, 0xfb, 0xc3);
    Next16(z + 32, 0xc3, 0x9f);
    Next16(z + 48, 0x9f, 0x9b);
    Next16(z + 64, 0x9b, 0xfc);
    Next16(z + 80, 0xfc, 0x45);
    Next16(z + 96, 0x45, 0x12);
    Next16(z + 112, 0x12, 0x39);
  }

  /** Every sixteenth power, counted from an exponent `z` whose power is 1. */
  lemma Sixteen(z: nat)
    requires Pow(z) == 1
    ensures Pow(z + 16) == 0x5f
    ensures Pow(z + 32) == 0xe5
    ensures Pow(z + 48) == 0x53
    ensures Pow(z + 64) == 0x4c
    ensures Pow(z + 80) == 0x83
    ensures Pow(z + 96) == 0xb5
    ensures Pow(z + 112) == 0xfe
    ensures Pow(z + 128) == 0xfb
    ensures Pow(z + 144) == 0xc3
    ensures Pow(z + 160) == 0x9f
    ensures Pow(z + 176) == 0x9b
    ensures Pow(z + 192) == 0xfc
    ensures Pow(z + 208) == 0x45
    ensures Pow(z + 224) == 0x12
    ensures Pow(z + 240) == 0x39
  {
    SixteenLow(z);
    SixteenHigh(z + 112);
  }

  lemma Last(z: nat)
    requires Pow(z) == 0x39
    ensures Pow(z + 15) == 1
  {
    Iter4(z, 1);
    Iter4(z + 4, 1);
    Iter4(z + 8, 1);
    assert Pow(z + 13) == Times3(Pow(z + 12));
    assert Pow(z + 14) == Times3(Pow(z + 13));
    assert Pow(z + 15) == Times3(Pow(z + 14));
  }

  lemma Covered(x: bv8)
    requires x != 0
    ensures Close(x, 0x1) || Close(x, 0x5f) || Close(x, 0xe5) || Close(x, 0x53) || Close(x, 0x4c) || Close(x, 0x83) || Close(x, 0xb5) || Close(x, 0xfe) || Close(x, 0xfb) || Close(x, 0xc3) || Close(x, 0x9f) || Close(x, 0x9b) || Close(x, 0xfc) || Close(x, 0x45) || Close(x, 0x12) || Close(x, 0x39)
  {
  }

  predicate Landmark(c: bv8, k: nat) {
    (c == 0x1 && k == 0) ||
    (c == 0x5f && k == 16) ||
    (c == 0xe5 && k == 32) ||
    (c == 0x53 && k == 48) ||
    (c == 0x4c && k == 64) ||
    (c == 0x83 && k == 80) ||
    (c == 0xb5 && k == 96) ||
    (c == 0xfe && k == 112) ||
    (c == 0xfb && k == 128) ||
    (c == 0xc3 && k == 144) ||
    (c == 0x9f && k == 160) ||
    (c == 0x9b && k == 176) ||
    (c == 0xfc && k == 192) ||
    (c == 0x45 && k == 208) ||
    (c == 0x12 && k == 224) ||
    (c == 0x39 && k == 240)
  }

  lemma Nearest(x: bv8) returns (c: bv8, k: nat)
    requires x != 0
    ensures Landmark(c, k) && Close(x, c)
  {
    Covered(x);
    if Close(x, 0x1) {
      c, k := 0x1, 0;
    } else if Close(x, 0x5f) {
      c, k := 0x5f, 16;
    } else if Close(x, 0xe5) {
      c, k := 0xe5, 32;
    } else if Close(x, 0x53) {
      c, k := 0x53, 48;
    } else if Close(x, 0x4c) {
      c, k := 0x4c, 64;
    } else if Close(x, 0x83) {
      c, k := 0x83, 80;
    } else if Close(x, 0xb5) {
      c, k := 0xb5, 96;
    } else if Close(x, 0xfe) {
      c, k := 0xfe, 112;
    } else if Close(x, 0xfb) {
      c, k := 0xfb, 128;
    } else if Close(x, 0xc3) {
      c, k := 0xc3, 144;
    } else if Close(x, 0x9f) {
      c, k := 0x9f, 160;
    } else if Close(x, 0x9b) {
      c, k := 0x9b, 176;
    } else if Close(x, 0xfc) {
      c, k := 0xfc, 192;
    } else if Close(x, 0x45) {
      c, k := 0x45, 208;
    } else if Close(x, 0x12) {
      c, k := 0x12, 224;
    } else {
      c, k := 0x39, 240;
    }
  }

  lemma LandmarkPow(c: bv8, k: nat, z: nat)
    requires Landmark(c, k) && Pow(z) == 1
    ensures Pow(z + k) == c
  {
    Sixteen(z);
  }

  /** Three generates the multiplicative group: every nonzero element is one of its powers. */
  lemma Generates(x: bv8) returns (i: nat)
    requires x != 0
    ensures i < 256 && Pow(i) == x
  {
    var c, k := Nearest(x);
    LandmarkPow(c, k, 0);
    i := ClosePow(x, c, k);
  }

  /** The powers repeat after 255 steps. */
  lemma Period(k: nat)
    ensures Pow(k + 255) == Pow(k)
  {
    var z: nat := 0;
    Sixteen(z);
    Last(z + 240);
    IterIter(k, z + 255, 1);
  }

  // ---------------------------------------------------------------- inverses

  lemma {:induction false} PowNonzero(k: nat)
    ensures Pow(k) != 0
  {
    if k > 0 {
      PowNonzero(k - 1);
      assert Times3(0) == 0;
      if Pow(k) == 0 {
        Times3Injective(Pow(k - 1), 0);
        assert false;
      }
    }
  }

  lemma PowInverse(i: nat)
    requires i <= 255
    ensures Mul(Pow(i), Pow(255 - i)) == 1
  {
    MulPows(i, 255 - i);
    Period(0);
  }

  lemma HasInverse(x: bv8)
    requires x != 0
    ensures exists y :: Mul(x, y) == 1
  {
    var i := Generates(x);
    PowInverse(i);
  }

  /** The multiplicative inverse, extended by 0 for 0. */
  ghost function Inverse(x: bv8): (y: bv8)
    ensures x != 0 ==> Mul(x, y) == 1
    ensures x == 0 ==> y == 0
  {
    if x == 0 then 0 else
    HasInverse(x);
    var y :| Mul(x, y) == 1;
    y
  }

  /** The inverse of a power is the complementary power: there is only one inverse. */
  lemma InversePow(i: nat)
    requires i <= 255
    ensures Inverse(Pow(i)) == Pow(255 - i)
  {
    PowNonzero(i);
    PowInverse(i);
    MulPow(i, Inverse(Pow(i)));
    MulPow(i, Pow(255 - i));
    IterInjective(i, Inverse(Pow(i)), Pow(255 - i));
  }

  /** There is only one inverse. */
  lemma InverseIs(x: bv8, y: bv8)
    requires Mul(x, y) == 1
    ensures Inverse(x) == y
  {
    if x == 0 {
      assert false;
    }
    var i := Generates(x);
    MulPow(i, Inverse(x));
    MulPow(i, y);
    IterInjective(i, Inverse(x), y);
  }

  lemma InverseTwice(x: bv8)
    ensures Inverse(Inverse(x)) == x
  {
    if x != 0 {
      var i := Generates(x);
      InversePow(i);
      InversePow(255 - i);
    }
  }

  // ---------------------------------------------------------------- constants of MixColumns

  lemma MulZero(a: bv8)
    ensures Mul(a, 0) == 0
  {
  }

  lemma Sum2(b0: bv8, b1: bv8, b2: bv8, b3: bv8, b4: bv8, b5: bv8, b6: bv8, b7: bv8)
    ensures Sum8(2, b0, b1, b2, b3, b4, b5, b6, b7) == b1
  {
    Add4IsXor(0, b1, 0, 0);
    Add4IsXor(0, 0, 0, 0);
  }

  lemma Mul2(x: bv8)
    ensures Mul(2, x) == Xt(x)
  {
    Sum2(x, Xt(x), Xt(Xt(x)), Xt(Xt(Xt(x))), Xt(Xt(Xt(Xt(x)))), Xt(Xt(Xt(Xt(Xt(x))))), Xt(Xt(Xt(Xt(Xt(Xt(x)))))), Xt(Xt(Xt(Xt(Xt(Xt(Xt(x))))))));
  }

  lemma Sum3(b0: bv8, b1: bv8, b2: bv8, b3: bv8, b4: bv8, b5: bv8, b6: bv8, b7: bv8)
    ensures Sum8(3, b0, b1, b2, b3, b4, b5, b6, b7) == b1 ^ b0
  {
    Add4IsXor(b0, b1, 0, 0);
    Add4IsXor(0, 0, 0, 0);
  }

  lemma Mul3(x: bv8)
    ensures Mul(3, x) == Xt(x) ^ x
  {
    Sum3(x, Xt(x), Xt(Xt(x)), Xt(Xt(Xt(x))), Xt(Xt(Xt(Xt(x)))), Xt(Xt(Xt(Xt(Xt(x))))), Xt(Xt(Xt(Xt(Xt(Xt(x)))))), Xt(Xt(Xt(Xt(Xt(Xt(Xt(x))))))));
  }

  lemma Sum9(b0: bv8, b1: bv8, b2: bv8, b3: bv8, b4: bv8, b5: bv8, b6: bv8, b7: bv8)
    ensures Sum8(9, b0, b1, b2, b3, b4, b5, b6, b7) == b3 ^ b0
  {
    Add4IsXor(b0, 0, 0, b3);
    Add4IsXor(0, 0, 0, 0);
  }

  lemma Mul9(x: bv8)
    ensures Mul(9, x) == Xt(Xt(Xt(x))) ^ x
  {
    Sum9(x, Xt(x), Xt(Xt(x)), Xt(Xt(Xt(x))), Xt(Xt(Xt(Xt(x)))), Xt(Xt(Xt(Xt(Xt(x))))), Xt(Xt(Xt(Xt(Xt(Xt(x)))))), Xt(Xt(Xt(Xt(Xt(Xt(Xt(x))))))));
  }

  lemma Sum11(b0: bv8, b1: bv8, b2: bv8, b3: bv8, b4: bv8, b5: bv8, b6: bv8, b7: bv8)
    ensures Sum8(11, b0, b1, b2, b3, b4, b5, b6, b7) == b3 ^ b1 ^ b0
  {
    Add4IsXor(b0, b1, 0, b3);
    Add4IsXor(0, 0, 0, 0);
  }

  lemma Mul11(x: bv8)
    ensures Mul(11, x) == Xt(Xt(Xt(x))) ^ Xt(x) ^ x
  {
    Sum11(x, Xt(x), Xt(Xt(x)), Xt(Xt(Xt(x))), Xt(Xt(Xt(Xt(x)))), Xt(Xt(Xt(Xt(Xt(x))))), Xt(Xt(Xt(Xt(Xt(Xt(x)))))), Xt(Xt(Xt(Xt(Xt(Xt(Xt(x))))))));
  }

  lemma Sum13(b0: bv8, b1: bv8, b2: bv8, b3: bv8, b4: bv8, b5: bv8, b6: bv8, b7: bv8)
    ensures Sum8(13, b0, b1, b2, b3, b4, b5, b6, b7) == b3 ^ b2 ^ b0
  {
    Add4IsXor(b0, 0, b2, b3);
    Add4IsXor(0, 0, 0, 0);
  }

  lemma Mul13(x: bv8)
    ensures Mul(13, x) == Xt(Xt(Xt(x))) ^ Xt(Xt(x)) ^ x
  {
    Sum13(x, Xt(x), Xt(Xt(x)), Xt(Xt(Xt(x))), Xt(Xt(Xt(Xt(x)))), Xt(Xt(Xt(Xt(Xt(x))))), Xt(Xt(Xt(Xt(Xt(Xt(x)))))), Xt(Xt(Xt(Xt(Xt(Xt(Xt(x))))))));
  }

  lemma Sum14(b0: bv8, b1: bv8, b2: bv8, b3: bv8, b4: bv8, b5: bv8, b6: bv8, b7: bv8)
    ensures Sum8(14, b0, b1, b2, b3, b4, b5, b6, b7) == b3 ^ b2 ^ b1
  {
    Add4IsXor(0, b1, b2, b3);
    Add4IsXor(0, 0, 0, 0);
  }

  lemma Mul14(x: bv8)
    ensures Mul(14, x) == Xt(Xt(Xt(x))) ^ Xt(Xt(x)) ^ Xt(x)
  {
    Sum14(x, Xt(x), Xt(Xt(x)), Xt(Xt(Xt(x))), Xt(Xt(Xt(Xt(x)))), Xt(Xt(Xt(Xt(Xt(x))))), Xt(Xt(Xt(Xt(Xt(Xt(x)))))), Xt(Xt(Xt(Xt(Xt(Xt(Xt(x))))))));
  }

  lemma BitAddRight(a: bv8, m: bv8, p: bv8, q: bv8)
    ensures Bit(a, m, Add(p, q)) == Add(Bit(a, m, p), Bit(a, m, q))
  {
  }

  lemma Sum8AddRight(a: bv8, b0: bv8, b1: bv8, b2: bv8, b3: bv8, b4: bv8, b5: bv8, b6: bv8, b7: bv8,
                     c0: bv8, c1: bv8, c2: bv8, c3: bv8, c4: bv8, c5: bv8, c6: bv8, c7: bv8)
    ensures Sum8(a, Add(b0, c0), Add(b1, c1), Add(b2, c2), Add(b3, c3), Add(b4, c4), Add(b5, c5), Add(b6, c6), Add(b7, c7)) ==
      Add(Sum8(a, b0, b1, b2, b3, b4, b5, b6, b7), Sum8(a, c0, c1, c2, c3, c4, c5, c6, c7))
  {
    BitAddRight(a, 0x01, b0, c0);
    BitAddRight(a, 0x02, b1, c1);
    BitAddRight(a, 0x04, b2, c2);
    BitAddRight(a, 0x08, b3, c3);
    BitAddRight(a, 0x10, b4, c4);
    BitAddRight(a, 0x20, b5, c5);
    BitAddRight(a, 0x40, b6, c6);
    BitAddRight(a, 0x80, b7, c7);
    Zip4(Bit(a, 0x01, b0), Bit(a, 0x02, b1), Bit(a, 0x04, b2), Bit(a, 0x08, b3),
      Bit(a, 0x01, c0), Bit(a, 0x02, c1), Bit(a, 0x04, c2), Bit(a, 0x08, c3));
    Zip4(Bit(a, 0x10, b4), Bit(a, 0x20, b5), Bit(a, 0x40, b6), Bit(a, 0x80, b7),
      Bit(a, 0x10, c4), Bit(a, 0x20, c5), Bit(a, 0x40, c6), Bit(a, 0x80, c7));
    AddSwap(Add4(Bit(a, 0x01, b0), Bit(a, 0x02, b1), Bit(a, 0x04, b2), Bit(a, 0x08, b3)),
      Add4(Bit(a, 0x01, c0), Bit(a, 0x02, c1), Bit(a, 0x04, c2), Bit(a, 0x08, c3)),
      Add4(Bit(a, 0x10, b4), Bit(a, 0x20, b5), Bit(a, 0x40, b6), Bit(a, 0x80, b7)),
      Add4(Bit(a, 0x10, c4), Bit(a, 0x20, c5), Bit(a, 0x40, c6), Bit(a, 0x80, c7)));
  }

  lemma MulAddRight(a: bv8, x: bv8, y: bv8)
    ensures Mul(a, Add(x, y)) == Add(Mul(a, x), Mul(a, y))
  {
    var x1, y1 := Xt(x), Xt(y);
    var x2, y2 := Xt(x1), Xt(y1);
    var x3, y3 := Xt(x2), Xt(y2);
    var x4, y4 := Xt(x3), Xt(y3);
    var x5, y5 := Xt(x4), Xt(y4);
    var x6, y6 := Xt(x5), Xt(y5);
    XtAdd(x, y);
    XtAdd(x1, y1);
    XtAdd(x2, y2);
    XtAdd(x3, y3);
    XtAdd(x4, y4);
    XtAdd(x5, y5);
    XtAdd(x6, y6);
    Sum8AddRight(a, x, x1, x2, x3, x4, x5, x6, Xt(x6), y, y1, y2, y3, y4, y5, y6, Xt(y6));
  }

  lemma MulAdd4(k: bv8, p: bv8, q: bv8, r: bv8, s: bv8)
    ensures Mul(k, Add4(p, q, r, s)) == Add4(Mul(k, p), Mul(k, q), Mul(k, r), Mul(k, s))
  {
    MulAddRight(k, p, q);
    MulAddRight(k, r, s);
    MulAddRight(k, Add(p, q), Add(r, s));
  }
}
