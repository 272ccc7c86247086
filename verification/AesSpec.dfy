/** The Advanced Encryption Standard of FIPS 197 on columns of field elements. */
module AesSpec {
  import opened Gf256
  import opened RoundChain

  datatype Col = Col(a: bv8, b: bv8, c: bv8, d: bv8)
  datatype State = State(c0: Col, c1: Col, c2: Col, c3: Col)

  // ---------------------------------------------------------------- the S-box

  /** The affine transformation of section 5.1.1. */
  function Affine(p: bv8): bv8 {
    p ^ ((p << 1) | (p >> 7)) ^ ((p << 2) | (p >> 6)) ^ ((p << 3) | (p >> 5)) ^ ((p << 4) | (p >> 4)) ^ 0x63
  }

  /** Its inverse, section 5.3.2. */
  function InvAffine(p: bv8): bv8 {
    ((p << 1) | (p >> 7)) ^ ((p << 3) | (p >> 5)) ^ ((p << 6) | (p >> 2)) ^ 0x05
  }

  lemma AffineInverse(p: bv8)
    ensures Affine(InvAffine(p)) == p && InvAffine(Affine(p)) == p
  {
  }

  ghost function Sub(x: bv8): bv8 { Affine(Inverse(x)) }

  ghost function InvSub(y: bv8): bv8 { Inverse(InvAffine(y)) }

  lemma SubInverse(x: bv8)
    ensures InvSub(Sub(x)) == x && Sub(InvSub(x)) == x
  {
    AffineInverse(Inverse(x));
    AffineInverse(x);
    InverseTwice(x);
    InverseTwice(InvAffine(x));
  }

  // ---------------------------------------------------------------- MixColumns

  function MixByte(a: bv8, b: bv8, c: bv8, d: bv8): bv8 { Add4(Mul(2, a), Mul(3, b), c, d) }

  function InvMixByte(a: bv8, b: bv8, c: bv8, d: bv8): bv8 { Add4(Mul(14, a), Mul(11, b), Mul(13, c), Mul(9, d)) }

  /** MixColumns on one column, section 5.1.3. */
  function Mix(v: Col): Col {
    Col(MixByte(v.a, v.b, v.c, v.d), MixByte(v.b, v.c, v.d, v.a), MixByte(v.c, v.d, v.a, v.b), MixByte(v.d, v.a, v.b, v.c))
  }

  /** InvMixColumns on one column, section 5.3.3. */
  function InvMix(v: Col): Col {
    Col(InvMixByte(v.a, v.b, v.c, v.d), InvMixByte(v.b, v.c, v.d, v.a),
        InvMixByte(v.c, v.d, v.a, v.b), InvMixByte(v.d, v.a, v.b, v.c))
  }

  function Plus(v: Col, w: Col): Col { Col(Add(v.a, w.a), Add(v.b, w.b), Add(v.c, w.c), Add(v.d, w.d)) }

  // Multiples of multiples, as sums of `x`, `2x`, `4x`, `8x` and `16x`.

  lemma Twice9(x: bv8)
    ensures Mul(9, Mul(2, x)) == Xt(Xt(Xt(Xt(x)))) ^ Xt(x)
  {
    Mul2(x);
    Double9(x, Mul(2, x));
  }

  lemma Double9(x: bv8, y: bv8)
    requires y == Xt(x)
    ensures Mul(9, y) == Xt(Xt(Xt(Xt(x)))) ^ Xt(x)
  {
    Mul9(y);
  }

  lemma Thrice9(x: bv8)
    ensures Mul(9, Mul(3, x)) == Xt(Xt(Xt(Xt(x)))) ^ Xt(Xt(Xt(x))) ^ Xt(x) ^ x
  {
    Mul3(x);
    AddIsXor(Xt(x), x);
    Triple9(x, Mul(3, x));
  }

  lemma Triple9(x: bv8, y: bv8)
    requires y == Add(Xt(x), x)
    ensures Mul(9, y) == Xt(Xt(Xt(Xt(x)))) ^ Xt(Xt(Xt(x))) ^ Xt(x) ^ x
  {
    MulAddRight(9, Xt(x), x);
    Mul9(x);
    Mul9(Xt(x));
    Cancel9(x, Xt(x), Xt(Xt(x)), Xt(Xt(Xt(x))), Xt(Xt(Xt(Xt(x)))), Mul(9, Xt(x)), Mul(9, x));
  }

  lemma Cancel9(x0: bv8, x1: bv8, x2: bv8, x3: bv8, x4: bv8, p: bv8, q: bv8)
    requires p == x4 ^ x1 && q == x3 ^ x0
    ensures Add(p, q) == x4 ^ x3 ^ x1 ^ x0
  {
    AddIsXor(p, q);
  }

  lemma Twice11(x: bv8)
    ensures Mul(11, Mul(2, x)) == Xt(Xt(Xt(Xt(x)))) ^ Xt(Xt(x)) ^ Xt(x)
  {
    Mul2(x);
    Double11(x, Mul(2, x));
  }

  lemma Double11(x: bv8, y: bv8)
    requires y == Xt(x)
    ensures Mul(11, y) == Xt(Xt(Xt(Xt(x)))) ^ Xt(Xt(x)) ^ Xt(x)
  {
    Mul11(y);
  }

  lemma Thrice11(x: bv8)
    ensures Mul(11, Mul(3, x)) == Xt(Xt(Xt(Xt(x)))) ^ Xt(Xt(Xt(x))) ^ Xt(Xt(x)) ^ x
  {
    Mul3(x);
    AddIsXor(Xt(x), x);
    Triple11(x, Mul(3, x));
  }

  lemma Triple11(x: bv8, y: bv8)
    requires y == Add(Xt(x), x)
    ensures Mul(11, y) == Xt(Xt(Xt(Xt(x)))) ^ Xt(Xt(Xt(x))) ^ Xt(Xt(x)) ^ x
  {
    MulAddRight(11, Xt(x), x);
    Mul11(x);
    Mul11(Xt(x));
    Cancel11(x, Xt(x), Xt(Xt(x)), Xt(Xt(Xt(x))), Xt(Xt(Xt(Xt(x)))), Mul(11, Xt(x)), Mul(11, x));
  }

  lemma Cancel11(x0: bv8, x1: bv8, x2: bv8, x3: bv8, x4: bv8, p: bv8, q: bv8)
    requires p == x4 ^ x2 ^ x1 && q == x3 ^ x1 ^ x0
    ensures Add(p, q) == x4 ^ x3 ^ x2 ^ x0
  {
    AddIsXor(p, q);
  }

  lemma Twice13(x: bv8)
    ensures Mul(13, Mul(2, x)) == Xt(Xt(Xt(Xt(x)))) ^ Xt(Xt(Xt(x))) ^ Xt(x)
  {
    Mul2(x);
    Double13(x, Mul(2, x));
  }

  lemma Double13(x: bv8, y: bv8)
    requires y == Xt(x)
    ensures Mul(13, y) == Xt(Xt(Xt(Xt(x)))) ^ Xt(Xt(Xt(x))) ^ Xt(x)
  {
    Mul13(y);
  }

  lemma Thrice13(x: bv8)
    ensures Mul(13, Mul(3, x)) == Xt(Xt(Xt(Xt(x)))) ^ Xt(Xt(x)) ^ Xt(x) ^ x
  {
    Mul3(x);
    AddIsXor(Xt(x), x);
    Triple13(x, Mul(3, x));
  }

  lemma Triple13(x: bv8, y: bv8)
    requires y == Add(Xt(x), x)
    ensures Mul(13, y) == Xt(Xt(Xt(Xt(x)))) ^ Xt(Xt(x)) ^ Xt(x) ^ x
  {
    MulAddRight(13, Xt(x), x);
    Mul13(x);
    Mul13(Xt(x));
    Cancel13(x, Xt(x), Xt(Xt(x)), Xt(Xt(Xt(x))), Xt(Xt(Xt(Xt(x)))), Mul(13, Xt(x)), Mul(13, x));
  }

  lemma Cancel13(x0: bv8, x1: bv8, x2: bv8, x3: bv8, x4: bv8, p: bv8, q: bv8)
    requires p == x4 ^ x3 ^ x1 && q == x3 ^ x2 ^ x0
    ensures Add(p, q) == x4 ^ x2 ^ x1 ^ x0
  {
    AddIsXor(p, q);
  }

  lemma Twice14(x: bv8)
    ensures Mul(14, Mul(2, x)) == Xt(Xt(Xt(Xt(x)))) ^ Xt(Xt(Xt(x))) ^ Xt(Xt(x))
  {
    Mul2(x);
    Double14(x, Mul(2, x));
  }

  lemma Double14(x: bv8, y: bv8)
    requires y == Xt(x)
    ensures Mul(14, y) == Xt(Xt(Xt(Xt(x)))) ^ Xt(Xt(Xt(x))) ^ Xt(Xt(x))
  {
    Mul14(y);
  }

  lemma Thrice14(x: bv8)
    ensures Mul(14, Mul(3, x)) == Xt(Xt(Xt(Xt(x)))) ^ Xt(x)
  {
    Mul3(x);
    AddIsXor(Xt(x), x);
    Triple14(x, Mul(3, x));
  }

  lemma Triple14(x: bv8, y: bv8)
    requires y == Add(Xt(x), x)
    ensures Mul(14, y) == Xt(Xt(Xt(Xt(x)))) ^ Xt(x)
  {
    MulAddRight(14, Xt(x), x);
    Mul14(x);
    Mul14(Xt(x));
    Cancel14(x, Xt(x), Xt(Xt(x)), Xt(Xt(Xt(x))), Xt(Xt(Xt(Xt(x)))), Mul(14, Xt(x)), Mul(14, x));
  }

  lemma Cancel14(x0: bv8, x1: bv8, x2: bv8, x3: bv8, x4: bv8, p: bv8, q: bv8)
    requires p == x4 ^ x3 ^ x2 && q == x3 ^ x2 ^ x1
    ensures Add(p, q) == x4 ^ x1
  {
    AddIsXor(p, q);
  }

  // The entries of the product of the two matrices: it is the identity.

  lemma DiagonalSum(x0: bv8, x1: bv8, x2: bv8, x3: bv8, x4: bv8, p: bv8, q: bv8, r: bv8, s: bv8)
    requires p == x4 ^ x3 ^ x2 && q == x3 ^ x1 ^ x0
    requires r == x3 ^ x2 ^ x0 && s == x4 ^ x3 ^ x1 ^ x0
    ensures Add4(p, q, r, s) == x0
  {
    Add4IsXor(p, q, r, s);
  }

  lemma Diagonal(x: bv8)
    ensures Add4(Mul(14, Mul(2, x)), Mul(11, x), Mul(13, x), Mul(9, Mul(3, x))) == x
  {
    Twice14(x);
    Mul11(x);
    Mul13(x);
    Thrice9(x);
    DiagonalSum(x, Xt(x), Xt(Xt(x)), Xt(Xt(Xt(x))), Xt(Xt(Xt(Xt(x)))), Mul(14, Mul(2, x)), Mul(11, x), Mul(13, x), Mul(9, Mul(3, x)));
  }

  lemma OffDiagonal1Sum(x0: bv8, x1: bv8, x2: bv8, x3: bv8, x4: bv8, p: bv8, q: bv8, r: bv8, s: bv8)
    requires p == x4 ^ x1 && q == x4 ^ x2 ^ x1
    requires r == x3 ^ x2 ^ x0 && s == x3 ^ x0
    ensures Add4(p, q, r, s) == 0
  {
    Add4IsXor(p, q, r, s);
  }

  lemma OffDiagonal1(x: bv8)
    ensures Add4(Mul(14, Mul(3, x)), Mul(11, Mul(2, x)), Mul(13, x), Mul(9, x)) == 0
  {
    Thrice14(x);
    Twice11(x);
    Mul13(x);
    Mul9(x);
    OffDiagonal1Sum(x, Xt(x), Xt(Xt(x)), Xt(Xt(Xt(x))), Xt(Xt(Xt(Xt(x)))), Mul(14, Mul(3, x)), Mul(11, Mul(2, x)), Mul(13, x), Mul(9, x));
  }

  lemma OffDiagonal2Sum(x0: bv8, x1: bv8, x2: bv8, x3: bv8, x4: bv8, p: bv8, q: bv8, r: bv8, s: bv8)
    requires p == x3 ^ x2 ^ x1 && q == x4 ^ x3 ^ x2 ^ x0
    requires r == x4 ^ x3 ^ x1 && s == x3 ^ x0
    ensures Add4(p, q, r, s) == 0
  {
    Add4IsXor(p, q, r, s);
  }

  lemma OffDiagonal2(x: bv8)
    ensures Add4(Mul(14, x), Mul(11, Mul(3, x)), Mul(13, Mul(2, x)), Mul(9, x)) == 0
  {
    Mul14(x);
    Thrice11(x);
    Twice13(x);
    Mul9(x);
    OffDiagonal2Sum(x, Xt(x), Xt(Xt(x)), Xt(Xt(Xt(x))), Xt(Xt(Xt(Xt(x)))), Mul(14, x), Mul(11, Mul(3, x)), Mul(13, Mul(2, x)), Mul(9, x));
  }

  lemma OffDiagonal3Sum(x0: bv8, x1: bv8, x2: bv8, x3: bv8, x4: bv8, p: bv8, q: bv8, r: bv8, s: bv8)
    requires p == x3 ^ x2 ^ x1 && q == x3 ^ x1 ^ x0
    requires r == x4 ^ x2 ^ x1 ^ x0 && s == x4 ^ x1
    ensures Add4(p, q, r, s) == 0
  {
    Add4IsXor(p, q, r, s);
  }

  lemma OffDiagonal3(x: bv8)
    ensures Add4(Mul(14, x), Mul(11, x), Mul(13, Mul(3, x)), Mul(9, Mul(2, x))) == 0
  {
    Mul14(x);
    Mul11(x);
    Thrice13(x);
    Twice9(x);
    OffDiagonal3Sum(x, Xt(x), Xt(Xt(x)), Xt(Xt(Xt(x))), Xt(Xt(Xt(Xt(x)))), Mul(14, x), Mul(11, x), Mul(13, Mul(3, x)), Mul(9, Mul(2, x)));
  }

  lemma AddRotate(p: bv8, q: bv8, r: bv8, s: bv8)
    ensures Add4(p, q, r, s) == Add4(s, p, q, r)
  {
    Add4IsXor(p, q, r, s);
    Add4IsXor(s, p, q, r);
  }

  lemma Transpose(p1: bv8, p2: bv8, p3: bv8, p4: bv8, q1: bv8, q2: bv8, q3: bv8, q4: bv8,
                  r1: bv8, r2: bv8, r3: bv8, r4: bv8, s1: bv8, s2: bv8, s3: bv8, s4: bv8)
    ensures Add4(Add4(p1, p2, p3, p4), Add4(q1, q2, q3, q4), Add4(r1, r2, r3, r4), Add4(s1, s2, s3, s4)) ==
      Add4(Add4(p1, q1, r1, s1), Add4(p2, q2, r2, s2), Add4(p3, q3, r3, s3), Add4(p4, q4, r4, s4))
  {
    Zip4(p1, p2, p3, p4, q1, q2, q3, q4);
    Zip4(r1, r2, r3, r4, s1, s2, s3, s4);
    Zip4(Add(p1, q1), Add(p2, q2), Add(p3, q3), Add(p4, q4), Add(r1, s1), Add(r2, s2), Add(r3, s3), Add(r4, s4));
  }

  lemma Zeros(a: bv8)
    ensures Add4(a, 0, 0, 0) == a
  {
  }

  /** One row of the product of the two matrices. */
  lemma MixRow(a: bv8, b: bv8, c: bv8, d: bv8)
    ensures InvMixByte(MixByte(a, b, c, d), MixByte(b, c, d, a), MixByte(c, d, a, b), MixByte(d, a, b, c)) == a
  {
    MulAdd4(14, Mul(2, a), Mul(3, b), c, d);
    MulAdd4(11, Mul(2, b), Mul(3, c), d, a);
    AddRotate(Mul(11, Mul(2, b)), Mul(11, Mul(3, c)), Mul(11, d), Mul(11, a));
    MulAdd4(13, Mul(2, c), Mul(3, d), a, b);
    AddRotate(Mul(13, Mul(2, c)), Mul(13, Mul(3, d)), Mul(13, a), Mul(13, b));
    AddRotate(Mul(13, b), Mul(13, Mul(2, c)), Mul(13, Mul(3, d)), Mul(13, a));
    MulAdd4(9, Mul(2, d), Mul(3, a), b, c);
    AddRotate(Mul(9, c), Mul(9, Mul(2, d)), Mul(9, Mul(3, a)), Mul(9, b));
    AddRotate(Mul(9, Mul(2, d)), Mul(9, Mul(3, a)), Mul(9, b), Mul(9, c));
    AddRotate(Mul(9, b), Mul(9, c), Mul(9, Mul(2, d)), Mul(9, Mul(3, a)));
    Transpose(Mul(14, Mul(2, a)), Mul(14, Mul(3, b)), Mul(14, c), Mul(14, d),
      Mul(11, a), Mul(11, Mul(2, b)), Mul(11, Mul(3, c)), Mul(11, d),
      Mul(13, a), Mul(13, b), Mul(13, Mul(2, c)), Mul(13, Mul(3, d)),
      Mul(9, Mul(3, a)), Mul(9, b), Mul(9, c), Mul(9, Mul(2, d)));
    Diagonal(a);
    OffDiagonal1(b);
    OffDiagonal2(c);
    OffDiagonal3(d);
    Zeros(a);
  }

  lemma MixInverse(v: Col)
    ensures InvMix(Mix(v)) == v
  {
    MixRow(v.a, v.b, v.c, v.d);
    MixRow(v.b, v.c, v.d, v.a);
    MixRow(v.c, v.d, v.a, v.b);
    MixRow(v.d, v.a, v.b, v.c);
  }

  lemma InvMixByteAdd(a: bv8, b: bv8, c: bv8, d: bv8, a': bv8, b': bv8, c': bv8, d': bv8)
    ensures InvMixByte(Add(a, a'), Add(b, b'), Add(c, c'), Add(d, d')) ==
      Add(InvMixByte(a, b, c, d), InvMixByte(a', b', c', d'))
  {
    MulAddRight(14, a, a');
    MulAddRight(11, b, b');
    MulAddRight(13, c, c');
    MulAddRight(9, d, d');
    Zip4(Mul(14, a), Mul(11, b), Mul(13, c), Mul(9, d), Mul(14, a'), Mul(11, b'), Mul(13, c'), Mul(9, d'));
  }

  lemma InvMixPlus(v: Col, w: Col)
    ensures InvMix(Plus(v, w)) == Plus(InvMix(v), InvMix(w))
  {
    InvMixByteAdd(v.a, v.b, v.c, v.d, w.a, w.b, w.c, w.d);
    InvMixByteAdd(v.b, v.c, v.d, v.a, w.b, w.c, w.d, w.a);
    InvMixByteAdd(v.c, v.d, v.a, v.b, w.c, w.d, w.a, w.b);
    InvMixByteAdd(v.d, v.a, v.b, v.c, w.d, w.a, w.b, w.c);
  }

  lemma PlusCancels(v: Col, w: Col)
    ensures Plus(Plus(v, w), w) == v
  {
  }

  // ---------------------------------------------------------------- the rounds

  ghost function SubCol(v: Col): Col { Col(Sub(v.a), Sub(v.b), Sub(v.c), Sub(v.d)) }

  ghost function InvSubCol(v: Col): Col { Col(InvSub(v.a), InvSub(v.b), InvSub(v.c), InvSub(v.d)) }

  ghost function SubBytes(s: State): State { State(SubCol(s.c0), SubCol(s.c1), SubCol(s.c2), SubCol(s.c3)) }

  ghost function InvSubBytes(s: State): State {
    State(InvSubCol(s.c0), InvSubCol(s.c1), InvSubCol(s.c2), InvSubCol(s.c3))
  }

  function ShiftRows(s: State): State {
    State(Col(s.c0.a, s.c1.b, s.c2.c, s.c3.d), Col(s.c1.a, s.c2.b, s.c3.c, s.c0.d),
          Col(s.c2.a, s.c3.b, s.c0.c, s.c1.d), Col(s.c3.a, s.c0.b, s.c1.c, s.c2.d))
  }

  function InvShiftRows(s: State): State {
    State(Col(s.c0.a, s.c3.b, s.c2.c, s.c1.d), Col(s.c1.a, s.c0.b, s.c3.c, s.c2.d),
          Col(s.c2.a, s.c1.b, s.c0.c, s.c3.d), Col(s.c3.a, s.c2.b, s.c1.c, s.c0.d))
  }

  function MixColumns(s: State): State { State(Mix(s.c0), Mix(s.c1), Mix(s.c2), Mix(s.c3)) }

  function InvMixColumns(s: State): State { State(InvMix(s.c0), InvMix(s.c1), InvMix(s.c2), InvMix(s.c3)) }

  function AddKey(s: State, k: State): State {
    State(Plus(s.c0, k.c0), Plus(s.c1, k.c1), Plus(s.c2, k.c2), Plus(s.c3, k.c3))
  }

  type Schedule = nat -> Col

  /** The round keys of a word schedule. */
  type Keys = nat -> State

  function Key(w: Schedule, r: nat): State { State(w(4 * r), w(4 * r + 1), w(4 * r + 2), w(4 * r + 3)) }

  ghost function SubShift(s: State): State { ShiftRows(SubBytes(s)) }

  ghost function InvShiftSub(s: State): State { InvSubBytes(InvShiftRows(s)) }

  ghost function FullRound(s: State, k: State): State { AddKey(MixColumns(SubShift(s)), k) }

  ghost function InvFullRound(s: State, k: State): State { InvMixColumns(AddKey(InvShiftSub(s), k)) }

  /** The cipher, figure 5. */
  ghost function Encrypt(key: Keys, nr: nat, s: State): State
    requires 0 < nr
  {
    AddKey(SubShift(Up(FullRound, key, AddKey(s, key(0)), nr - 1)), key(nr))
  }

  /** The inverse cipher, figure 12. */
  ghost function Decrypt(key: Keys, nr: nat, s: State): State
    requires 0 < nr
  {
    AddKey(InvShiftSub(Down(InvFullRound, key, nr, AddKey(s, key(nr)), nr - 1)), key(0))
  }

  lemma SubColInverse(v: Col)
    ensures InvSubCol(SubCol(v)) == v
  {
    SubInverse(v.a);
    SubInverse(v.b);
    SubInverse(v.c);
    SubInverse(v.d);
  }

  /** InvShiftRows and InvSubBytes undo SubBytes and ShiftRows. */
  lemma Unshift(s: State)
    ensures InvShiftSub(SubShift(s)) == s
  {
    SubColInverse(s.c0);
    SubColInverse(s.c1);
    SubColInverse(s.c2);
    SubColInverse(s.c3);
  }

  lemma AddKeyTwice(s: State, k: State)
    ensures AddKey(AddKey(s, k), k) == s
  {
    PlusCancels(s.c0, k.c0);
    PlusCancels(s.c1, k.c1);
    PlusCancels(s.c2, k.c2);
    PlusCancels(s.c3, k.c3);
  }

  lemma MixColumnsInverse(s: State)
    ensures InvMixColumns(MixColumns(s)) == s
  {
    MixInverse(s.c0);
    MixInverse(s.c1);
    MixInverse(s.c2);
    MixInverse(s.c3);
  }

  /** One decryption round takes back one encryption round. */
  lemma RoundInverse(t: State, k: State)
    ensures InvFullRound(SubShift(FullRound(t, k)), k) == SubShift(t)
  {
    Unshift(FullRound(t, k));
    UndoRound(SubShift(t), MixColumns(SubShift(t)), k, FullRound(t, k), InvShiftSub(SubShift(FullRound(t, k))));
  }

  lemma UndoRound(u: State, m: State, k: State, x: State, y: State)
    requires m == MixColumns(u) && x == AddKey(m, k) && y == x
    ensures InvMixColumns(AddKey(y, k)) == u
  {
    AddKeyTwice(m, k);
    MixColumnsInverse(u);
  }

  lemma RoundsUndo()
    ensures Undoes(FullRound, InvFullRound, SubShift)
  {
    forall t, k ensures InvFullRound(SubShift(FullRound(t, k)), k) == SubShift(t) {
      RoundInverse(t, k);
    }
  }

  lemma Middle(key: Keys, nr: nat, s: State)
    requires 0 < nr
    ensures Down(InvFullRound, key, nr, SubShift(Up(FullRound, key, s, nr - 1)), nr - 1) == SubShift(s)
  {
    RoundsUndo();
    MeetEnd(FullRound, InvFullRound, SubShift, key, nr, s);
  }

  /** Decryption undoes encryption, for every schedule and number of rounds. */
  lemma DecryptEncrypt(key: Keys, nr: nat, s: State)
    requires 0 < nr
    ensures Decrypt(key, nr, Encrypt(key, nr, s)) == s
  {
    var s0 := AddKey(s, key(0));
    AddKeyTwice(SubShift(Up(FullRound, key, s0, nr - 1)), key(nr));
    Middle(key, nr, s0);
    Unshift(s0);
    AddKeyTwice(s, key(0));
  }

  // ---------------------------------------------------------------- the equivalent inverse cipher

  /** A round in the order of section 5.3.5, with the round key passed through InvMixColumns. */
  ghost function EqRound(s: State, k: State): State { AddKey(InvMixColumns(InvShiftSub(s)), InvMixColumns(k)) }

  lemma InvMixAddKey(s: State, k: State)
    ensures InvMixColumns(AddKey(s, k)) == AddKey(InvMixColumns(s), InvMixColumns(k))
  {
    InvMixPlus(s.c0, k.c0);
    InvMixPlus(s.c1, k.c1);
    InvMixPlus(s.c2, k.c2);
    InvMixPlus(s.c3, k.c3);
  }

  lemma EqRoundSame(s: State, k: State)
    ensures EqRound(s, k) == InvFullRound(s, k)
  {
    InvMixAddKey(InvShiftSub(s), k);
  }

  lemma EqRoundsSame()
    ensures Same(EqRound, InvFullRound)
  {
    forall t, k ensures EqRound(t, k) == InvFullRound(t, k) {
      EqRoundSame(t, k);
    }
  }

  /** The rounds of the equivalent inverse cipher compute those of the inverse cipher. */
  lemma EquivalentInverse(key: Keys, nr: nat, s: State, j: nat)
    requires j <= nr
    ensures Down(EqRound, key, nr, s, j) == Down(InvFullRound, key, nr, s, j)
  {
    EqRoundsSame();
    DownSame(EqRound, InvFullRound, key, nr, s, j);
  }
}
