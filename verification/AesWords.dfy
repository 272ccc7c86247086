/** Columns packed into 32-bit words, low byte first, and the word tricks of the AES code. */
module AesWords {
  import opened Gf256
  import opened AesSpec

  function Word(a: bv8, b: bv8, c: bv8, d: bv8): bv32 {
    (a as bv32) | ((b as bv32) << 8) | ((c as bv32) << 16) | ((d as bv32) << 24)
  }

  function Byte0(x: bv32): bv8 { (x & 0xff) as bv8 }
  function Byte1(x: bv32): bv8 { ((x >> 8) & 0xff) as bv8 }
  function Byte2(x: bv32): bv8 { ((x >> 16) & 0xff) as bv8 }
  function Byte3(x: bv32): bv8 { ((x >> 24) & 0xff) as bv8 }

  function ColOf(x: bv32): Col { Col(Byte0(x), Byte1(x), Byte2(x), Byte3(x)) }

  function WordOf(v: Col): bv32 { Word(v.a, v.b, v.c, v.d) }

  lemma Bytes(a: bv8, b: bv8, c: bv8, d: bv8)
    ensures Byte0(Word(a, b, c, d)) == a && Byte1(Word(a, b, c, d)) == b
    ensures Byte2(Word(a, b, c, d)) == c && Byte3(Word(a, b, c, d)) == d
  {
  }

  lemma ColOfWord(v: Col)
    ensures ColOf(WordOf(v)) == v
  {
    Bytes(v.a, v.b, v.c, v.d);
  }

  function Xor(x: bv32, y: bv32): bv32 { x ^ y }

  /** Exclusive or of words is addition of columns. */
  lemma XorCols(x: bv32, y: bv32)
    ensures ColOf(Xor(x, y)) == Plus(ColOf(x), ColOf(y))
  {
  }

  // ---------------------------------------------------------------- rotations

  function Rotl8(x: bv32): bv32 { (x << 8) | (x >> 24) }
  function Rotl16(x: bv32): bv32 { (x << 16) | (x >> 16) }
  function Rotl24(x: bv32): bv32 { (x << 24) | (x >> 8) }
  function Rotr8(x: bv32): bv32 { (x >> 8) | (x << 24) }
  function Rotr16(x: bv32): bv32 { (x >> 16) | (x << 16) }
  function Rotr24(x: bv32): bv32 { (x >> 24) | (x << 8) }

  lemma Rotl8Col(x: bv32)
    ensures ColOf(Rotl8(x)) == Col(Byte3(x), Byte0(x), Byte1(x), Byte2(x))
  {
  }

  lemma Rotl16Col(x: bv32)
    ensures ColOf(Rotl16(x)) == Col(Byte2(x), Byte3(x), Byte0(x), Byte1(x))
  {
  }

  lemma Rotl24Col(x: bv32)
    ensures ColOf(Rotl24(x)) == Col(Byte1(x), Byte2(x), Byte3(x), Byte0(x))
  {
  }

  lemma Rotr8Col(x: bv32)
    ensures ColOf(Rotr8(x)) == Col(Byte1(x), Byte2(x), Byte3(x), Byte0(x))
  {
  }

  lemma Rotr16Col(x: bv32)
    ensures ColOf(Rotr16(x)) == Col(Byte2(x), Byte3(x), Byte0(x), Byte1(x))
  {
  }

  lemma Rotr24Col(x: bv32)
    ensures ColOf(Rotr24(x)) == Col(Byte3(x), Byte0(x), Byte1(x), Byte2(x))
  {
  }

  // ---------------------------------------------------------------- star_x and imix_col

  function StarX(x: bv32): bv32 { ((x & 0x7f7f7f7f) << 1) ^ (((x & 0x80808080) >> 7) * 0x1b) }

  lemma StarX0(x: bv32)
    ensures Byte0(StarX(x)) == Xt(Byte0(x))
  {
  }

  lemma StarX1(x: bv32)
    ensures Byte1(StarX(x)) == Xt(Byte1(x))
  {
  }

  lemma StarX2(x: bv32)
    ensures Byte2(StarX(x)) == Xt(Byte2(x))
  {
  }

  lemma StarX3(x: bv32)
    ensures Byte3(StarX(x)) == Xt(Byte3(x))
  {
  }

  function XtCol(v: Col): Col { Col(Xt(v.a), Xt(v.b), Xt(v.c), Xt(v.d)) }

  /** Four multiplications by x at once. */
  lemma StarXCol(x: bv32)
    ensures ColOf(StarX(x)) == XtCol(ColOf(x))
  {
    StarX0(x);
    StarX1(x);
    StarX2(x);
    StarX3(x);
  }

  /** Each rotation turns the column. */
  function Turn1(v: Col): Col { Col(v.b, v.c, v.d, v.a) }
  function Turn2(v: Col): Col { Col(v.c, v.d, v.a, v.b) }
  function Turn3(v: Col): Col { Col(v.d, v.a, v.b, v.c) }

  function Combine(u: bv32, v: bv32, w: bv32, t: bv32): bv32 {
    Xor(Xor(Xor(u, v), w), Xor(Xor(Rotr8(Xor(u, t)), Rotr16(Xor(v, t))), Rotr24(t)))
  }

  function ImixCol(x: bv32): bv32 {
    var u := StarX(x);
    var v := StarX(u);
    var w := StarX(v);
    Combine(u, v, w, Xor(w, x))
  }

  lemma Flat3(a: bv8, b: bv8, c: bv8)
    ensures Add(Add(a, b), c) == c ^ b ^ a
  {
  }

  lemma Flat3r(a: bv8, b: bv8, c: bv8)
    ensures Add(a, Add(b, c)) == b ^ a ^ c
  {
  }

  lemma Regroup(p: bv8, q: bv8, r: bv8, s: bv8)
    ensures Add(p, Add(Add(q, r), s)) == Add4(p, q, r, s)
  {
    Add4IsXor(p, q, r, s);
    Flat3(q, r, s);
    AddIsXor(p, s ^ r ^ q);
  }

  /** One byte of the combination, from the bytes of the operands. */
  lemma CombineByte(x0: bv8, x1: bv8, x2: bv8, x3: bv8)
    ensures Add(Add(Add(Xt(x0), Xt(Xt(x0))), Xt(Xt(Xt(x0)))),
      Add(Add(Add(Xt(x1), Add(Xt(Xt(Xt(x1))), x1)), Add(Xt(Xt(x2)), Add(Xt(Xt(Xt(x2))), x2))), Add(Xt(Xt(Xt(x3))), x3))) ==
      InvMixByte(x0, x1, x2, x3)
  {
    Mul14(x0);
    Flat3(Xt(x0), Xt(Xt(x0)), Xt(Xt(Xt(x0))));
    Mul11(x1);
    Flat3r(Xt(x1), Xt(Xt(Xt(x1))), x1);
    Mul13(x2);
    Flat3r(Xt(Xt(x2)), Xt(Xt(Xt(x2))), x2);
    Mul9(x3);
    AddIsXor(Xt(Xt(Xt(x3))), x3);
    Regroup(Mul(14, x0), Mul(11, x1), Mul(13, x2), Mul(9, x3));
  }

  lemma CombineCol(u: bv32, v: bv32, w: bv32, t: bv32, U: Col, V: Col, W: Col, T: Col)
    requires U == ColOf(u) && V == ColOf(v) && W == ColOf(w) && T == ColOf(t)
    ensures ColOf(Combine(u, v, w, t)) ==
      Plus(Plus(Plus(U, V), W), Plus(Plus(Turn1(Plus(U, T)), Turn2(Plus(V, T))), Turn3(T)))
  {
    XorCols(u, v);
    XorCols(Xor(u, v), w);
    XorCols(u, t);
    XorCols(v, t);
    Rotr8Col(Xor(u, t));
    Rotr16Col(Xor(v, t));
    Rotr24Col(t);
    XorCols(Rotr8(Xor(u, t)), Rotr16(Xor(v, t)));
    XorCols(Xor(Rotr8(Xor(u, t)), Rotr16(Xor(v, t))), Rotr24(t));
    XorCols(Xor(Xor(u, v), w), Xor(Xor(Rotr8(Xor(u, t)), Rotr16(Xor(v, t))), Rotr24(t)));
  }

  lemma ImixBytes(c: Col, U: Col, V: Col, W: Col)
    requires U == XtCol(c) && V == XtCol(U) && W == XtCol(V)
    ensures Plus(Plus(Plus(U, V), W), Plus(Plus(Turn1(Plus(U, Plus(W, c))), Turn2(Plus(V, Plus(W, c)))), Turn3(Plus(W, c)))) == InvMix(c)
  {
    CombineByte(c.a, c.b, c.c, c.d);
    CombineByte(c.b, c.c, c.d, c.a);
    CombineByte(c.c, c.d, c.a, c.b);
    CombineByte(c.d, c.a, c.b, c.c);
  }

  /** The packed imix_col is InvMixColumns on its column. */
  lemma ImixColIsInvMix(x: bv32)
    ensures ColOf(ImixCol(x)) == InvMix(ColOf(x))
  {
    var u := StarX(x);
    var v := StarX(u);
    var w := StarX(v);
    var c := ColOf(x);
    StarXCol(x);
    StarXCol(u);
    StarXCol(v);
    XorCols(w, x);
    CombineCol(u, v, w, Xor(w, x), XtCol(c), XtCol(XtCol(c)), XtCol(XtCol(XtCol(c))), Plus(XtCol(XtCol(XtCol(c))), c));
    ImixBytes(c, XtCol(c), XtCol(XtCol(c)), XtCol(XtCol(XtCol(c))));
  }
}
