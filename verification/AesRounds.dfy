/** The table-driven rounds of the AES code, word by word. */
module AesRounds {
  import opened Gf256
  import opened AesSpec
  import opened AesWords
  import opened AesTables

  // ---------------------------------------------------------------- sums of turned columns

  function Sum4(p: Col, q: Col, r: Col, s: Col): Col { Plus(Plus(Plus(p, q), r), s) }

  lemma Chain4(p: bv8, q: bv8, r: bv8, s: bv8)
    ensures Add(Add(Add(p, q), r), s) == p ^ q ^ r ^ s
  {
    Flat3(p, q, r);
    AddIsXor(r ^ q ^ p, s);
  }

  lemma ChainTurn(p: bv8, q: bv8, r: bv8, s: bv8)
    ensures Add(Add(Add(p, q), r), s) == Add4(p, q, r, s)
    ensures Add(Add(Add(p, q), r), s) == Add4(q, r, s, p)
    ensures Add(Add(Add(p, q), r), s) == Add4(r, s, p, q)
    ensures Add(Add(Add(p, q), r), s) == Add4(s, p, q, r)
  {
    Chain4(p, q, r, s);
    Add4IsXor(p, q, r, s);
    Add4IsXor(q, r, s, p);
    Add4IsXor(r, s, p, q);
    Add4IsXor(s, p, q, r);
  }

  /** MixColumns from the four forward table entries. */
  lemma MixFromTurns(s0: bv8, s1: bv8, s2: bv8, s3: bv8)
    ensures Sum4(FtCol(s0), Turn3(FtCol(s1)), Turn2(FtCol(s2)), Turn1(FtCol(s3))) == Mix(Col(s0, s1, s2, s3))
  {
    ChainTurn(Mul(2, s0), Mul(3, s1), s2, s3);
    ChainTurn(s0, Mul(2, s1), Mul(3, s2), s3);
    ChainTurn(s0, s1, Mul(2, s2), Mul(3, s3));
    ChainTurn(Mul(3, s0), s1, s2, Mul(2, s3));
  }

  /** InvMixColumns from the four inverse table entries. */
  lemma InvMixFromTurns(q0: bv8, q1: bv8, q2: bv8, q3: bv8)
    ensures Sum4(ItCol(q0), Turn3(ItCol(q1)), Turn2(ItCol(q2)), Turn1(ItCol(q3))) == InvMix(Col(q0, q1, q2, q3))
  {
    ChainTurn(Mul(14, q0), Mul(11, q1), Mul(13, q2), Mul(9, q3));
    ChainTurn(Mul(9, q0), Mul(14, q1), Mul(11, q2), Mul(13, q3));
    ChainTurn(Mul(13, q0), Mul(9, q1), Mul(14, q2), Mul(11, q3));
    ChainTurn(Mul(11, q0), Mul(13, q1), Mul(9, q2), Mul(14, q3));
  }

  lemma PlainFromTurns(s0: bv8, s1: bv8, s2: bv8, s3: bv8)
    ensures Sum4(Col(s0, 0, 0, 0), Turn3(Col(s1, 0, 0, 0)), Turn2(Col(s2, 0, 0, 0)), Turn1(Col(s3, 0, 0, 0))) == Col(s0, s1, s2, s3)
  {
  }

  // ---------------------------------------------------------------- table lookups

  /** The entries for the bytes 0, 1, 2, 3 of four words, combined. */
  function Lookup(tab: Table, w0: bv32, w1: bv32, w2: bv32, w3: bv32): bv32
  {
    Xor(Xor(Xor(tab(Byte0(w0)).t0, tab(Byte1(w1)).t1), tab(Byte2(w2)).t2), tab(Byte3(w3)).t3)
  }

  lemma XorFour(p: bv32, q: bv32, r: bv32, s: bv32, a: Col, b: Col, c: Col, d: Col)
    requires ColOf(p) == a && ColOf(q) == b && ColOf(r) == c && ColOf(s) == d
    ensures ColOf(Xor(Xor(Xor(p, q), r), s)) == Sum4(a, b, c, d)
  {
    XorCols(p, q);
    XorCols(Xor(p, q), r);
    XorCols(Xor(Xor(p, q), r), s);
  }

  lemma FtPart(t: Tables, x: bv8)
    requires TablesOk(t)
    ensures ColOf(t.ft(x).t0) == FtCol(Sub(x)) && ColOf(t.ft(x).t1) == Turn3(FtCol(Sub(x)))
    ensures ColOf(t.ft(x).t2) == Turn2(FtCol(Sub(x))) && ColOf(t.ft(x).t3) == Turn1(FtCol(Sub(x)))
  {
    assert FtOk(t.ft(x), x);
    var q := t.ft(x);
    assert q.t0 == Part(q, 0) && q.t1 == Part(q, 1) && q.t2 == Part(q, 2) && q.t3 == Part(q, 3);
  }

  lemma FtLookup(t: Tables, w0: bv32, w1: bv32, w2: bv32, w3: bv32)
    requires TablesOk(t)
    ensures ColOf(Lookup(t.ft, w0, w1, w2, w3)) == Mix(SubCol(Col(Byte0(w0), Byte1(w1), Byte2(w2), Byte3(w3))))
  {
    FtPart(t, Byte0(w0));
    FtPart(t, Byte1(w1));
    FtPart(t, Byte2(w2));
    FtPart(t, Byte3(w3));
    XorFour(t.ft(Byte0(w0)).t0, t.ft(Byte1(w1)).t1, t.ft(Byte2(w2)).t2, t.ft(Byte3(w3)).t3,
      FtCol(Sub(Byte0(w0))), Turn3(FtCol(Sub(Byte1(w1)))), Turn2(FtCol(Sub(Byte2(w2)))), Turn1(FtCol(Sub(Byte3(w3)))));
    MixFromTurns(Sub(Byte0(w0)), Sub(Byte1(w1)), Sub(Byte2(w2)), Sub(Byte3(w3)));
  }

  lemma FlPart(t: Tables, x: bv8)
    requires TablesOk(t)
    ensures ColOf(t.fl(x).t0) == Col(Sub(x), 0, 0, 0) && ColOf(t.fl(x).t1) == Turn3(Col(Sub(x), 0, 0, 0))
    ensures ColOf(t.fl(x).t2) == Turn2(Col(Sub(x), 0, 0, 0)) && ColOf(t.fl(x).t3) == Turn1(Col(Sub(x), 0, 0, 0))
  {
    assert FlOk(t.fl(x), x);
    var q := t.fl(x);
    assert q.t0 == Part(q, 0) && q.t1 == Part(q, 1) && q.t2 == Part(q, 2) && q.t3 == Part(q, 3);
  }

  lemma FlLookup(t: Tables, w0: bv32, w1: bv32, w2: bv32, w3: bv32)
    requires TablesOk(t)
    ensures ColOf(Lookup(t.fl, w0, w1, w2, w3)) == SubCol(Col(Byte0(w0), Byte1(w1), Byte2(w2), Byte3(w3)))
  {
    FlPart(t, Byte0(w0));
    FlPart(t, Byte1(w1));
    FlPart(t, Byte2(w2));
    FlPart(t, Byte3(w3));
    XorFour(t.fl(Byte0(w0)).t0, t.fl(Byte1(w1)).t1, t.fl(Byte2(w2)).t2, t.fl(Byte3(w3)).t3,
      Col(Sub(Byte0(w0)), 0, 0, 0), Turn3(Col(Sub(Byte1(w1)), 0, 0, 0)), Turn2(Col(Sub(Byte2(w2)), 0, 0, 0)), Turn1(Col(Sub(Byte3(w3)), 0, 0, 0)));
    PlainFromTurns(Sub(Byte0(w0)), Sub(Byte1(w1)), Sub(Byte2(w2)), Sub(Byte3(w3)));
  }

  lemma IlPart(t: Tables, x: bv8)
    requires TablesOk(t)
    ensures ColOf(t.il(x).t0) == Col(InvSub(x), 0, 0, 0) && ColOf(t.il(x).t1) == Turn3(Col(InvSub(x), 0, 0, 0))
    ensures ColOf(t.il(x).t2) == Turn2(Col(InvSub(x), 0, 0, 0)) && ColOf(t.il(x).t3) == Turn1(Col(InvSub(x), 0, 0, 0))
  {
    assert IlOk(t.il(x), x);
    var q := t.il(x);
    assert q.t0 == Part(q, 0) && q.t1 == Part(q, 1) && q.t2 == Part(q, 2) && q.t3 == Part(q, 3);
  }

  lemma IlLookup(t: Tables, w0: bv32, w1: bv32, w2: bv32, w3: bv32)
    requires TablesOk(t)
    ensures ColOf(Lookup(t.il, w0, w1, w2, w3)) == InvSubCol(Col(Byte0(w0), Byte1(w1), Byte2(w2), Byte3(w3)))
  {
    IlPart(t, Byte0(w0));
    IlPart(t, Byte1(w1));
    IlPart(t, Byte2(w2));
    IlPart(t, Byte3(w3));
    XorFour(t.il(Byte0(w0)).t0, t.il(Byte1(w1)).t1, t.il(Byte2(w2)).t2, t.il(Byte3(w3)).t3,
      Col(InvSub(Byte0(w0)), 0, 0, 0), Turn3(Col(InvSub(Byte1(w1)), 0, 0, 0)), Turn2(Col(InvSub(Byte2(w2)), 0, 0, 0)), Turn1(Col(InvSub(Byte3(w3)), 0, 0, 0)));
    PlainFromTurns(InvSub(Byte0(w0)), InvSub(Byte1(w1)), InvSub(Byte2(w2)), InvSub(Byte3(w3)));
  }

  lemma ItTurned(q: Quad, x: bv8, k: nat)
    requires ItOk(q, x) && k < 4
    ensures ColOf(Part(q, k)) == Turned(ItCol(InvSub(x)), k)
  {
  }

  lemma ItPart(t: Tables, x: bv8)
    requires TablesOk(t)
    ensures ColOf(t.it(x).t0) == ItCol(InvSub(x)) && ColOf(t.it(x).t1) == Turn3(ItCol(InvSub(x)))
    ensures ColOf(t.it(x).t2) == Turn2(ItCol(InvSub(x))) && ColOf(t.it(x).t3) == Turn1(ItCol(InvSub(x)))
  {
    assert ItOk(t.it(x), x);
    var q := t.it(x);
    ItTurned(q, x, 0);
    ItTurned(q, x, 1);
    ItTurned(q, x, 2);
    ItTurned(q, x, 3);
  }

  lemma ItLookup(t: Tables, w0: bv32, w1: bv32, w2: bv32, w3: bv32)
    requires TablesOk(t)
    ensures ColOf(Lookup(t.it, w0, w1, w2, w3)) == InvMix(InvSubCol(Col(Byte0(w0), Byte1(w1), Byte2(w2), Byte3(w3))))
  {
    ItPart(t, Byte0(w0));
    ItPart(t, Byte1(w1));
    ItPart(t, Byte2(w2));
    ItPart(t, Byte3(w3));
    XorFour(t.it(Byte0(w0)).t0, t.it(Byte1(w1)).t1, t.it(Byte2(w2)).t2, t.it(Byte3(w3)).t3,
      ItCol(InvSub(Byte0(w0))), Turn3(ItCol(InvSub(Byte1(w1)))), Turn2(ItCol(InvSub(Byte2(w2)))), Turn1(ItCol(InvSub(Byte3(w3)))));
    InvMixFromTurns(InvSub(Byte0(w0)), InvSub(Byte1(w1)), InvSub(Byte2(w2)), InvSub(Byte3(w3)));
  }

  /** ls_box: the S-box on the four bytes of a word. */
  function LsBox(t: Tables, x: bv32): bv32
  {
    Lookup(t.fl, x, x, x, x)
  }

  lemma LsBoxIsSub(t: Tables, x: bv32)
    requires TablesOk(t)
    ensures ColOf(LsBox(t, x)) == SubCol(ColOf(x))
  {
    FlLookup(t, x, x, x, x);
  }

  // ---------------------------------------------------------------- rounds on four words

  function StateOf(b: seq<bv32>): State
    requires |b| == 4
  {
    State(ColOf(b[0]), ColOf(b[1]), ColOf(b[2]), ColOf(b[3]))
  }

  /** One word of a round: lookups in the words `w0..w3` of the block, and a key word. */
  function RoundWord(tab: Table, w0: bv32, w1: bv32, w2: bv32, w3: bv32, k: bv32): bv32
  {
    Xor(Lookup(tab, w0, w1, w2, w3), k)
  }

  /** f_nround and f_lround: the rows move left. */
  function ForwardRound(tab: Table, b: seq<bv32>, k: seq<bv32>): (r: seq<bv32>)
    requires |b| == 4 && |k| == 4
    ensures |r| == 4
  {
    [RoundWord(tab, b[0], b[1], b[2], b[3], k[0]), RoundWord(tab, b[1], b[2], b[3], b[0], k[1]),
     RoundWord(tab, b[2], b[3], b[0], b[1], k[2]), RoundWord(tab, b[3], b[0], b[1], b[2], k[3])]
  }

  /** i_nround and i_lround: the rows move right. */
  function BackwardRound(tab: Table, b: seq<bv32>, k: seq<bv32>): (r: seq<bv32>)
    requires |b| == 4 && |k| == 4
    ensures |r| == 4
  {
    [RoundWord(tab, b[0], b[3], b[2], b[1], k[0]), RoundWord(tab, b[1], b[0], b[3], b[2], k[1]),
     RoundWord(tab, b[2], b[1], b[0], b[3], k[2]), RoundWord(tab, b[3], b[2], b[1], b[0], k[3])]
  }

  lemma RoundWordCol(tab: Table, w0: bv32, w1: bv32, w2: bv32, w3: bv32, k: bv32, v: Col)
    requires ColOf(Lookup(tab, w0, w1, w2, w3)) == v
    ensures ColOf(RoundWord(tab, w0, w1, w2, w3, k)) == Plus(v, ColOf(k))
  {
    XorCols(Lookup(tab, w0, w1, w2, w3), k);
  }

  lemma FullRoundWords(t: Tables, b: seq<bv32>, k: seq<bv32>)
    requires TablesOk(t) && |b| == 4 && |k| == 4
    ensures StateOf(ForwardRound(t.ft, b, k)) == FullRound(StateOf(b), StateOf(k))
  {
    FtLookup(t, b[0], b[1], b[2], b[3]);
    RoundWordCol(t.ft, b[0], b[1], b[2], b[3], k[0], Mix(SubCol(Col(Byte0(b[0]), Byte1(b[1]), Byte2(b[2]), Byte3(b[3])))));
    FtLookup(t, b[1], b[2], b[3], b[0]);
    RoundWordCol(t.ft, b[1], b[2], b[3], b[0], k[1], Mix(SubCol(Col(Byte0(b[1]), Byte1(b[2]), Byte2(b[3]), Byte3(b[0])))));
    FtLookup(t, b[2], b[3], b[0], b[1]);
    RoundWordCol(t.ft, b[2], b[3], b[0], b[1], k[2], Mix(SubCol(Col(Byte0(b[2]), Byte1(b[3]), Byte2(b[0]), Byte3(b[1])))));
    FtLookup(t, b[3], b[0], b[1], b[2]);
    RoundWordCol(t.ft, b[3], b[0], b[1], b[2], k[3], Mix(SubCol(Col(Byte0(b[3]), Byte1(b[0]), Byte2(b[1]), Byte3(b[2])))));
  }

  lemma LastRoundWords(t: Tables, b: seq<bv32>, k: seq<bv32>)
    requires TablesOk(t) && |b| == 4 && |k| == 4
    ensures StateOf(ForwardRound(t.fl, b, k)) == AddKey(SubShift(StateOf(b)), StateOf(k))
  {
    FlLookup(t, b[0], b[1], b[2], b[3]);
    RoundWordCol(t.fl, b[0], b[1], b[2], b[3], k[0], SubCol(Col(Byte0(b[0]), Byte1(b[1]), Byte2(b[2]), Byte3(b[3]))));
    FlLookup(t, b[1], b[2], b[3], b[0]);
    RoundWordCol(t.fl, b[1], b[2], b[3], b[0], k[1], SubCol(Col(Byte0(b[1]), Byte1(b[2]), Byte2(b[3]), Byte3(b[0]))));
    FlLookup(t, b[2], b[3], b[0], b[1]);
    RoundWordCol(t.fl, b[2], b[3], b[0], b[1], k[2], SubCol(Col(Byte0(b[2]), Byte1(b[3]), Byte2(b[0]), Byte3(b[1]))));
    FlLookup(t, b[3], b[0], b[1], b[2]);
    RoundWordCol(t.fl, b[3], b[0], b[1], b[2], k[3], SubCol(Col(Byte0(b[3]), Byte1(b[0]), Byte2(b[1]), Byte3(b[2]))));
  }

  lemma EqRoundWords(t: Tables, b: seq<bv32>, k: seq<bv32>)
    requires TablesOk(t) && |b| == 4 && |k| == 4
    ensures StateOf(BackwardRound(t.it, b, k)) == AddKey(InvMixColumns(InvShiftSub(StateOf(b))), StateOf(k))
  {
    ItLookup(t, b[0], b[3], b[2], b[1]);
    RoundWordCol(t.it, b[0], b[3], b[2], b[1], k[0], InvMix(InvSubCol(Col(Byte0(b[0]), Byte1(b[3]), Byte2(b[2]), Byte3(b[1])))));
    ItLookup(t, b[1], b[0], b[3], b[2]);
    RoundWordCol(t.it, b[1], b[0], b[3], b[2], k[1], InvMix(InvSubCol(Col(Byte0(b[1]), Byte1(b[0]), Byte2(b[3]), Byte3(b[2])))));
    ItLookup(t, b[2], b[1], b[0], b[3]);
    RoundWordCol(t.it, b[2], b[1], b[0], b[3], k[2], InvMix(InvSubCol(Col(Byte0(b[2]), Byte1(b[1]), Byte2(b[0]), Byte3(b[3])))));
    ItLookup(t, b[3], b[2], b[1], b[0]);
    RoundWordCol(t.it, b[3], b[2], b[1], b[0], k[3], InvMix(InvSubCol(Col(Byte0(b[3]), Byte1(b[2]), Byte2(b[1]), Byte3(b[0])))));
  }

  lemma LastInvRoundWords(t: Tables, b: seq<bv32>, k: seq<bv32>)
    requires TablesOk(t) && |b| == 4 && |k| == 4
    ensures StateOf(BackwardRound(t.il, b, k)) == AddKey(InvShiftSub(StateOf(b)), StateOf(k))
  {
    IlLookup(t, b[0], b[3], b[2], b[1]);
    RoundWordCol(t.il, b[0], b[3], b[2], b[1], k[0], InvSubCol(Col(Byte0(b[0]), Byte1(b[3]), Byte2(b[2]), Byte3(b[1]))));
    IlLookup(t, b[1], b[0], b[3], b[2]);
    RoundWordCol(t.il, b[1], b[0], b[3], b[2], k[1], InvSubCol(Col(Byte0(b[1]), Byte1(b[0]), Byte2(b[3]), Byte3(b[2]))));
    IlLookup(t, b[2], b[1], b[0], b[3]);
    RoundWordCol(t.il, b[2], b[1], b[0], b[3], k[2], InvSubCol(Col(Byte0(b[2]), Byte1(b[1]), Byte2(b[0]), Byte3(b[3]))));
    IlLookup(t, b[3], b[2], b[1], b[0]);
    RoundWordCol(t.il, b[3], b[2], b[1], b[0], k[3], InvSubCol(Col(Byte0(b[3]), Byte1(b[2]), Byte2(b[1]), Byte3(b[0]))));
  }
}
