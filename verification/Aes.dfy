/** aes_set_key, aes_encrypt and aes_decrypt. */
module Aes {
  import opened AesSpec
  import opened AesWords
  import opened AesTables
  import opened AesRounds
  import opened AesKeys
  import opened RoundChain

  type RoundFn = (State, State) -> State

  /** The four key words of round `r`. */
  function KeyAt(kw: seq<bv32>, r: nat): seq<bv32>
    requires 4 * r + 4 <= |kw|
  {
    [kw[4 * r], kw[4 * r + 1], kw[4 * r + 2], kw[4 * r + 3]]
  }

  /** Seen as states, a table round with the key words of round `r` is a round `f`. */
  ghost predicate Forwards(tab: Table, kw: seq<bv32>, f: RoundFn, key: Keys, nr: nat)
    requires 4 * nr + 4 <= |kw|
  {
    forall b: seq<bv32>, r: nat {:trigger ForwardRound(tab, b, KeyAt(kw, r))} :: |b| == 4 && r <= nr ==>
      StateOf(ForwardRound(tab, b, KeyAt(kw, r))) == f(StateOf(b), key(r))
  }

  ghost predicate Backwards(tab: Table, kw: seq<bv32>, g: RoundFn, key: Keys, nr: nat)
    requires 4 * nr <= |kw|
  {
    forall b: seq<bv32>, r: nat {:trigger BackwardRound(tab, b, KeyAt(kw, r))} :: |b| == 4 && 0 < r < nr ==>
      StateOf(BackwardRound(tab, b, KeyAt(kw, r))) == g(StateOf(b), key(r))
  }

  method StoreBlock(bo: array<bv32>, r: seq<bv32>)
    requires bo.Length == 4 == |r|
    modifies bo
    ensures bo[..] == r
  {
    bo[0], bo[1], bo[2], bo[3] := r[0], r[1], r[2], r[3];
  }

  /** f_nround: the words of `bo` from those of `bi` and four key words. */
  method NRound(tab: Table, bo: array<bv32>, bi: array<bv32>, ek: array<bv32>, kp: nat, ghost f: RoundFn, ghost key: Keys,
                ghost nr: nat, ghost s: State, ghost r: nat)
    requires bo.Length == bi.Length == 4 && bo != bi && bo != ek && r < nr && kp == 4 * r + 4 && 4 * nr + 4 <= ek.Length
    requires Forwards(tab, ek[..], f, key, nr) && StateOf(bi[..]) == Up(f, key, s, r)
    modifies bo
    ensures StateOf(bo[..]) == Up(f, key, s, r + 1)
  {
    var k := [ek[kp], ek[kp + 1], ek[kp + 2], ek[kp + 3]];
    assert k == KeyAt(ek[..], r + 1);
    UpStep(f, key, s, r, StateOf(bi[..]));
    StoreBlock(bo, ForwardRound(tab, bi[..], k));
  }

  method TwoRounds(tab: Table, b0: array<bv32>, b1: array<bv32>, ek: array<bv32>, kp: nat, ghost f: RoundFn, ghost key: Keys,
                   ghost nr: nat, ghost s: State, ghost r: nat) returns (kp': nat)
    requires b0.Length == b1.Length == 4 && b0 != b1 && b0 != ek && b1 != ek
    requires r + 1 < nr && kp == 4 * r + 4 && 4 * nr + 4 <= ek.Length
    requires Forwards(tab, ek[..], f, key, nr) && StateOf(b0[..]) == Up(f, key, s, r)
    modifies b0, b1
    ensures StateOf(b0[..]) == Up(f, key, s, r + 2) && kp' == kp + 8
  {
    NRound(tab, b1, b0, ek, kp, f, key, nr, s, r);
    NRound(tab, b0, b1, ek, kp + 4, f, key, nr, s, r + 1);
    kp' := kp + 8;
  }

  /** The number of rounds for a key of `n` bytes. */
  function NumRounds(n: nat): nat { n / 4 + 6 }

  /** The full rounds of aes_encrypt, ending in `b1`. */
  method ForwardRounds(tab: Table, b0: array<bv32>, b1: array<bv32>, ek: array<bv32>, keyLength: nat, ghost f: RoundFn,
                       ghost key: Keys, ghost s: State) returns (kp: nat)
    requires b0.Length == b1.Length == 4 && b0 != b1 && b0 != ek && b1 != ek && KeyLength(keyLength) && ek.Length == 120
    requires Forwards(tab, ek[..], f, key, NumRounds(keyLength)) && StateOf(b0[..]) == s
    modifies b0, b1
    ensures StateOf(b1[..]) == Up(f, key, s, NumRounds(keyLength) - 1) && kp == 4 * NumRounds(keyLength)
  {
    ghost var nr, r := NumRounds(keyLength), 0;
    kp := 4;
    if keyLength > 24 {
      kp := TwoRounds(tab, b0, b1, ek, kp, f, key, nr, s, r);
      r := r + 2;
    }
    if keyLength > 16 {
      kp := TwoRounds(tab, b0, b1, ek, kp, f, key, nr, s, r);
      r := r + 2;
    }
    kp := TwoRounds(tab, b0, b1, ek, kp, f, key, nr, s, r);
    kp := TwoRounds(tab, b0, b1, ek, kp, f, key, nr, s, r + 2);
    kp := TwoRounds(tab, b0, b1, ek, kp, f, key, nr, s, r + 4);
    kp := TwoRounds(tab, b0, b1, ek, kp, f, key, nr, s, r + 6);
    NRound(tab, b1, b0, ek, kp, f, key, nr, s, r + 8);
    kp := kp + 4;
  }

  /** i_nround, with the decryption key words of round `nr - j - 1`. */
  method InvNRound(tab: Table, bo: array<bv32>, bi: array<bv32>, ek: array<bv32>, kp: nat, ghost g: RoundFn, ghost key: Keys,
                   ghost nr: nat, ghost s: State, ghost j: nat)
    requires bo.Length == bi.Length == 4 && bo != bi && bo != ek && j + 1 < nr && ek.Length == 120 && nr <= 15
    requires kp == 60 + 4 * (nr - j - 1)
    requires Backwards(tab, ek[60..], g, key, nr) && StateOf(bi[..]) == Down(g, key, nr, s, j)
    modifies bo
    ensures StateOf(bo[..]) == Down(g, key, nr, s, j + 1)
  {
    var k := [ek[kp], ek[kp + 1], ek[kp + 2], ek[kp + 3]];
    assert k == KeyAt(ek[60..], nr - j - 1);
    DownStep(g, key, nr, s, j, StateOf(bi[..]));
    StoreBlock(bo, BackwardRound(tab, bi[..], k));
  }

  method TwoInvRounds(tab: Table, b0: array<bv32>, b1: array<bv32>, ek: array<bv32>, kp: nat, ghost g: RoundFn, ghost key: Keys,
                      ghost nr: nat, ghost s: State, ghost j: nat) returns (kp': nat)
    requires b0.Length == b1.Length == 4 && b0 != b1 && b0 != ek && b1 != ek && ek.Length == 120
    requires j + 2 < nr <= 15 && kp == 60 + 4 * (nr - j - 1)
    requires Backwards(tab, ek[60..], g, key, nr) && StateOf(b0[..]) == Down(g, key, nr, s, j)
    modifies b0, b1
    ensures StateOf(b0[..]) == Down(g, key, nr, s, j + 2) && kp' == kp - 8
  {
    InvNRound(tab, b1, b0, ek, kp, g, key, nr, s, j);
    InvNRound(tab, b0, b1, ek, kp - 4, g, key, nr, s, j + 1);
    kp' := kp - 8;
  }

  /** The full rounds of aes_decrypt, ending in `b1`. */
  method BackwardRounds(tab: Table, b0: array<bv32>, b1: array<bv32>, ek: array<bv32>, keyLength: nat, ghost g: RoundFn,
                        ghost key: Keys, ghost s: State) returns (kp: nat)
    requires b0.Length == b1.Length == 4 && b0 != b1 && b0 != ek && b1 != ek && KeyLength(keyLength) && ek.Length == 120
    requires Backwards(tab, ek[60..], g, key, NumRounds(keyLength)) && StateOf(b0[..]) == s
    modifies b0, b1
    ensures StateOf(b1[..]) == Down(g, key, NumRounds(keyLength), s, NumRounds(keyLength) - 1) && kp == 60
  {
    ghost var nr, j := NumRounds(keyLength), 0;
    kp := 60 + keyLength + 20;
    if keyLength > 24 {
      kp := TwoInvRounds(tab, b0, b1, ek, kp, g, key, nr, s, j);
      j := j + 2;
    }
    if keyLength > 16 {
      kp := TwoInvRounds(tab, b0, b1, ek, kp, g, key, nr, s, j);
      j := j + 2;
    }
    kp := TwoInvRounds(tab, b0, b1, ek, kp, g, key, nr, s, j);
    kp := TwoInvRounds(tab, b0, b1, ek, kp, g, key, nr, s, j + 2);
    kp := TwoInvRounds(tab, b0, b1, ek, kp, g, key, nr, s, j + 4);
    kp := TwoInvRounds(tab, b0, b1, ek, kp, g, key, nr, s, j + 6);
    InvNRound(tab, b1, b0, ek, kp, g, key, nr, s, j + 8);
    kp := kp - 4;
  }

  // ---------------------------------------------------------------- the schedule drives the rounds

  ghost function RoundKeys(w: Schedule): Keys { (r: nat) => Key(w, r) }

  lemma EncryptionKey(ek: seq<bv32>, w: Schedule, n: nat, r: nat)
    requires Expanded(ek, w, n) && 4 * r + 4 <= n
    ensures StateOf(KeyAt(ek, r)) == Key(w, r)
  {
    assert WordOk(ek, w, 4 * r) && WordOk(ek, w, 4 * r + 1) && WordOk(ek, w, 4 * r + 2) && WordOk(ek, w, 4 * r + 3);
  }

  lemma DecryptionKey(ek: seq<bv32>, w: Schedule, col: Schedule, nr: nat, r: nat)
    requires |ek| == 120 && StoredTo(ek, col, 4 * nr) && Inverted(w, col) && 0 < r < nr <= 15
    ensures StateOf(KeyAt(ek[60..], r)) == InvMixColumns(Key(w, r))
  {
    DecryptionWord(ek, w, col, 4 * nr, 4 * r);
    DecryptionWord(ek, w, col, 4 * nr, 4 * r + 1);
    DecryptionWord(ek, w, col, 4 * nr, 4 * r + 2);
    DecryptionWord(ek, w, col, 4 * nr, 4 * r + 3);
    FourWords(KeyAt(ek[60..], r), w(4 * r), w(4 * r + 1), w(4 * r + 2), w(4 * r + 3));
  }

  lemma FourWords(k: seq<bv32>, a: Col, b: Col, c: Col, d: Col)
    requires |k| == 4
    requires ColOf(k[0]) == InvMix(a) && ColOf(k[1]) == InvMix(b) && ColOf(k[2]) == InvMix(c) && ColOf(k[3]) == InvMix(d)
    ensures StateOf(k) == InvMixColumns(State(a, b, c, d))
  {
  }

  lemma DecryptionWord(ek: seq<bv32>, w: Schedule, col: Schedule, n: nat, j: nat)
    requires |ek| == 120 && StoredTo(ek, col, n) && Inverted(w, col) && 4 <= j < n <= 60
    ensures ColOf(ek[60..][j]) == InvMix(w(j))
  {
    assert Stored(ek, col, j) && InvertsAt(w, col, j);
  }

  lemma ForwardsHolds(t: Tables, ek: seq<bv32>, w: Schedule, nr: nat)
    requires TablesOk(t) && Expanded(ek, w, 4 * nr + 4)
    ensures Forwards(t.ft, ek, FullRound, RoundKeys(w), nr)
  {
    var key := RoundKeys(w);
    forall b: seq<bv32>, r: nat | |b| == 4 && r <= nr
      ensures StateOf(ForwardRound(t.ft, b, KeyAt(ek, r))) == FullRound(StateOf(b), key(r))
    {
      FullRoundWords(t, b, KeyAt(ek, r));
      EncryptionKey(ek, w, 4 * nr + 4, r);
    }
  }

  /** A decryption round with the transformed key is a round of the inverse cipher. */
  lemma InverseRound(t: Tables, b: seq<bv32>, k: seq<bv32>, kr: State)
    requires TablesOk(t) && |b| == 4 && |k| == 4 && StateOf(k) == InvMixColumns(kr)
    ensures StateOf(BackwardRound(t.it, b, k)) == InvFullRound(StateOf(b), kr)
  {
    EqRoundWords(t, b, k);
    EqRoundSame(StateOf(b), kr);
  }

  lemma BackwardsHolds(t: Tables, ek: seq<bv32>, w: Schedule, col: Schedule, nr: nat)
    requires TablesOk(t) && |ek| == 120 && StoredTo(ek, col, 4 * nr) && Inverted(w, col) && nr <= 15
    ensures Backwards(t.it, ek[60..], InvFullRound, RoundKeys(w), nr)
  {
    var key, dk := RoundKeys(w), ek[60..];
    forall b: seq<bv32>, r: nat | |b| == 4 && 0 < r < nr
      ensures StateOf(BackwardRound(t.it, b, KeyAt(dk, r))) == InvFullRound(StateOf(b), key(r))
    {
      DecryptionKey(ek, w, col, nr, r);
      InverseRound(t, b, KeyAt(dk, r), Key(w, r));
    }
  }

  // ---------------------------------------------------------------- blocks as bytes

  function InState(x: seq<bv8>): State
    requires |x| == 16
  {
    State(Col(x[0], x[1], x[2], x[3]), Col(x[4], x[5], x[6], x[7]),
          Col(x[8], x[9], x[10], x[11]), Col(x[12], x[13], x[14], x[15]))
  }

  /** u32_out on the four words of a block */
  function OutBytes(b: seq<bv32>): (r: seq<bv8>)
    requires |b| == 4
    ensures |r| == 16
  {
    [Byte0(b[0]), Byte1(b[0]), Byte2(b[0]), Byte3(b[0]), Byte0(b[1]), Byte1(b[1]), Byte2(b[1]), Byte3(b[1]),
     Byte0(b[2]), Byte1(b[2]), Byte2(b[2]), Byte3(b[2]), Byte0(b[3]), Byte1(b[3]), Byte2(b[3]), Byte3(b[3])]
  }

  lemma InOut(b: seq<bv32>)
    requires |b| == 4
    ensures InState(OutBytes(b)) == StateOf(b)
  {
  }

  lemma InInjective(x: seq<bv8>, y: seq<bv8>)
    requires |x| == 16 && |y| == 16 && InState(x) == InState(y)
    ensures x == y
  {
  }

  /** The block words with a round key added. */
  function Keyed(x: seq<bv8>, k: seq<bv32>): (r: seq<bv32>)
    requires |x| == 16 && |k| == 4
    ensures |r| == 4
  {
    [Xor(Word(x[0], x[1], x[2], x[3]), k[0]), Xor(Word(x[4], x[5], x[6], x[7]), k[1]),
     Xor(Word(x[8], x[9], x[10], x[11]), k[2]), Xor(Word(x[12], x[13], x[14], x[15]), k[3])]
  }

  lemma KeyedState(x: seq<bv8>, k: seq<bv32>)
    requires |x| == 16 && |k| == 4
    ensures StateOf(Keyed(x, k)) == AddKey(InState(x), StateOf(k))
  {
    KeyedWord(x[0], x[1], x[2], x[3], k[0]);
    KeyedWord(x[4], x[5], x[6], x[7], k[1]);
    KeyedWord(x[8], x[9], x[10], x[11], k[2]);
    KeyedWord(x[12], x[13], x[14], x[15], k[3]);
  }

  lemma KeyedWord(a: bv8, b: bv8, c: bv8, d: bv8, k: bv32)
    ensures ColOf(Xor(Word(a, b, c, d), k)) == Plus(Col(a, b, c, d), ColOf(k))
  {
    ColOfWord(Col(a, b, c, d));
    XorCols(Word(a, b, c, d), k);
  }

  // ---------------------------------------------------------------- the context

  const EINVAL: int := 22

  ghost function InvW(w: Schedule): Schedule { (i: nat) => InvMix(w(i)) }

  lemma InvWInverts(w: Schedule)
    ensures Inverted(w, InvW(w))
  {
  }

  class AesCtx {
    var keyLength: nat
    const ek: array<bv32>

    constructor ()
      ensures fresh(ek) && ek.Length == 120
    {
      ek := new bv32[120];
      keyLength := 0;
    }

    /** The context holds the schedules of `key`. */
    ghost predicate Holds(key: seq<bv8>)
      reads this, ek
    {
      KeyLength(|key|) && keyLength == |key| && Scheduled(ek[..], W(key), InvW(W(key)), |key|)
    }

    /** aes_set_key */
    method SetKey(t: Tables, key: seq<bv8>) returns (err: int)
      requires TablesOk(t) && ek.Length == 120
      modifies this, ek
      ensures err == if KeyLength(|key|) then 0 else -EINVAL
      ensures err == 0 ==> Holds(key)
      ensures err != 0 ==> keyLength == old(keyLength) && ek[..] == old(ek[..])
    {
      if !KeyLength(|key|) {
        return -EINVAL;
      }
      keyLength := |key|;
      WExpands(key);
      WStarts(key);
      ExpandKey(t, ek, key, W(key));
      InvWInverts(W(key));
      InvertKey(ek, |key|, W(key), InvW(W(key)));
      err := 0;
    }

    /** aes_encrypt: the cipher of FIPS 197 under the key expansion. */
    method EncryptBlock(t: Tables, x: seq<bv8>, ghost key: seq<bv8>) returns (y: seq<bv8>)
      requires TablesOk(t) && Holds(key) && |x| == 16
      ensures |y| == 16 && InState(y) == Encrypt(RoundKeys(W(key)), NumRounds(|key|), InState(x))
    {
      y := ForwardBlock(t, ek, keyLength, x, W(key));
    }

    /** aes_decrypt: the inverse cipher of FIPS 197 under the key expansion. */
    method DecryptBlock(t: Tables, x: seq<bv8>, ghost key: seq<bv8>) returns (y: seq<bv8>)
      requires TablesOk(t) && Holds(key) && |x| == 16
      ensures |y| == 16 && InState(y) == Decrypt(RoundKeys(W(key)), NumRounds(|key|), InState(x))
    {
      InvWInverts(W(key));
      y := BackwardBlock(t, ek, keyLength, x, W(key), InvW(W(key)));
    }
  }

  /** Seen as states, the last table round is `h` with the key added by `add`. */
  ghost predicate EndsWith(last: (seq<bv32>, seq<bv32>) -> seq<bv32>, h: State -> State, add: RoundFn) {
    forall b: seq<bv32>, k: seq<bv32> {:trigger last(b, k)} :: |b| == 4 && |k| == 4 ==>
      |last(b, k)| == 4 && StateOf(last(b, k)) == add(h(StateOf(b)), StateOf(k))
  }

  ghost predicate Adds(add: RoundFn) {
    forall x: seq<bv8>, k: seq<bv32> {:trigger Keyed(x, k)} :: |x| == 16 && |k| == 4 ==>
      StateOf(Keyed(x, k)) == add(InState(x), StateOf(k))
  }

  ghost predicate HoldsKeys(kw: seq<bv32>, key: Keys, nr: nat)
    requires 4 * nr + 4 <= |kw|
  {
    forall r: nat {:trigger KeyAt(kw, r)} :: r <= nr ==> StateOf(KeyAt(kw, r)) == key(r)
  }

  function FlRound(t: Tables): (seq<bv32>, seq<bv32>) -> seq<bv32> {
    (b, k) => if |b| == 4 && |k| == 4 then ForwardRound(t.fl, b, k) else []
  }

  function IlRound(t: Tables): (seq<bv32>, seq<bv32>) -> seq<bv32> {
    (b, k) => if |b| == 4 && |k| == 4 then BackwardRound(t.il, b, k) else []
  }

  lemma FlEnds(t: Tables)
    requires TablesOk(t)
    ensures EndsWith(FlRound(t), SubShift, AddKey)
  {
    var last := FlRound(t);
    forall b: seq<bv32>, k: seq<bv32> | |b| == 4 && |k| == 4
      ensures |last(b, k)| == 4 && StateOf(last(b, k)) == AddKey(SubShift(StateOf(b)), StateOf(k))
    {
      LastRoundWords(t, b, k);
    }
  }

  lemma IlEnds(t: Tables)
    requires TablesOk(t)
    ensures EndsWith(IlRound(t), InvShiftSub, AddKey)
  {
    var last := IlRound(t);
    forall b: seq<bv32>, k: seq<bv32> | |b| == 4 && |k| == 4
      ensures |last(b, k)| == 4 && StateOf(last(b, k)) == AddKey(InvShiftSub(StateOf(b)), StateOf(k))
    {
      LastInvRoundWords(t, b, k);
    }
  }

  lemma AddKeyAdds()
    ensures Adds(AddKey)
  {
    forall x: seq<bv8>, k: seq<bv32> | |x| == 16 && |k| == 4 ensures StateOf(Keyed(x, k)) == AddKey(InState(x), StateOf(k)) {
      KeyedState(x, k);
    }
  }

  lemma KeysHold(ek: seq<bv32>, w: Schedule, nr: nat)
    requires Expanded(ek, w, 4 * nr + 4)
    ensures HoldsKeys(ek, RoundKeys(w), nr)
  {
    var key := RoundKeys(w);
    forall r: nat | r <= nr ensures StateOf(KeyAt(ek, r)) == key(r) {
      EncryptionKey(ek, w, 4 * nr + 4, r);
    }
  }

  /** The first key addition. */
  method AddFirst(b: array<bv32>, x: seq<bv8>, ek: array<bv32>, at: nat, ghost r: nat, ghost add: RoundFn, ghost key: Keys, ghost nr: nat)
    requires b.Length == 4 && |x| == 16 && b != ek && at == 4 * r && r <= nr && 4 * nr + 4 <= ek.Length
    requires Adds(add) && HoldsKeys(ek[..], key, nr)
    modifies b
    ensures StateOf(b[..]) == add(InState(x), key(r))
  {
    var k := [ek[at], ek[at + 1], ek[at + 2], ek[at + 3]];
    assert k == KeyAt(ek[..], r);
    StoreBlock(b, Keyed(x, k));
  }

  /** The last round, written out as bytes. */
  method Finish(b: array<bv32>, last: (seq<bv32>, seq<bv32>) -> seq<bv32>, ek: array<bv32>, at: nat, ghost r: nat,
                ghost h: State -> State, ghost add: RoundFn, ghost key: Keys, ghost nr: nat) returns (y: seq<bv8>)
    requires b.Length == 4 && r <= nr && 4 * nr + 4 <= ek.Length && EndsWith(last, h, add) && HoldsKeys(ek[..], key, nr)
    requires at == 4 * r || (r == 0 && at == 60 && Copied(ek[..]))
    ensures |y| == 16 && InState(y) == add(h(StateOf(b[..])), key(r))
  {
    var k := [ek[at], ek[at + 1], ek[at + 2], ek[at + 3]];
    assert k == KeyAt(ek[..], r);
    var x := last(b[..], k);
    InOut(x);
    y := OutBytes(x);
  }

  /** aes_encrypt over any rounds the tables implement. */
  method ForwardCipher(t: Tables, ek: array<bv32>, keyLength: nat, x: seq<bv8>, ghost f: RoundFn, ghost h: State -> State,
                       ghost add: RoundFn, ghost key: Keys) returns (y: seq<bv8>)
    requires ek.Length == 120 && KeyLength(keyLength) && |x| == 16
    requires Forwards(t.ft, ek[..], f, key, NumRounds(keyLength)) && EndsWith(FlRound(t), h, add) && Adds(add)
    requires HoldsKeys(ek[..], key, NumRounds(keyLength))
    ensures |y| == 16
    ensures InState(y) == add(h(Up(f, key, add(InState(x), key(0)), NumRounds(keyLength) - 1)), key(NumRounds(keyLength)))
  {
    ghost var nr := NumRounds(keyLength);
    var b0, b1 := new bv32[4], new bv32[4];
    AddFirst(b0, x, ek, 0, 0, add, key, nr);
    var kp := ForwardRounds(t.ft, b0, b1, ek, keyLength, f, key, add(InState(x), key(0)));
    y := Finish(b1, FlRound(t), ek, kp, nr, h, add, key, nr);
  }

  /** aes_decrypt over any rounds the tables implement. */
  method BackwardCipher(t: Tables, ek: array<bv32>, keyLength: nat, x: seq<bv8>, ghost g: RoundFn, ghost h: State -> State,
                        ghost add: RoundFn, ghost key: Keys) returns (y: seq<bv8>)
    requires KeyLength(keyLength) && |x| == 16 && ek.Length == 120 && Copied(ek[..])
    requires Backwards(t.it, ek[60..], g, key, NumRounds(keyLength)) && EndsWith(IlRound(t), h, add) && Adds(add)
    requires HoldsKeys(ek[..], key, NumRounds(keyLength))
    ensures |y| == 16
    ensures InState(y) == add(h(Down(g, key, NumRounds(keyLength), add(InState(x), key(NumRounds(keyLength))),
      NumRounds(keyLength) - 1)), key(0))
  {
    ghost var nr := NumRounds(keyLength);
    var b0, b1 := new bv32[4], new bv32[4];
    AddFirst(b0, x, ek, keyLength + 24, nr, add, key, nr);
    var kp := BackwardRounds(t.it, b0, b1, ek, keyLength, g, key, add(InState(x), key(nr)));
    y := Finish(b1, IlRound(t), ek, kp, 0, h, add, key, nr);
  }

  method ForwardBlock(t: Tables, ek: array<bv32>, keyLength: nat, x: seq<bv8>, ghost w: Schedule) returns (y: seq<bv8>)
    requires TablesOk(t) && ek.Length == 120 && KeyLength(keyLength) && Expanded(ek[..], w, keyLength + 28) && |x| == 16
    ensures |y| == 16 && InState(y) == Encrypt(RoundKeys(w), NumRounds(keyLength), InState(x))
  {
    assert 4 * NumRounds(keyLength) + 4 == keyLength + 28;
    ForwardsHolds(t, ek[..], w, NumRounds(keyLength));
    FlEnds(t);
    AddKeyAdds();
    KeysHold(ek[..], w, NumRounds(keyLength));
    y := ForwardCipher(t, ek, keyLength, x, FullRound, SubShift, AddKey, RoundKeys(w));
  }

  method BackwardBlock(t: Tables, ek: array<bv32>, keyLength: nat, x: seq<bv8>, ghost w: Schedule, ghost col: Schedule)
    returns (y: seq<bv8>)
    requires TablesOk(t) && ek.Length == 120 && KeyLength(keyLength) && Scheduled(ek[..], w, col, keyLength) && |x| == 16
    requires Inverted(w, col)
    ensures |y| == 16 && InState(y) == Decrypt(RoundKeys(w), NumRounds(keyLength), InState(x))
  {
    ghost var nr := NumRounds(keyLength);
    assert 4 * nr == keyLength + 24;
    BackwardsHolds(t, ek[..], w, col, nr);
    IlEnds(t);
    AddKeyAdds();
    KeysHold(ek[..], w, nr);
    y := BackwardCipher(t, ek, keyLength, x, InvFullRound, InvShiftSub, AddKey, RoundKeys(w));
  }

  /** Decrypting what was encrypted under the same key gives the block back. */
  lemma AesRoundTrip(key: seq<bv8>, x: seq<bv8>, y: seq<bv8>, z: seq<bv8>)
    requires KeyLength(|key|) && |x| == 16 && |y| == 16 && |z| == 16
    requires InState(y) == Encrypt(RoundKeys(W(key)), NumRounds(|key|), InState(x))
    requires InState(z) == Decrypt(RoundKeys(W(key)), NumRounds(|key|), InState(y))
    ensures z == x
  {
    DecryptEncrypt(RoundKeys(W(key)), NumRounds(|key|), InState(x));
    InInjective(z, x);
  }
}
