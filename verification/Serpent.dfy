/** serpent_encrypt and serpent_decrypt, through all 32 rounds of register renaming. */
module Serpent {
  import opened Bits
  import opened SerpentBoxes
  import opened RoundChain

  // ---------------------------------------------------------------- substitution

  function BitOf(v: nat, j: nat): bool {
    if j == 0 then v % 2 == 1 else if j == 1 then v / 2 % 2 == 1 else if j == 2 then v / 4 % 2 == 1 else v / 8 % 2 == 1
  }

  lemma NibbleBits(v: nat)
    requires v < 16
    ensures Nibble(BitOf(v, 0), BitOf(v, 1), BitOf(v, 2), BitOf(v, 3)) == v
  {
  }

  lemma NibbleInjective(a: bool, b: bool, c: bool, d: bool, a': bool, b': bool, c': bool, d': bool)
    requires Nibble(a, b, c, d) == Nibble(a', b', c', d')
    ensures a == a' && b == b' && c == c' && d == d'
  {
  }

  function NibbleAt(q: Quad, i: nat): nat
    requires i < 32
  {
    Nibble(q.a[i], q.b[i], q.c[i], q.d[i])
  }

  function SubWord(t: nat -> nat, q: Quad, j: nat): (r: Word)
    ensures forall i :: 0 <= i < 32 ==> r[i] == BitOf(t(NibbleAt(q, i)), j)
  {
    seq(32, i requires 0 <= i < 32 => BitOf(t(NibbleAt(q, i)), j))
  }

  /** The S-box `t` at every bit position. */
  function Sub(t: nat -> nat, q: Quad): Quad {
    Quad(SubWord(t, q, 0), SubWord(t, q, 1), SubWord(t, q, 2), SubWord(t, q, 3))
  }

  ghost predicate FourBit(t: nat -> nat) { forall v :: 0 <= v < 16 ==> t(v) < 16 }

  lemma SubUnique(t: nat -> nat, q: Quad, r: Quad)
    requires FourBit(t) && forall i :: 0 <= i < 32 ==> NibbleAt(r, i) == t(NibbleAt(q, i))
    ensures r == Sub(t, q)
  {
    var s := Sub(t, q);
    forall i | 0 <= i < 32 ensures r.a[i] == s.a[i] && r.b[i] == s.b[i] && r.c[i] == s.c[i] && r.d[i] == s.d[i] {
      NibbleBits(t(NibbleAt(q, i)));
      NibbleInjective(r.a[i], r.b[i], r.c[i], r.d[i], s.a[i], s.b[i], s.c[i], s.d[i]);
    }
  }

  lemma SubInverse(t: nat -> nat, u: nat -> nat, q: Quad)
    requires Inverts(t, u)
    ensures Sub(u, Sub(t, q)) == q
  {
    var s := Sub(t, q);
    forall i | 0 <= i < 32 ensures NibbleAt(q, i) == u(NibbleAt(s, i)) {
      NibbleBits(t(NibbleAt(q, i)));
    }
    SubUnique(u, s, q);
  }

  function Boxes(k: nat): nat -> nat {
    if k == 0 then Box0 else
    if k == 1 then Box1 else
    if k == 2 then Box2 else
    if k == 3 then Box3 else
    if k == 4 then Box4 else
    if k == 5 then Box5 else
    if k == 6 then Box6 else
    Box7
  }

  function InvBoxes(k: nat): nat -> nat {
    if k == 0 then InvBox0 else
    if k == 1 then InvBox1 else
    if k == 2 then InvBox2 else
    if k == 3 then InvBox3 else
    if k == 4 then InvBox4 else
    if k == 5 then InvBox5 else
    if k == 6 then InvBox6 else
    InvBox7
  }

  ghost predicate Inverts(t: nat -> nat, u: nat -> nat) {
    FourBit(t) && FourBit(u) && forall v :: 0 <= v < 16 ==> u(t(v)) == v
  }

  lemma Invert0()
    ensures Inverts(Box0, InvBox0)
  {
  }

  lemma Invert1()
    ensures Inverts(Box1, InvBox1)
  {
  }

  lemma Invert2()
    ensures Inverts(Box2, InvBox2)
  {
  }

  lemma Invert3()
    ensures Inverts(Box3, InvBox3)
  {
  }

  lemma Invert4()
    ensures Inverts(Box4, InvBox4)
  {
  }

  lemma Invert5()
    ensures Inverts(Box5, InvBox5)
  {
  }

  lemma Invert6()
    ensures Inverts(Box6, InvBox6)
  {
  }

  lemma Invert7()
    ensures Inverts(Box7, InvBox7)
  {
  }

  lemma BoxesInvert(k: nat)
    requires k < 8
    ensures Inverts(Boxes(k), InvBoxes(k))
  {
    if
    case k == 0 => Invert0();
    case k == 1 => Invert1();
    case k == 2 => Invert2();
    case k == 3 => Invert3();
    case k == 4 => Invert4();
    case k == 5 => Invert5();
    case k == 6 => Invert6();
    case k == 7 => Invert7();
  }

  /** A set of eight S-boxes, and the inverse set. */
  type BoxSet = nat -> (nat -> nat)

  ghost predicate InvertsAt(box: BoxSet, inv: BoxSet, k: nat) { Inverts(box(k), inv(k)) }

  ghost predicate Inverse(box: BoxSet, inv: BoxSet) {
    forall k: nat {:trigger InvertsAt(box, inv, k)} :: k < 8 ==> InvertsAt(box, inv, k)
  }

  lemma BoxesInverse()
    ensures Inverse(Boxes, InvBoxes)
  {
    forall k: nat | k < 8 ensures InvertsAt(Boxes, InvBoxes, k) {
      BoxesInvert(k);
    }
  }

  // ---------------------------------------------------------------- the linear transformation

  function AddKey(q: Quad, k: Quad): Quad { Quad(Xor(q.a, k.a), Xor(q.b, k.b), Xor(q.c, k.c), Xor(q.d, k.d)) }

  /** The linear transformation of the cipher. */
  function Linear(q: Quad): Quad {
    var a := Rol(q.a, 13);
    var c := Rol(q.c, 3);
    var b := Rol(Xor(Xor(q.b, a), c), 1);
    var d := Rol(Xor(Xor(q.d, c), Shl(a, 3)), 7);
    Quad(Rol(Xor(Xor(a, b), d), 5), b, Rol(Xor(Xor(c, d), Shl(b, 7)), 22), d)
  }

  function InvLinear(q: Quad): Quad {
    var c := Xor(Xor(Ror(q.c, 22), q.d), Shl(q.b, 7));
    var a := Xor(Xor(Ror(q.a, 5), q.d), q.b);
    var d := Xor(Xor(Ror(q.d, 7), Shl(a, 3)), c);
    var b := Xor(Xor(Ror(q.b, 1), a), c);
    Quad(Ror(a, 13), b, Ror(c, 3), d)
  }

  lemma Cancel2(x: Word, y: Word, z: Word)
    ensures Xor(Xor(Xor(Xor(x, y), z), z), y) == x && Xor(Xor(Xor(Xor(x, y), z), y), z) == x
  {
  }

  lemma LinearInverse(q: Quad)
    ensures InvLinear(Linear(q)) == q
  {
    var a := Rol(q.a, 13);
    var c := Rol(q.c, 3);
    var b0 := Xor(Xor(q.b, a), c);
    var d0 := Xor(Xor(q.d, c), Shl(a, 3));
    var b := Rol(b0, 1);
    var d := Rol(d0, 7);
    var a1 := Xor(Xor(a, b), d);
    var c1 := Xor(Xor(c, d), Shl(b, 7));
    RorRol(q.a, 13);
    RorRol(q.c, 3);
    RorRol(b0, 1);
    RorRol(d0, 7);
    RorRol(a1, 5);
    RorRol(c1, 22);
    Cancel2(c, d, Shl(b, 7));
    Cancel2(a, b, d);
    Cancel2(q.d, c, Shl(a, 3));
    Cancel2(q.b, a, c);
  }

  lemma AddKeyTwice(q: Quad, k: Quad)
    ensures AddKey(AddKey(q, k), k) == q
  {
    XorTwice(q.a, k.a);
    XorTwice(q.b, k.b);
    XorTwice(q.c, k.c);
    XorTwice(q.d, k.d);
  }

  lemma XorTwice(x: Word, y: Word)
    ensures Xor(Xor(x, y), y) == x
  {
  }

  // ---------------------------------------------------------------- the cipher

  type Keys = nat -> Quad

  /** Round `r`: substitution, linear transformation, key `r`. */
  function RoundOn(t: nat -> nat, k: Quad, s: Quad): Quad { AddKey(Linear(Sub(t, s)), k) }

  function UnroundOn(u: nat -> nat, k: Quad, s: Quad): Quad { Sub(u, InvLinear(AddKey(s, k))) }

  function RoundBy(box: BoxSet, key: Keys, s: Quad, r: nat): Quad { RoundOn(box((r + 7) % 8), key(r), s) }

  function UnroundBy(inv: BoxSet, key: Keys, s: Quad, r: nat): Quad { UnroundOn(inv((r + 7) % 8), key(r), s) }

  function Round(box: BoxSet, key: Keys): (Quad, nat) -> Quad { (s: Quad, r: nat) => RoundBy(box, key, s, r) }

  function Unround(inv: BoxSet, key: Keys): (Quad, nat) -> Quad { (s: Quad, r: nat) => UnroundBy(inv, key, s, r) }

  function Number(): nat -> nat { (n: nat) => n }

  function Same(): Quad -> Quad { (q: Quad) => q }

  ghost function Encrypt(box: BoxSet, key: Keys, x: Quad): Quad {
    AddKey(Sub(box(7), Up(Round(box, key), Number(), AddKey(x, key(0)), 31)), key(32))
  }

  ghost function Decrypt(inv: BoxSet, key: Keys, x: Quad): Quad {
    AddKey(Down(Unround(inv, key), Number(), 32, Sub(inv(7), AddKey(x, key(32))), 31), key(0))
  }

  lemma Undo(t: nat -> nat, u: nat -> nat, s: Quad, b: Quad, l: Quad, k: Quad)
    requires Inverts(t, u) && b == Sub(t, s) && l == Linear(b)
    ensures UnroundOn(u, k, AddKey(l, k)) == s
  {
    AddKeyTwice(l, k);
    LinearInverse(b);
    SubInverse(t, u, s);
  }

  lemma RoundUndone(t: nat -> nat, u: nat -> nat, k: Quad, s: Quad)
    requires Inverts(t, u)
    ensures UnroundOn(u, k, RoundOn(t, k, s)) == s
  {
    Undo(t, u, s, Sub(t, s), Linear(Sub(t, s)), k);
  }

  lemma OneUndone(box: BoxSet, inv: BoxSet, key: Keys, s: Quad, r: nat)
    requires Inverse(box, inv)
    ensures UnroundBy(inv, key, RoundBy(box, key, s, r), r) == s
  {
    var k := (r + 7) % 8;
    assert InvertsAt(box, inv, k);
    RoundUndone(box(k), inv(k), key(r), s);
  }

  lemma RoundsUndo(box: BoxSet, inv: BoxSet, key: Keys)
    requires Inverse(box, inv)
    ensures Undoes(Round(box, key), Unround(inv, key), Same())
  {
    var f, g, h := Round(box, key), Unround(inv, key), Same();
    forall s: Quad, r: nat ensures g(h(f(s, r)), r) == h(s) {
      OneUndone(box, inv, key, s, r);
    }
  }

  lemma Middle(box: BoxSet, inv: BoxSet, key: Keys, s: Quad)
    requires Inverse(box, inv)
    ensures Down(Unround(inv, key), Number(), 32, Up(Round(box, key), Number(), s, 31), 31) == s
  {
    RoundsUndo(box, inv, key);
    MeetEnd(Round(box, key), Unround(inv, key), Same(), Number(), 32, s);
  }

  /** Decryption undoes encryption for every expanded key and block. */
  lemma DecryptEncrypt(box: BoxSet, inv: BoxSet, key: Keys, x: Quad)
    requires Inverse(box, inv)
    ensures Decrypt(inv, key, Encrypt(box, key, x)) == x
  {
    var s0 := AddKey(x, key(0));
    var u := Up(Round(box, key), Number(), s0, 31);
    AddKeyTwice(Sub(box(7), u), key(32));
    assert InvertsAt(box, inv, 7);
    SubInverse(box(7), inv(7), u);
    Middle(box, inv, key, s0);
    AddKeyTwice(x, key(0));
  }

  lemma SerpentRoundTrip(key: Keys, x: Quad)
    ensures Decrypt(InvBoxes, key, Encrypt(Boxes, key, x)) == x
  {
    BoxesInverse();
    DecryptEncrypt(Boxes, InvBoxes, key, x);
  }

  // ---------------------------------------------------------------- the macros on five registers

  function KeyAt(k: seq<Word>, i: nat): Quad
    requires 4 * i + 4 <= |k|
  {
    Quad(k[4 * i], k[4 * i + 1], k[4 * i + 2], k[4 * i + 3])
  }

  /** The substitutions and linear steps as the round methods see them. */
  datatype Ops = Ops(sub: (nat, Quad) -> Quad, mix: (Quad, Quad) -> Quad, isub: (nat, Quad) -> Quad, unmix: (Quad, Quad) -> Quad)

  ghost predicate SubAt(ops: Ops, i: nat, q: Quad) {
    ops.sub(i, q) == Sub(Boxes(i), q) && ops.isub(i, q) == Sub(InvBoxes(i), q)
  }

  ghost predicate MixAt(ops: Ops, q: Quad, k: Quad) {
    ops.mix(q, k) == AddKey(Linear(q), k) && ops.unmix(q, k) == InvLinear(AddKey(q, k))
  }

  ghost predicate OpsOk(ops: Ops) {
    && (forall i: nat, q: Quad {:trigger SubAt(ops, i, q)} :: SubAt(ops, i, q))
    && (forall q: Quad, k: Quad {:trigger MixAt(ops, q, k)} :: MixAt(ops, q, k))
  }

  lemma BoxLink(ops: Ops, i: nat, q: Quad, r: Quad)
    requires OpsOk(ops) && i < 8 && forall j :: 0 <= j < 32 ==> NibbleAt(r, j) == Boxes(i)(NibbleAt(q, j))
    ensures r == ops.sub(i, q)
  {
    BoxesInvert(i);
    SubUnique(Boxes(i), q, r);
    assert SubAt(ops, i, q);
  }

  lemma InvBoxLink(ops: Ops, i: nat, q: Quad, r: Quad)
    requires OpsOk(ops) && i < 8 && forall j :: 0 <= j < 32 ==> NibbleAt(r, j) == InvBoxes(i)(NibbleAt(q, j))
    ensures r == ops.isub(i, q)
  {
    BoxesInvert(i);
    SubUnique(InvBoxes(i), q, r);
    assert SubAt(ops, i, q);
  }

  method DoS0(x0: Word, x1: Word, x2: Word, x3: Word, x4: Word, ghost ops: Ops) returns (y0: Word, y1: Word, y2: Word, y3: Word, y4: Word)
    requires OpsOk(ops)
    ensures Quad(y2, y1, y3, y0) == ops.sub(0, Quad(x0, x1, x2, x3))
  {
    y0, y1, y2, y3, y4 := S0(x0, x1, x2, x3, x4);
    BoxLink(ops, 0, Quad(x0, x1, x2, x3), Quad(y2, y1, y3, y0));
  }

  method DoSI0(x0: Word, x1: Word, x2: Word, x3: Word, x4: Word, ghost ops: Ops) returns (y0: Word, y1: Word, y2: Word, y3: Word, y4: Word)
    requires OpsOk(ops)
    ensures Quad(y2, y4, y1, y0) == ops.isub(0, Quad(x0, x1, x2, x3))
  {
    y0, y1, y2, y3, y4 := SI0(x0, x1, x2, x3, x4);
    InvBoxLink(ops, 0, Quad(x0, x1, x2, x3), Quad(y2, y4, y1, y0));
  }

  method DoS1(x0: Word, x1: Word, x2: Word, x3: Word, x4: Word, ghost ops: Ops) returns (y0: Word, y1: Word, y2: Word, y3: Word, y4: Word)
    requires OpsOk(ops)
    ensures Quad(y4, y2, y3, y0) == ops.sub(1, Quad(x0, x1, x2, x3))
  {
    y0, y1, y2, y3, y4 := S1(x0, x1, x2, x3, x4);
    BoxLink(ops, 1, Quad(x0, x1, x2, x3), Quad(y4, y2, y3, y0));
  }

  method DoSI1(x0: Word, x1: Word, x2: Word, x3: Word, x4: Word, ghost ops: Ops) returns (y0: Word, y1: Word, y2: Word, y3: Word, y4: Word)
    requires OpsOk(ops)
    ensures Quad(y4, y1, y2, y3) == ops.isub(1, Quad(x0, x1, x2, x3))
  {
    y0, y1, y2, y3, y4 := SI1(x0, x1, x2, x3, x4);
    InvBoxLink(ops, 1, Quad(x0, x1, x2, x3), Quad(y4, y1, y2, y3));
  }

  method DoS2(x0: Word, x1: Word, x2: Word, x3: Word, x4: Word, ghost ops: Ops) returns (y0: Word, y1: Word, y2: Word, y3: Word, y4: Word)
    requires OpsOk(ops)
    ensures Quad(y4, y1, y0, y3) == ops.sub(2, Quad(x0, x1, x2, x3))
  {
    y0, y1, y2, y3, y4 := S2(x0, x1, x2, x3, x4);
    BoxLink(ops, 2, Quad(x0, x1, x2, x3), Quad(y4, y1, y0, y3));
  }

  method DoSI2(x0: Word, x1: Word, x2: Word, x3: Word, x4: Word, ghost ops: Ops) returns (y0: Word, y1: Word, y2: Word, y3: Word, y4: Word)
    requires OpsOk(ops)
    ensures Quad(y1, y4, y3, y2) == ops.isub(2, Quad(x0, x1, x2, x3))
  {
    y0, y1, y2, y3, y4 := SI2(x0, x1, x2, x3, x4);
    InvBoxLink(ops, 2, Quad(x0, x1, x2, x3), Quad(y1, y4, y3, y2));
  }

  method DoS3(x0: Word, x1: Word, x2: Word, x3: Word, x4: Word, ghost ops: Ops) returns (y0: Word, y1: Word, y2: Word, y3: Word, y4: Word)
    requires OpsOk(ops)
    ensures Quad(y3, y4, y1, y0) == ops.sub(3, Quad(x0, x1, x2, x3))
  {
    y0, y1, y2, y3, y4 := S3(x0, x1, x2, x3, x4);
    BoxLink(ops, 3, Quad(x0, x1, x2, x3), Quad(y3, y4, y1, y0));
  }

  method DoSI3(x0: Word, x1: Word, x2: Word, x3: Word, x4: Word, ghost ops: Ops) returns (y0: Word, y1: Word, y2: Word, y3: Word, y4: Word)
    requires OpsOk(ops)
    ensures Quad(y2, y0, y4, y3) == ops.isub(3, Quad(x0, x1, x2, x3))
  {
    y0, y1, y2, y3, y4 := SI3(x0, x1, x2, x3, x4);
    InvBoxLink(ops, 3, Quad(x0, x1, x2, x3), Quad(y2, y0, y4, y3));
  }

  method DoS4(x0: Word, x1: Word, x2: Word, x3: Word, x4: Word, ghost ops: Ops) returns (y0: Word, y1: Word, y2: Word, y3: Word, y4: Word)
    requires OpsOk(ops)
    ensures Quad(y1, y2, y3, y4) == ops.sub(4, Quad(x0, x1, x2, x3))
  {
    y0, y1, y2, y3, y4 := S4(x0, x1, x2, x3, x4);
    BoxLink(ops, 4, Quad(x0, x1, x2, x3), Quad(y1, y2, y3, y4));
  }

  method DoSI4(x0: Word, x1: Word, x2: Word, x3: Word, x4: Word, ghost ops: Ops) returns (y0: Word, y1: Word, y2: Word, y3: Word, y4: Word)
    requires OpsOk(ops)
    ensures Quad(y0, y2, y4, y3) == ops.isub(4, Quad(x0, x1, x2, x3))
  {
    y0, y1, y2, y3, y4 := SI4(x0, x1, x2, x3, x4);
    InvBoxLink(ops, 4, Quad(x0, x1, x2, x3), Quad(y0, y2, y4, y3));
  }

  method DoS5(x0: Word, x1: Word, x2: Word, x3: Word, x4: Word, ghost ops: Ops) returns (y0: Word, y1: Word, y2: Word, y3: Word, y4: Word)
    requires OpsOk(ops)
    ensures Quad(y4, y0, y1, y3) == ops.sub(5, Quad(x0, x1, x2, x3))
  {
    y0, y1, y2, y3, y4 := S5(x0, x1, x2, x3, x4);
    BoxLink(ops, 5, Quad(x0, x1, x2, x3), Quad(y4, y0, y1, y3));
  }

  method DoSI5(x0: Word, x1: Word, x2: Word, x3: Word, x4: Word, ghost ops: Ops) returns (y0: Word, y1: Word, y2: Word, y3: Word, y4: Word)
    requires OpsOk(ops)
    ensures Quad(y1, y4, y0, y2) == ops.isub(5, Quad(x0, x1, x2, x3))
  {
    y0, y1, y2, y3, y4 := SI5(x0, x1, x2, x3, x4);
    InvBoxLink(ops, 5, Quad(x0, x1, x2, x3), Quad(y1, y4, y0, y2));
  }

  method DoS6(x0: Word, x1: Word, x2: Word, x3: Word, x4: Word, ghost ops: Ops) returns (y0: Word, y1: Word, y2: Word, y3: Word, y4: Word)
    requires OpsOk(ops)
    ensures Quad(y2, y4, y1, y3) == ops.sub(6, Quad(x0, x1, x2, x3))
  {
    y0, y1, y2, y3, y4 := S6(x0, x1, x2, x3, x4);
    BoxLink(ops, 6, Quad(x0, x1, x2, x3), Quad(y2, y4, y1, y3));
  }

  method DoSI6(x0: Word, x1: Word, x2: Word, x3: Word, x4: Word, ghost ops: Ops) returns (y0: Word, y1: Word, y2: Word, y3: Word, y4: Word)
    requires OpsOk(ops)
    ensures Quad(y2, y4, y3, y0) == ops.isub(6, Quad(x0, x1, x2, x3))
  {
    y0, y1, y2, y3, y4 := SI6(x0, x1, x2, x3, x4);
    InvBoxLink(ops, 6, Quad(x0, x1, x2, x3), Quad(y2, y4, y3, y0));
  }

  method DoS7(x0: Word, x1: Word, x2: Word, x3: Word, x4: Word, ghost ops: Ops) returns (y0: Word, y1: Word, y2: Word, y3: Word, y4: Word)
    requires OpsOk(ops)
    ensures Quad(y4, y2, y3, y0) == ops.sub(7, Quad(x0, x1, x2, x3))
  {
    y0, y1, y2, y3, y4 := S7(x0, x1, x2, x3, x4);
    BoxLink(ops, 7, Quad(x0, x1, x2, x3), Quad(y4, y2, y3, y0));
  }

  method DoSI7(x0: Word, x1: Word, x2: Word, x3: Word, x4: Word, ghost ops: Ops) returns (y0: Word, y1: Word, y2: Word, y3: Word, y4: Word)
    requires OpsOk(ops)
    ensures Quad(y1, y3, y0, y4) == ops.isub(7, Quad(x0, x1, x2, x3))
  {
    y0, y1, y2, y3, y4 := SI7(x0, x1, x2, x3, x4);
    InvBoxLink(ops, 7, Quad(x0, x1, x2, x3), Quad(y1, y3, y0, y4));
  }

  method LK(x0: Word, x1: Word, x2: Word, x3: Word, x4: Word, k: seq<Word>, i: nat, ghost ops: Ops) returns (y0: Word, y1: Word, y2: Word, y3: Word, y4: Word)
    requires OpsOk(ops) && 4 * i + 4 <= |k|
    ensures Quad(y0, y1, y2, y3) == ops.mix(Quad(x0, x1, x2, x3), KeyAt(k, i))
  {
    y0, y1, y2, y3, y4 := x0, x1, x2, x3, x4;
    y0 := Rol(y0, 13);
    y2 := Rol(y2, 3);
    y1 := Xor(y1, y0);
    y4 := Shl(y0, 3);
    y3 := Xor(y3, y2);
    y1 := Xor(y1, y2);
    y1 := Rol(y1, 1);
    y3 := Xor(y3, y4);
    y3 := Rol(y3, 7);
    y4 := y1;
    y0 := Xor(y0, y1);
    y4 := Shl(y4, 7);
    y2 := Xor(y2, y3);
    y0 := Xor(y0, y3);
    y2 := Xor(y2, y4);
    y3 := Xor(y3, k[4 * i + 3]);
    y1 := Xor(y1, k[4 * i + 1]);
    y0 := Rol(y0, 5);
    y2 := Rol(y2, 22);
    y0 := Xor(y0, k[4 * i + 0]);
    y2 := Xor(y2, k[4 * i + 2]);
    assert MixAt(ops, Quad(x0, x1, x2, x3), KeyAt(k, i));
  }

  method KL(x0: Word, x1: Word, x2: Word, x3: Word, x4: Word, k: seq<Word>, i: nat, ghost ops: Ops) returns (y0: Word, y1: Word, y2: Word, y3: Word, y4: Word)
    requires OpsOk(ops) && 4 * i + 4 <= |k|
    ensures Quad(y0, y1, y2, y3) == ops.unmix(Quad(x0, x1, x2, x3), KeyAt(k, i))
  {
    y0, y1, y2, y3, y4 := x0, x1, x2, x3, x4;
    y0 := Xor(y0, k[4 * i + 0]);
    y1 := Xor(y1, k[4 * i + 1]);
    y2 := Xor(y2, k[4 * i + 2]);
    y3 := Xor(y3, k[4 * i + 3]);
    y0 := Ror(y0, 5);
    y2 := Ror(y2, 22);
    y4 := y1;
    y2 := Xor(y2, y3);
    y0 := Xor(y0, y3);
    y4 := Shl(y4, 7);
    y0 := Xor(y0, y1);
    y1 := Ror(y1, 1);
    y2 := Xor(y2, y4);
    y3 := Ror(y3, 7);
    y4 := Shl(y0, 3);
    y1 := Xor(y1, y0);
    y3 := Xor(y3, y4);
    y0 := Ror(y0, 13);
    y1 := Xor(y1, y2);
    y3 := Xor(y3, y2);
    y2 := Ror(y2, 3);
    assert MixAt(ops, Quad(x0, x1, x2, x3), KeyAt(k, i));
  }

  /** K: the key is added to four registers. */
  method AddRoundKey(x0: Word, x1: Word, x2: Word, x3: Word, k: seq<Word>, i: nat) returns (y0: Word, y1: Word, y2: Word, y3: Word)
    requires 4 * i + 4 <= |k|
    ensures Quad(y0, y1, y2, y3) == AddKey(Quad(x0, x1, x2, x3), KeyAt(k, i))
  {
    y3 := Xor(x3, k[4 * i + 3]);
    y2 := Xor(x2, k[4 * i + 2]);
    y1 := Xor(x1, k[4 * i + 1]);
    y0 := Xor(x0, k[4 * i]);
  }

  // ---------------------------------------------------------------- the rounds

  type RoundFn = (Quad, nat) -> Quad

  ghost predicate ForthAt(f: RoundFn, ops: Ops, k: seq<Word>, s: Quad, r: nat) {
    0 < r && 4 * r + 4 <= |k| ==> f(s, r) == ops.mix(ops.sub((r + 7) % 8, s), KeyAt(k, r))
  }

  ghost predicate BackAt(g: RoundFn, ops: Ops, k: seq<Word>, s: Quad, r: nat) {
    0 < r && 4 * r + 4 <= |k| ==> g(s, r) == ops.isub((r + 7) % 8, ops.unmix(s, KeyAt(k, r)))
  }

  /** The round functions, in terms of the operations on registers. */
  ghost predicate RoundsOk(f: RoundFn, g: RoundFn, ops: Ops, k: seq<Word>) {
    && OpsOk(ops) && |k| == 132
    && (forall s: Quad, r: nat {:trigger ForthAt(f, ops, k, s, r)} :: ForthAt(f, ops, k, s, r))
    && (forall s: Quad, r: nat {:trigger BackAt(g, ops, k, s, r)} :: BackAt(g, ops, k, s, r))
  }

  lemma Forth(f: RoundFn, g: RoundFn, ops: Ops, k: seq<Word>, s: Quad, r: nat, u: Quad, v: Quad)
    requires RoundsOk(f, g, ops, k) && r < 32 && u == Up(f, Number(), s, r) && v == ops.mix(ops.sub(r % 8, u), KeyAt(k, r + 1))
    ensures v == Up(f, Number(), s, r + 1)
  {
    UpStep(f, Number(), s, r, u);
    assert ForthAt(f, ops, k, u, r + 1);
  }

  lemma Back(f: RoundFn, g: RoundFn, ops: Ops, k: seq<Word>, s: Quad, r: nat, u: Quad, v: Quad)
    requires RoundsOk(f, g, ops, k) && 0 < r < 32 && u == Down(g, Number(), 32, s, 31 - r)
    requires v == ops.isub((r + 7) % 8, ops.unmix(u, KeyAt(k, r)))
    ensures v == Down(g, Number(), 32, s, 32 - r)
  {
    DownStep(g, Number(), 32, s, 31 - r, u);
    assert BackAt(g, ops, k, u, r);
  }

  method Rounds1(a0: Word, a1: Word, a2: Word, a3: Word, a4: Word, k: seq<Word>, ghost f: RoundFn, ghost g: RoundFn, ghost ops: Ops, ghost s: Quad)
    returns (r0: Word, r1: Word, r2: Word, r3: Word, r4: Word)
    requires RoundsOk(f, g, ops, k) && Quad(a0, a1, a2, a3) == Up(f, Number(), s, 0)
    ensures Quad(r2, r0, r4, r3) == Up(f, Number(), s, 8)
  {
    r0, r1, r2, r3, r4 := a0, a1, a2, a3, a4;
    ghost var u;
    u := Quad(r0, r1, r2, r3);
    r0, r1, r2, r3, r4 := DoS0(r0, r1, r2, r3, r4, ops);
    r2, r1, r3, r0, r4 := LK(r2, r1, r3, r0, r4, k, 1, ops);
    Forth(f, g, ops, k, s, 0, u, Quad(r2, r1, r3, r0));
    u := Quad(r2, r1, r3, r0);
    r2, r1, r3, r0, r4 := DoS1(r2, r1, r3, r0, r4, ops);
    r4, r3, r0, r2, r1 := LK(r4, r3, r0, r2, r1, k, 2, ops);
    Forth(f, g, ops, k, s, 1, u, Quad(r4, r3, r0, r2));
    u := Quad(r4, r3, r0, r2);
    r4, r3, r0, r2, r1 := DoS2(r4, r3, r0, r2, r1, ops);
    r1, r3, r4, r2, r0 := LK(r1, r3, r4, r2, r0, k, 3, ops);
    Forth(f, g, ops, k, s, 2, u, Quad(r1, r3, r4, r2));
    u := Quad(r1, r3, r4, r2);
    r1, r3, r4, r2, r0 := DoS3(r1, r3, r4, r2, r0, ops);
    r2, r0, r3, r1, r4 := LK(r2, r0, r3, r1, r4, k, 4, ops);
    Forth(f, g, ops, k, s, 3, u, Quad(r2, r0, r3, r1));
    u := Quad(r2, r0, r3, r1);
    r2, r0, r3, r1, r4 := DoS4(r2, r0, r3, r1, r4, ops);
    r0, r3, r1, r4, r2 := LK(r0, r3, r1, r4, r2, k, 5, ops);
    Forth(f, g, ops, k, s, 4, u, Quad(r0, r3, r1, r4));
    u := Quad(r0, r3, r1, r4);
    r0, r3, r1, r4, r2 := DoS5(r0, r3, r1, r4, r2, ops);
    r2, r0, r3, r4, r1 := LK(r2, r0, r3, r4, r1, k, 6, ops);
    Forth(f, g, ops, k, s, 5, u, Quad(r2, r0, r3, r4));
    u := Quad(r2, r0, r3, r4);
    r2, r0, r3, r4, r1 := DoS6(r2, r0, r3, r4, r1, ops);
    r3, r1, r0, r4, r2 := LK(r3, r1, r0, r4, r2, k, 7, ops);
    Forth(f, g, ops, k, s, 6, u, Quad(r3, r1, r0, r4));
    u := Quad(r3, r1, r0, r4);
    r3, r1, r0, r4, r2 := DoS7(r3, r1, r0, r4, r2, ops);
    r2, r0, r4, r3, r1 := LK(r2, r0, r4, r3, r1, k, 8, ops);
    Forth(f, g, ops, k, s, 7, u, Quad(r2, r0, r4, r3));
  }

  method Rounds2(a0: Word, a1: Word, a2: Word, a3: Word, a4: Word, k: seq<Word>, ghost f: RoundFn, ghost g: RoundFn, ghost ops: Ops, ghost s: Quad)
    returns (r0: Word, r1: Word, r2: Word, r3: Word, r4: Word)
    requires RoundsOk(f, g, ops, k) && Quad(a2, a0, a4, a3) == Up(f, Number(), s, 8)
    ensures Quad(r4, r2, r1, r3) == Up(f, Number(), s, 16)
  {
    r0, r1, r2, r3, r4 := a0, a1, a2, a3, a4;
    ghost var u;
    u := Quad(r2, r0, r4, r3);
    r2, r0, r4, r3, r1 := DoS0(r2, r0, r4, r3, r1, ops);
    r4, r0, r3, r2, r1 := LK(r4, r0, r3, r2, r1, k, 9, ops);
    Forth(f, g, ops, k, s, 8, u, Quad(r4, r0, r3, r2));
    u := Quad(r4, r0, r3, r2);
    r4, r0, r3, r2, r1 := DoS1(r4, r0, r3, r2, r1, ops);
    r1, r3, r2, r4, r0 := LK(r1, r3, r2, r4, r0, k, 10, ops);
    Forth(f, g, ops, k, s, 9, u, Quad(r1, r3, r2, r4));
    u := Quad(r1, r3, r2, r4);
    r1, r3, r2, r4, r0 := DoS2(r1, r3, r2, r4, r0, ops);
    r0, r3, r1, r4, r2 := LK(r0, r3, r1, r4, r2, k, 11, ops);
    Forth(f, g, ops, k, s, 10, u, Quad(r0, r3, r1, r4));
    u := Quad(r0, r3, r1, r4);
    r0, r3, r1, r4, r2 := DoS3(r0, r3, r1, r4, r2, ops);
    r4, r2, r3, r0, r1 := LK(r4, r2, r3, r0, r1, k, 12, ops);
    Forth(f, g, ops, k, s, 11, u, Quad(r4, r2, r3, r0));
    u := Quad(r4, r2, r3, r0);
    r4, r2, r3, r0, r1 := DoS4(r4, r2, r3, r0, r1, ops);
    r2, r3, r0, r1, r4 := LK(r2, r3, r0, r1, r4, k, 13, ops);
    Forth(f, g, ops, k, s, 12, u, Quad(r2, r3, r0, r1));
    u := Quad(r2, r3, r0, r1);
    r2, r3, r0, r1, r4 := DoS5(r2, r3, r0, r1, r4, ops);
    r4, r2, r3, r1, r0 := LK(r4, r2, r3, r1, r0, k, 14, ops);
    Forth(f, g, ops, k, s, 13, u, Quad(r4, r2, r3, r1));
    u := Quad(r4, r2, r3, r1);
    r4, r2, r3, r1, r0 := DoS6(r4, r2, r3, r1, r0, ops);
    r3, r0, r2, r1, r4 := LK(r3, r0, r2, r1, r4, k, 15, ops);
    Forth(f, g, ops, k, s, 14, u, Quad(r3, r0, r2, r1));
    u := Quad(r3, r0, r2, r1);
    r3, r0, r2, r1, r4 := DoS7(r3, r0, r2, r1, r4, ops);
    r4, r2, r1, r3, r0 := LK(r4, r2, r1, r3, r0, k, 16, ops);
    Forth(f, g, ops, k, s, 15, u, Quad(r4, r2, r1, r3));
  }

  method Rounds3(a0: Word, a1: Word, a2: Word, a3: Word, a4: Word, k: seq<Word>, ghost f: RoundFn, ghost g: RoundFn, ghost ops: Ops, ghost s: Quad)
    returns (r0: Word, r1: Word, r2: Word, r3: Word, r4: Word)
    requires RoundsOk(f, g, ops, k) && Quad(a4, a2, a1, a3) == Up(f, Number(), s, 16)
    ensures Quad(r1, r4, r0, r3) == Up(f, Number(), s, 24)
  {
    r0, r1, r2, r3, r4 := a0, a1, a2, a3, a4;
    ghost var u;
    u := Quad(r4, r2, r1, r3);
    r4, r2, r1, r3, r0 := DoS0(r4, r2, r1, r3, r0, ops);
    r1, r2, r3, r4, r0 := LK(r1, r2, r3, r4, r0, k, 17, ops);
    Forth(f, g, ops, k, s, 16, u, Quad(r1, r2, r3, r4));
    u := Quad(r1, r2, r3, r4);
    r1, r2, r3, r4, r0 := DoS1(r1, r2, r3, r4, r0, ops);
    r0, r3, r4, r1, r2 := LK(r0, r3, r4, r1, r2, k, 18, ops);
    Forth(f, g, ops, k, s, 17, u, Quad(r0, r3, r4, r1));
    u := Quad(r0, r3, r4, r1);
    r0, r3, r4, r1, r2 := DoS2(r0, r3, r4, r1, r2, ops);
    r2, r3, r0, r1, r4 := LK(r2, r3, r0, r1, r4, k, 19, ops);
    Forth(f, g, ops, k, s, 18, u, Quad(r2, r3, r0, r1));
    u := Quad(r2, r3, r0, r1);
    r2, r3, r0, r1, r4 := DoS3(r2, r3, r0, r1, r4, ops);
    r1, r4, r3, r2, r0 := LK(r1, r4, r3, r2, r0, k, 20, ops);
    Forth(f, g, ops, k, s, 19, u, Quad(r1, r4, r3, r2));
    u := Quad(r1, r4, r3, r2);
    r1, r4, r3, r2, r0 := DoS4(r1, r4, r3, r2, r0, ops);
    r4, r3, r2, r0, r1 := LK(r4, r3, r2, r0, r1, k, 21, ops);
    Forth(f, g, ops, k, s, 20, u, Quad(r4, r3, r2, r0));
    u := Quad(r4, r3, r2, r0);
    r4, r3, r2, r0, r1 := DoS5(r4, r3, r2, r0, r1, ops);
    r1, r4, r3, r0, r2 := LK(r1, r4, r3, r0, r2, k, 22, ops);
    Forth(f, g, ops, k, s, 21, u, Quad(r1, r4, r3, r0));
    u := Quad(r1, r4, r3, r0);
    r1, r4, r3, r0, r2 := DoS6(r1, r4, r3, r0, r2, ops);
    r3, r2, r4, r0, r1 := LK(r3, r2, r4, r0, r1, k, 23, ops);
    Forth(f, g, ops, k, s, 22, u, Quad(r3, r2, r4, r0));
    u := Quad(r3, r2, r4, r0);
    r3, r2, r4, r0, r1 := DoS7(r3, r2, r4, r0, r1, ops);
    r1, r4, r0, r3, r2 := LK(r1, r4, r0, r3, r2, k, 24, ops);
    Forth(f, g, ops, k, s, 23, u, Quad(r1, r4, r0, r3));
  }

  method Rounds4(a0: Word, a1: Word, a2: Word, a3: Word, a4: Word, k: seq<Word>, ghost f: RoundFn, ghost g: RoundFn, ghost ops: Ops, ghost s: Quad)
    returns (r0: Word, r1: Word, r2: Word, r3: Word, r4: Word)
    requires RoundsOk(f, g, ops, k) && Quad(a1, a4, a0, a3) == Up(f, Number(), s, 24)
    ensures Quad(r3, r4, r1, r2) == Up(f, Number(), s, 31)
  {
    r0, r1, r2, r3, r4 := a0, a1, a2, a3, a4;
    ghost var u;
    u := Quad(r1, r4, r0, r3);
    r1, r4, r0, r3, r2 := DoS0(r1, r4, r0, r3, r2, ops);
    r0, r4, r3, r1, r2 := LK(r0, r4, r3, r1, r2, k, 25, ops);
    Forth(f, g, ops, k, s, 24, u, Quad(r0, r4, r3, r1));
    u := Quad(r0, r4, r3, r1);
    r0, r4, r3, r1, r2 := DoS1(r0, r4, r3, r1, r2, ops);
    r2, r3, r1, r0, r4 := LK(r2, r3, r1, r0, r4, k, 26, ops);
    Forth(f, g, ops, k, s, 25, u, Quad(r2, r3, r1, r0));
    u := Quad(r2, r3, r1, r0);
    r2, r3, r1, r0, r4 := DoS2(r2, r3, r1, r0, r4, ops);
    r4, r3, r2, r0, r1 := LK(r4, r3, r2, r0, r1, k, 27, ops);
    Forth(f, g, ops, k, s, 26, u, Quad(r4, r3, r2, r0));
    u := Quad(r4, r3, r2, r0);
    r4, r3, r2, r0, r1 := DoS3(r4, r3, r2, r0, r1, ops);
    r0, r1, r3, r4, r2 := LK(r0, r1, r3, r4, r2, k, 28, ops);
    Forth(f, g, ops, k, s, 27, u, Quad(r0, r1, r3, r4));
    u := Quad(r0, r1, r3, r4);
    r0, r1, r3, r4, r2 := DoS4(r0, r1, r3, r4, r2, ops);
    r1, r3, r4, r2, r0 := LK(r1, r3, r4, r2, r0, k, 29, ops);
    Forth(f, g, ops, k, s, 28, u, Quad(r1, r3, r4, r2));
    u := Quad(r1, r3, r4, r2);
    r1, r3, r4, r2, r0 := DoS5(r1, r3, r4, r2, r0, ops);
    r0, r1, r3, r2, r4 := LK(r0, r1, r3, r2, r4, k, 30, ops);
    Forth(f, g, ops, k, s, 29, u, Quad(r0, r1, r3, r2));
    u := Quad(r0, r1, r3, r2);
    r0, r1, r3, r2, r4 := DoS6(r0, r1, r3, r2, r4, ops);
    r3, r4, r1, r2, r0 := LK(r3, r4, r1, r2, r0, k, 31, ops);
    Forth(f, g, ops, k, s, 30, u, Quad(r3, r4, r1, r2));
  }

  method InvRounds1(a0: Word, a1: Word, a2: Word, a3: Word, a4: Word, k: seq<Word>, ghost f: RoundFn, ghost g: RoundFn, ghost ops: Ops, ghost s: Quad)
    returns (r0: Word, r1: Word, r2: Word, r3: Word, r4: Word)
    requires RoundsOk(f, g, ops, k) && Quad(a1, a3, a0, a4) == Down(g, Number(), 32, s, 0)
    ensures Quad(r1, r2, r3, r4) == Down(g, Number(), 32, s, 4)
  {
    r0, r1, r2, r3, r4 := a0, a1, a2, a3, a4;
    ghost var u;
    u := Quad(r1, r3, r0, r4);
    r1, r3, r0, r4, r2 := KL(r1, r3, r0, r4, r2, k, 31, ops);
    r1, r3, r0, r4, r2 := DoSI6(r1, r3, r0, r4, r2, ops);
    Back(f, g, ops, k, s, 31, u, Quad(r0, r2, r4, r1));
    u := Quad(r0, r2, r4, r1);
    r0, r2, r4, r1, r3 := KL(r0, r2, r4, r1, r3, k, 30, ops);
    r0, r2, r4, r1, r3 := DoSI5(r0, r2, r4, r1, r3, ops);
    Back(f, g, ops, k, s, 30, u, Quad(r2, r3, r0, r4));
    u := Quad(r2, r3, r0, r4);
    r2, r3, r0, r4, r1 := KL(r2, r3, r0, r4, r1, k, 29, ops);
    r2, r3, r0, r4, r1 := DoSI4(r2, r3, r0, r4, r1, ops);
    Back(f, g, ops, k, s, 29, u, Quad(r2, r0, r1, r4));
    u := Quad(r2, r0, r1, r4);
    r2, r0, r1, r4, r3 := KL(r2, r0, r1, r4, r3, k, 28, ops);
    r2, r0, r1, r4, r3 := DoSI3(r2, r0, r1, r4, r3, ops);
    Back(f, g, ops, k, s, 28, u, Quad(r1, r2, r3, r4));
  }

  method InvRounds2(a0: Word, a1: Word, a2: Word, a3: Word, a4: Word, k: seq<Word>, ghost f: RoundFn, ghost g: RoundFn, ghost ops: Ops, ghost s: Quad)
    returns (r0: Word, r1: Word, r2: Word, r3: Word, r4: Word)
    requires RoundsOk(f, g, ops, k) && Quad(a1, a2, a3, a4) == Down(g, Number(), 32, s, 4)
    ensures Quad(r2, r1, r4, r3) == Down(g, Number(), 32, s, 8)
  {
    r0, r1, r2, r3, r4 := a0, a1, a2, a3, a4;
    ghost var u;
    u := Quad(r1, r2, r3, r4);
    r1, r2, r3, r4, r0 := KL(r1, r2, r3, r4, r0, k, 27, ops);
    r1, r2, r3, r4, r0 := DoSI2(r1, r2, r3, r4, r0, ops);
    Back(f, g, ops, k, s, 27, u, Quad(r2, r0, r4, r3));
    u := Quad(r2, r0, r4, r3);
    r2, r0, r4, r3, r1 := KL(r2, r0, r4, r3, r1, k, 26, ops);
    r2, r0, r4, r3, r1 := DoSI1(r2, r0, r4, r3, r1, ops);
    Back(f, g, ops, k, s, 26, u, Quad(r1, r0, r4, r3));
    u := Quad(r1, r0, r4, r3);
    r1, r0, r4, r3, r2 := KL(r1, r0, r4, r3, r2, k, 25, ops);
    r1, r0, r4, r3, r2 := DoSI0(r1, r0, r4, r3, r2, ops);
    Back(f, g, ops, k, s, 25, u, Quad(r4, r2, r0, r1));
    u := Quad(r4, r2, r0, r1);
    r4, r2, r0, r1, r3 := KL(r4, r2, r0, r1, r3, k, 24, ops);
    r4, r2, r0, r1, r3 := DoSI7(r4, r2, r0, r1, r3, ops);
    Back(f, g, ops, k, s, 24, u, Quad(r2, r1, r4, r3));
  }

  method InvRounds3(a0: Word, a1: Word, a2: Word, a3: Word, a4: Word, k: seq<Word>, ghost f: RoundFn, ghost g: RoundFn, ghost ops: Ops, ghost s: Quad)
    returns (r0: Word, r1: Word, r2: Word, r3: Word, r4: Word)
    requires RoundsOk(f, g, ops, k) && Quad(a2, a1, a4, a3) == Down(g, Number(), 32, s, 8)
    ensures Quad(r0, r2, r3, r1) == Down(g, Number(), 32, s, 16)
  {
    r0, r1, r2, r3, r4 := a0, a1, a2, a3, a4;
    ghost var u;
    u := Quad(r2, r1, r4, r3);
    r2, r1, r4, r3, r0 := KL(r2, r1, r4, r3, r0, k, 23, ops);
    r2, r1, r4, r3, r0 := DoSI6(r2, r1, r4, r3, r0, ops);
    Back(f, g, ops, k, s, 23, u, Quad(r4, r0, r3, r2));
    u := Quad(r4, r0, r3, r2);
    r4, r0, r3, r2, r1 := KL(r4, r0, r3, r2, r1, k, 22, ops);
    r4, r0, r3, r2, r1 := DoSI5(r4, r0, r3, r2, r1, ops);
    Back(f, g, ops, k, s, 22, u, Quad(r0, r1, r4, r3));
    u := Quad(r0, r1, r4, r3);
    r0, r1, r4, r3, r2 := KL(r0, r1, r4, r3, r2, k, 21, ops);
    r0, r1, r4, r3, r2 := DoSI4(r0, r1, r4, r3, r2, ops);
    Back(f, g, ops, k, s, 21, u, Quad(r0, r4, r2, r3));
    u := Quad(r0, r4, r2, r3);
    r0, r4, r2, r3, r1 := KL(r0, r4, r2, r3, r1, k, 20, ops);
    r0, r4, r2, r3, r1 := DoSI3(r0, r4, r2, r3, r1, ops);
    Back(f, g, ops, k, s, 20, u, Quad(r2, r0, r1, r3));
    u := Quad(r2, r0, r1, r3);
    r2, r0, r1, r3, r4 := KL(r2, r0, r1, r3, r4, k, 19, ops);
    r2, r0, r1, r3, r4 := DoSI2(r2, r0, r1, r3, r4, ops);
    Back(f, g, ops, k, s, 19, u, Quad(r0, r4, r3, r1));
    u := Quad(r0, r4, r3, r1);
    r0, r4, r3, r1, r2 := KL(r0, r4, r3, r1, r2, k, 18, ops);
    r0, r4, r3, r1, r2 := DoSI1(r0, r4, r3, r1, r2, ops);
    Back(f, g, ops, k, s, 18, u, Quad(r2, r4, r3, r1));
    u := Quad(r2, r4, r3, r1);
    r2, r4, r3, r1, r0 := KL(r2, r4, r3, r1, r0, k, 17, ops);
    r2, r4, r3, r1, r0 := DoSI0(r2, r4, r3, r1, r0, ops);
    Back(f, g, ops, k, s, 17, u, Quad(r3, r0, r4, r2));
    u := Quad(r3, r0, r4, r2);
    r3, r0, r4, r2, r1 := KL(r3, r0, r4, r2, r1, k, 16, ops);
    r3, r0, r4, r2, r1 := DoSI7(r3, r0, r4, r2, r1, ops);
    Back(f, g, ops, k, s, 16, u, Quad(r0, r2, r3, r1));
  }

  method InvRounds4(a0: Word, a1: Word, a2: Word, a3: Word, a4: Word, k: seq<Word>, ghost f: RoundFn, ghost g: RoundFn, ghost ops: Ops, ghost s: Quad)
    returns (r0: Word, r1: Word, r2: Word, r3: Word, r4: Word)
    requires RoundsOk(f, g, ops, k) && Quad(a0, a2, a3, a1) == Down(g, Number(), 32, s, 16)
    ensures Quad(r4, r0, r1, r2) == Down(g, Number(), 32, s, 24)
  {
    r0, r1, r2, r3, r4 := a0, a1, a2, a3, a4;
    ghost var u;
    u := Quad(r0, r2, r3, r1);
    r0, r2, r3, r1, r4 := KL(r0, r2, r3, r1, r4, k, 15, ops);
    r0, r2, r3, r1, r4 := DoSI6(r0, r2, r3, r1, r4, ops);
    Back(f, g, ops, k, s, 15, u, Quad(r3, r4, r1, r0));
    u := Quad(r3, r4, r1, r0);
    r3, r4, r1, r0, r2 := KL(r3, r4, r1, r0, r2, k, 14, ops);
    r3, r4, r1, r0, r2 := DoSI5(r3, r4, r1, r0, r2, ops);
    Back(f, g, ops, k, s, 14, u, Quad(r4, r2, r3, r1));
    u := Quad(r4, r2, r3, r1);
    r4, r2, r3, r1, r0 := KL(r4, r2, r3, r1, r0, k, 13, ops);
    r4, r2, r3, r1, r0 := DoSI4(r4, r2, r3, r1, r0, ops);
    Back(f, g, ops, k, s, 13, u, Quad(r4, r3, r0, r1));
    u := Quad(r4, r3, r0, r1);
    r4, r3, r0, r1, r2 := KL(r4, r3, r0, r1, r2, k, 12, ops);
    r4, r3, r0, r1, r2 := DoSI3(r4, r3, r0, r1, r2, ops);
    Back(f, g, ops, k, s, 12, u, Quad(r0, r4, r2, r1));
    u := Quad(r0, r4, r2, r1);
    r0, r4, r2, r1, r3 := KL(r0, r4, r2, r1, r3, k, 11, ops);
    r0, r4, r2, r1, r3 := DoSI2(r0, r4, r2, r1, r3, ops);
    Back(f, g, ops, k, s, 11, u, Quad(r4, r3, r1, r2));
    u := Quad(r4, r3, r1, r2);
    r4, r3, r1, r2, r0 := KL(r4, r3, r1, r2, r0, k, 10, ops);
    r4, r3, r1, r2, r0 := DoSI1(r4, r3, r1, r2, r0, ops);
    Back(f, g, ops, k, s, 10, u, Quad(r0, r3, r1, r2));
    u := Quad(r0, r3, r1, r2);
    r0, r3, r1, r2, r4 := KL(r0, r3, r1, r2, r4, k, 9, ops);
    r0, r3, r1, r2, r4 := DoSI0(r0, r3, r1, r2, r4, ops);
    Back(f, g, ops, k, s, 9, u, Quad(r1, r4, r3, r0));
    u := Quad(r1, r4, r3, r0);
    r1, r4, r3, r0, r2 := KL(r1, r4, r3, r0, r2, k, 8, ops);
    r1, r4, r3, r0, r2 := DoSI7(r1, r4, r3, r0, r2, ops);
    Back(f, g, ops, k, s, 8, u, Quad(r4, r0, r1, r2));
  }

  method InvRounds5(a0: Word, a1: Word, a2: Word, a3: Word, a4: Word, k: seq<Word>, ghost f: RoundFn, ghost g: RoundFn, ghost ops: Ops, ghost s: Quad)
    returns (r0: Word, r1: Word, r2: Word, r3: Word, r4: Word)
    requires RoundsOk(f, g, ops, k) && Quad(a4, a0, a1, a2) == Down(g, Number(), 32, s, 24)
    ensures Quad(r2, r3, r1, r4) == Down(g, Number(), 32, s, 31)
  {
    r0, r1, r2, r3, r4 := a0, a1, a2, a3, a4;
    ghost var u;
    u := Quad(r4, r0, r1, r2);
    r4, r0, r1, r2, r3 := KL(r4, r0, r1, r2, r3, k, 7, ops);
    r4, r0, r1, r2, r3 := DoSI6(r4, r0, r1, r2, r3, ops);
    Back(f, g, ops, k, s, 7, u, Quad(r1, r3, r2, r4));
    u := Quad(r1, r3, r2, r4);
    r1, r3, r2, r4, r0 := KL(r1, r3, r2, r4, r0, k, 6, ops);
    r1, r3, r2, r4, r0 := DoSI5(r1, r3, r2, r4, r0, ops);
    Back(f, g, ops, k, s, 6, u, Quad(r3, r0, r1, r2));
    u := Quad(r3, r0, r1, r2);
    r3, r0, r1, r2, r4 := KL(r3, r0, r1, r2, r4, k, 5, ops);
    r3, r0, r1, r2, r4 := DoSI4(r3, r0, r1, r2, r4, ops);
    Back(f, g, ops, k, s, 5, u, Quad(r3, r1, r4, r2));
    u := Quad(r3, r1, r4, r2);
    r3, r1, r4, r2, r0 := KL(r3, r1, r4, r2, r0, k, 4, ops);
    r3, r1, r4, r2, r0 := DoSI3(r3, r1, r4, r2, r0, ops);
    Back(f, g, ops, k, s, 4, u, Quad(r4, r3, r0, r2));
    u := Quad(r4, r3, r0, r2);
    r4, r3, r0, r2, r1 := KL(r4, r3, r0, r2, r1, k, 3, ops);
    r4, r3, r0, r2, r1 := DoSI2(r4, r3, r0, r2, r1, ops);
    Back(f, g, ops, k, s, 3, u, Quad(r3, r1, r2, r0));
    u := Quad(r3, r1, r2, r0);
    r3, r1, r2, r0, r4 := KL(r3, r1, r2, r0, r4, k, 2, ops);
    r3, r1, r2, r0, r4 := DoSI1(r3, r1, r2, r0, r4, ops);
    Back(f, g, ops, k, s, 2, u, Quad(r4, r1, r2, r0));
    u := Quad(r4, r1, r2, r0);
    r4, r1, r2, r0, r3 := KL(r4, r1, r2, r0, r3, k, 1, ops);
    r4, r1, r2, r0, r3 := DoSI0(r4, r1, r2, r0, r3, ops);
    Back(f, g, ops, k, s, 1, u, Quad(r2, r3, r1, r4));
  }

  // ---------------------------------------------------------------- serpent_encrypt and serpent_decrypt

  function RoundKeys(k: seq<Word>): Keys {
    (i: nat) => if 4 * i + 4 <= |k| then KeyAt(k, i) else KeyAt(seq(4, j => Zero()), 0)
  }

  function Zero(): Word { seq(32, i => false) }

  function SubBy(i: nat, q: Quad): Quad { Sub(Boxes(i), q) }

  function InvSubBy(i: nat, q: Quad): Quad { Sub(InvBoxes(i), q) }

  function MixBy(q: Quad, k: Quad): Quad { AddKey(Linear(q), k) }

  function UnmixBy(q: Quad, k: Quad): Quad { InvLinear(AddKey(q, k)) }

  lemma OpsHold()
    ensures OpsOk(Ops(SubBy, MixBy, InvSubBy, UnmixBy))
  {
  }

  lemma RoundsHold(k: seq<Word>)
    requires |k| == 132
    ensures RoundsOk(Round(Boxes, RoundKeys(k)), Unround(InvBoxes, RoundKeys(k)), Ops(SubBy, MixBy, InvSubBy, UnmixBy), k)
  {
    OpsHold();
    var f, g, ops := Round(Boxes, RoundKeys(k)), Unround(InvBoxes, RoundKeys(k)), Ops(SubBy, MixBy, InvSubBy, UnmixBy);
    forall s: Quad, r: nat ensures ForthAt(f, ops, k, s, r) {
      RoundLink(k, s, r);
    }
    forall s: Quad, r: nat ensures BackAt(g, ops, k, s, r) {
      UnroundLink(k, s, r);
    }
  }

  lemma RoundLink(k: seq<Word>, s: Quad, r: nat)
    ensures 0 < r && 4 * r + 4 <= |k| ==>
      RoundBy(Boxes, RoundKeys(k), s, r) == MixBy(SubBy((r + 7) % 8, s), KeyAt(k, r))
  {
  }

  lemma UnroundLink(k: seq<Word>, s: Quad, r: nat)
    ensures 0 < r && 4 * r + 4 <= |k| ==>
      UnroundBy(InvBoxes, RoundKeys(k), s, r) == InvSubBy((r + 7) % 8, UnmixBy(s, KeyAt(k, r)))
  {
  }

  /** The register program of serpent_encrypt, over any operations. */
  method EncryptWith(x: Quad, k: seq<Word>, ghost f: RoundFn, ghost g: RoundFn, ghost ops: Ops) returns (y: Quad)
    requires RoundsOk(f, g, ops, k)
    ensures y == AddKey(ops.sub(7, Up(f, Number(), AddKey(x, KeyAt(k, 0)), 31)), KeyAt(k, 32))
  {
    var r0, r1, r2, r3, r4 := x.a, x.b, x.c, x.d, Zero();
    r0, r1, r2, r3 := AddRoundKey(r0, r1, r2, r3, k, 0);
    ghost var s := Quad(r0, r1, r2, r3);
    assert Up(f, Number(), s, 0) == s;
    r0, r1, r2, r3, r4 := Rounds1(r0, r1, r2, r3, r4, k, f, g, ops, s);
    r0, r1, r2, r3, r4 := Rounds2(r0, r1, r2, r3, r4, k, f, g, ops, s);
    r0, r1, r2, r3, r4 := Rounds3(r0, r1, r2, r3, r4, k, f, g, ops, s);
    r0, r1, r2, r3, r4 := Rounds4(r0, r1, r2, r3, r4, k, f, g, ops, s);
    r3, r4, r1, r2, r0 := DoS7(r3, r4, r1, r2, r0, ops);
    r0, r1, r2, r3 := AddRoundKey(r0, r1, r2, r3, k, 32);
    y := Quad(r0, r1, r2, r3);
  }

  /** The register program of serpent_decrypt, over any operations. */
  method DecryptWith(x: Quad, k: seq<Word>, ghost f: RoundFn, ghost g: RoundFn, ghost ops: Ops) returns (y: Quad)
    requires RoundsOk(f, g, ops, k)
    ensures y == AddKey(Down(g, Number(), 32, ops.isub(7, AddKey(x, KeyAt(k, 32))), 31), KeyAt(k, 0))
  {
    var r0, r1, r2, r3, r4 := x.a, x.b, x.c, x.d, Zero();
    r0, r1, r2, r3 := AddRoundKey(r0, r1, r2, r3, k, 32);
    r0, r1, r2, r3, r4 := DoSI7(r0, r1, r2, r3, r4, ops);
    ghost var s := Quad(r1, r3, r0, r4);
    assert Down(g, Number(), 32, s, 0) == s;
    r0, r1, r2, r3, r4 := InvRounds1(r0, r1, r2, r3, r4, k, f, g, ops, s);
    r0, r1, r2, r3, r4 := InvRounds2(r0, r1, r2, r3, r4, k, f, g, ops, s);
    r0, r1, r2, r3, r4 := InvRounds3(r0, r1, r2, r3, r4, k, f, g, ops, s);
    r0, r1, r2, r3, r4 := InvRounds4(r0, r1, r2, r3, r4, k, f, g, ops, s);
    r0, r1, r2, r3, r4 := InvRounds5(r0, r1, r2, r3, r4, k, f, g, ops, s);
    r2, r3, r1, r4 := AddRoundKey(r2, r3, r1, r4, k, 0);
    y := Quad(r2, r3, r1, r4);
  }

  /** serpent_encrypt */
  method SerpentEncrypt(x: Quad, k: seq<Word>) returns (y: Quad)
    requires |k| == 132
    ensures y == Encrypt(Boxes, RoundKeys(k), x)
  {
    RoundsHold(k);
    y := EncryptWith(x, k, Round(Boxes, RoundKeys(k)), Unround(InvBoxes, RoundKeys(k)), Ops(SubBy, MixBy, InvSubBy, UnmixBy));
  }

  /** serpent_decrypt */
  method SerpentDecrypt(x: Quad, k: seq<Word>) returns (y: Quad)
    requires |k| == 132
    ensures y == Decrypt(InvBoxes, RoundKeys(k), x)
  {
    RoundsHold(k);
    y := DecryptWith(x, k, Round(Boxes, RoundKeys(k)), Unround(InvBoxes, RoundKeys(k)), Ops(SubBy, MixBy, InvSubBy, UnmixBy));
  }

  // ---------------------------------------------------------------- tnepres

  /** Words in reverse order, each with its bytes reversed. */
  function Swapped(q: Quad): Quad { Quad(Swab(q.d), Swab(q.c), Swab(q.b), Swab(q.a)) }

  lemma SwappedTwice(q: Quad)
    ensures Swapped(Swapped(q)) == q
  {
    SwabTwice(q.a);
    SwabTwice(q.b);
    SwabTwice(q.c);
    SwabTwice(q.d);
  }

  method TnepresEncrypt(x: Quad, k: seq<Word>) returns (y: Quad)
    requires |k| == 132
    ensures y == Swapped(Encrypt(Boxes, RoundKeys(k), Swapped(x)))
  {
    var rd := SerpentEncrypt(Swapped(x), k);
    y := Swapped(rd);
  }

  method TnepresDecrypt(x: Quad, k: seq<Word>) returns (y: Quad)
    requires |k| == 132
    ensures y == Swapped(Decrypt(InvBoxes, RoundKeys(k), Swapped(x)))
  {
    var rd := SerpentDecrypt(Swapped(x), k);
    y := Swapped(rd);
  }

  /** tnepres inherits the round trip. */
  lemma TnepresRoundTrip(key: Keys, x: Quad)
    ensures Swapped(Decrypt(InvBoxes, key, Swapped(Swapped(Encrypt(Boxes, key, Swapped(x)))))) == x
  {
    SwappedTwice(Encrypt(Boxes, key, Swapped(x)));
    SerpentRoundTrip(key, Swapped(x));
    SwappedTwice(x);
  }
}
