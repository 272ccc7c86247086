/** The tables of the AES code, built from powers and logarithms to the base 3. */
module AesTables {
  import opened Gf256
  import opened AesSpec
  import opened AesWords
  import Octets

  /** Entry `i` of the four tables `tab[0..3]`, which differ by a rotation. */
  datatype Quad = Quad(t0: bv32, t1: bv32, t2: bv32, t3: bv32)

  /** A finished 256-entry table, looked up by a byte. */
  type Table = bv8 -> Quad

  datatype Tables = Tables(rco: seq<bv32>, ft: Table, it: Table, fl: Table, il: Table)

  function Index(x: bv8): (i: nat)
    ensures i < 256
  {
    x as nat
  }

  function At(i: nat): bv8
    requires i < 256
  {
    i as bv8
  }

  lemma IndexAt(i: nat)
    requires i < 256
    ensures Index(At(i)) == i
  {
    Octets.ByteBack(i);
  }

  lemma AtIndex(x: bv8)
    ensures At(Index(x)) == x
  {
  }

  // ---------------------------------------------------------------- multiplication by table

  /** The power table, and a logarithm for every nonzero element. */
  ghost predicate LogsOk(pow: seq<bv8>, log: seq<nat>) {
    && |pow| == 256 && |log| == 256
    && (forall i :: 0 <= i < 256 ==> pow[i] == Pow(i))
    && (forall i :: 0 <= i < 256 ==> log[i] < 256)
    && (forall x: bv8 {:trigger HasLog(log, x)} :: x != 0 ==> HasLog(log, x))
  }

  predicate HasLog(log: seq<nat>, x: bv8)
    requires |log| == 256
  {
    Pow(log[Index(x)]) == x
  }

  /** f_mult: the eight-bit sum of the logarithms wraps, and the carry is added back. */
  function FMult(pow: seq<bv8>, log: seq<nat>, a: bv8, b: bv8): bv8
    requires |pow| == 256 && |log| == 256 && forall i :: 0 <= i < 256 ==> log[i] < 256
  {
    var aa := log[Index(a)];
    var cc := (aa + log[Index(b)]) % 256;
    pow[cc + (if cc < aa then 1 else 0)]
  }

  function FfMult(pow: seq<bv8>, log: seq<nat>, a: bv8, b: bv8): bv8
    requires |pow| == 256 && |log| == 256 && forall i :: 0 <= i < 256 ==> log[i] < 256
  {
    if a != 0 && b != 0 then FMult(pow, log, a, b) else 0
  }

  /** The end-around carry reduces the exponent modulo 255. */
  lemma CarryIndex(i: nat, j: nat)
    requires i < 256 && j < 256
    ensures
      var cc := (i + j) % 256;
      var k := cc + (if cc < i then 1 else 0);
      k < 256 && Pow(k) == Pow(i + j)
  {
    if i + j >= 256 {
      Period(i + j - 255);
    }
  }

  lemma MulLogs(a: bv8, b: bv8, i: nat, j: nat)
    requires a == Pow(i) && b == Pow(j)
    ensures Mul(a, b) == Pow(i + j)
  {
    MulPows(i, j);
  }

  lemma FMultIsPow(pow: seq<bv8>, log: seq<nat>, a: bv8, b: bv8)
    requires LogsOk(pow, log)
    ensures FMult(pow, log, a, b) == Pow(log[Index(a)] + log[Index(b)])
  {
    CarryIndex(log[Index(a)], log[Index(b)]);
  }

  lemma LogOf(pow: seq<bv8>, log: seq<nat>, a: bv8)
    requires LogsOk(pow, log) && a != 0
    ensures a == Pow(log[Index(a)])
  {
    assert HasLog(log, a);
  }

  /** The tables multiply in the field. */
  lemma FMultIsMul(pow: seq<bv8>, log: seq<nat>, a: bv8, b: bv8)
    requires LogsOk(pow, log) && a != 0 && b != 0
    ensures FMult(pow, log, a, b) == Mul(a, b)
  {
    LogOf(pow, log, a);
    LogOf(pow, log, b);
    FMultIsPow(pow, log, a, b);
    MulLogs(a, b, log[Index(a)], log[Index(b)]);
  }

  lemma FfMultIsMul(pow: seq<bv8>, log: seq<nat>, a: bv8, b: bv8)
    requires LogsOk(pow, log) && a != 0
    ensures FfMult(pow, log, a, b) == Mul(a, b)
  {
    if b == 0 {
      MulZero(a);
    } else {
      FMultIsMul(pow, log, a, b);
    }
  }

  // ---------------------------------------------------------------- gen_tabs

  ghost predicate Logged(log: seq<nat>, j: nat)
    requires |log| == 256
  {
    Pow(log[Index(Pow(j))]) == Pow(j)
  }

  lemma IndexInjective(x: bv8, y: bv8)
    requires Index(x) == Index(y)
    ensures x == y
  {
    AtIndex(x);
    AtIndex(y);
  }

  lemma LogStep(log: seq<nat>, i: nat, j: nat)
    requires |log| == 256 && (j == i || Logged(log, j))
    ensures Logged(log[Index(Pow(i)) := i], j)
  {
    if Index(Pow(j)) == Index(Pow(i)) {
      IndexInjective(Pow(j), Pow(i));
    }
  }

  lemma LogsDone(pow: seq<bv8>, log: seq<nat>)
    requires |pow| == 256 && |log| == 256 && forall i :: 0 <= i < 256 ==> pow[i] == Pow(i) && log[i] < 256
    requires forall j :: 0 <= j < 256 ==> Logged(log, j)
    ensures LogsOk(pow, log[Index(1) := 0])
  {
    var log' := log[Index(1) := 0];
    forall x: bv8 | x != 0 ensures HasLog(log', x) {
      if Index(x) == Index(1) {
        IndexInjective(x, 1);
      } else {
        var j := Generates(x);
        assert Logged(log, j);
      }
    }
  }

  /** The first loop: powers of 3 and their logarithms. */
  method GenLogs() returns (pow: array<bv8>, log: array<nat>)
    ensures fresh(pow) && fresh(log) && pow.Length == 256 && log.Length == 256
    ensures LogsOk(pow[..], log[..])
  {
    pow, log := new bv8[256], new nat[256](_ => 0);
    var p: bv8 := 1;
    var i := 0;
    while i < 256
      invariant 0 <= i <= 256 && p == Pow(i)
      invariant forall j :: 0 <= j < i ==> pow[j] == Pow(j)
      invariant forall j :: 0 <= j < 256 ==> log[j] < 256
      invariant forall j :: 0 <= j < i ==> Logged(log[..], j)
    {
      pow[i] := p;
      ghost var before := log[..];
      log[Index(p)] := i;
      assert log[..] == before[Index(Pow(i)) := i];
      forall j | 0 <= j < i + 1 ensures Logged(log[..], j) {
        LogStep(before, i, j);
      }
      p := p ^ ((p << 1) ^ (if p & 0x80 != 0 then 0x1b else 0));
      assert p == Times3(Pow(i));
      i := i + 1;
    }
    LogsDone(pow[..], log[..]);
    log[Index(1)] := 0;
  }

  /** The affine step as the code computes it. */
  function CodeAffine(p: bv8): bv8 {
    var q := ((p >> 7) | (p << 1)) ^ ((p >> 6) | (p << 2));
    p ^ (0x63 ^ q ^ ((q >> 6) | (q << 2)))
  }

  lemma CodeAffineIsAffine(p: bv8)
    ensures CodeAffine(p) == Affine(p)
  {
  }

  /** 255 minus the logarithm is the logarithm of the inverse. */
  lemma TableInverse(pow: seq<bv8>, log: seq<nat>, x: bv8)
    requires LogsOk(pow, log)
    ensures (if x != 0 then pow[255 - log[Index(x)]] else 0) == Inverse(x)
  {
    if x != 0 {
      assert HasLog(log, x);
      InversePow(log[Index(x)]);
    }
  }

  ghost predicate Unboxed(isb: seq<bv8>, x: bv8)
    requires |isb| == 256
  {
    isb[Index(Sub(x))] == x
  }

  lemma BoxStep(isb: seq<bv8>, x: bv8, y: bv8)
    requires |isb| == 256 && (x == y || Unboxed(isb, y))
    ensures Unboxed(isb[Index(Sub(x)) := x], y)
  {
    if Index(Sub(x)) == Index(Sub(y)) {
      IndexInjective(Sub(x), Sub(y));
      SubInverse(x);
      SubInverse(y);
    }
  }

  function BoxEntry(pow: seq<bv8>, log: seq<nat>, i: nat): bv8
    requires |pow| == 256 && |log| == 256 && i < 256 && log[i] < 256
  {
    CodeAffine(if i != 0 then pow[255 - log[i]] else 0)
  }

  lemma BoxEntryIsSub(pow: seq<bv8>, log: seq<nat>, i: nat)
    requires LogsOk(pow, log) && i < 256
    ensures BoxEntry(pow, log, i) == Sub(At(i))
  {
    IndexAt(i);
    TableInverse(pow, log, At(i));
    CodeAffineIsAffine(Inverse(At(i)));
    assert At(i) == 0 <==> i == 0 by {
      IndexAt(0);
    }
  }

  ghost predicate Boxed(sbx: seq<bv8>, isb: seq<bv8>, j: nat)
    requires |sbx| == |isb| == 256 && j < 256
  {
    sbx[j] == Sub(At(j)) && Unboxed(isb, At(j))
  }

  ghost predicate BoxesOk(sbx: seq<bv8>, isb: seq<bv8>) {
    && |sbx| == |isb| == 256
    && forall x: bv8 {:trigger Index(x)} :: sbx[Index(x)] == Sub(x) && isb[Index(x)] == InvSub(x)
  }

  lemma BoxesDone(sbx: seq<bv8>, isb: seq<bv8>)
    requires |sbx| == |isb| == 256 && forall j {:trigger Boxed(sbx, isb, j)} :: 0 <= j < 256 ==> Boxed(sbx, isb, j)
    ensures BoxesOk(sbx, isb)
  {
    forall x: bv8 ensures sbx[Index(x)] == Sub(x) && isb[Index(x)] == InvSub(x) {
      AtIndex(x);
      assert Boxed(sbx, isb, Index(x));
      AtIndex(InvSub(x));
      assert Boxed(sbx, isb, Index(InvSub(x)));
      SubInverse(x);
    }
  }

  lemma BoxedStep(sbx: seq<bv8>, isb: seq<bv8>, p: bv8, i: nat, j: nat)
    requires |sbx| == |isb| == 256 && i < 256 && p == Sub(At(i)) && j <= i && (j < i ==> Boxed(sbx, isb, j))
    ensures Boxed(sbx[i := p], isb[Index(p) := At(i)], j)
  {
    BoxStep(isb, At(i), At(j));
  }

  /** The third loop: the S-box and its inverse. */
  method GenBoxes(pow: array<bv8>, log: array<nat>) returns (sbx: array<bv8>, isb: array<bv8>)
    requires pow.Length == 256 && log.Length == 256 && LogsOk(pow[..], log[..])
    ensures fresh(sbx) && fresh(isb) && sbx.Length == 256 && isb.Length == 256
    ensures BoxesOk(sbx[..], isb[..])
  {
    sbx, isb := new bv8[256], new bv8[256];
    var i := 0;
    while i < 256
      invariant 0 <= i <= 256
      invariant forall j {:trigger Boxed(sbx[..], isb[..], j)} :: 0 <= j < i ==> Boxed(sbx[..], isb[..], j)
    {
      BoxEntryIsSub(pow[..], log[..], i);
      var p := CodeAffine(if i != 0 then pow[255 - log[i]] else 0);
      assert p == BoxEntry(pow[..], log[..], i);
      ghost var s, b := sbx[..], isb[..];
      sbx[i] := p;
      isb[Index(p)] := At(i);
      assert sbx[..] == s[i := p] && isb[..] == b[Index(p) := At(i)];
      forall j | 0 <= j < i + 1 ensures Boxed(sbx[..], isb[..], j) {
        assert j < i ==> Boxed(s, b, j);
        BoxedStep(s, b, p, i, j);
      }
      i := i + 1;
    }
    BoxesDone(sbx[..], isb[..]);
  }

  /** Round constants, section 5.2. */
  function Rcon(i: nat): bv8 { if i == 0 then 1 else Xt(Rcon(i - 1)) }

  /** The second loop. */
  method GenRcon() returns (rco: array<bv32>)
    ensures fresh(rco) && rco.Length == 10
    ensures RcoOk(rco[..])
    ensures rco[..] == [0x01, 0x02, 0x04, 0x08, 0x10, 0x20, 0x40, 0x80, 0x1b, 0x36]
  {
    rco := new bv32[10];
    var p: bv8 := 1;
    var i := 0;
    while i < 10
      invariant 0 <= i <= 10 && p == Rcon(i)
      invariant forall j :: 0 <= j < i ==> rco[j] == Rcon(j) as bv32 && ColOf(rco[j]) == Col(Rcon(j), 0, 0, 0)
    {
      rco[i] := p as bv32;
      LowByte(p);
      p := Xt(p);
      i := i + 1;
    }
    Constants();
  }

  /** Rcon[1] to Rcon[10] of section 5.2. */
  lemma Constants()
    ensures Rcon(0) == 0x01 && Rcon(1) == 0x02 && Rcon(2) == 0x04 && Rcon(3) == 0x08 && Rcon(4) == 0x10
    ensures Rcon(5) == 0x20 && Rcon(6) == 0x40 && Rcon(7) == 0x80 && Rcon(8) == 0x1b && Rcon(9) == 0x36
  {
  }

  lemma LowByte(p: bv8)
    ensures ColOf(p as bv32) == Col(p, 0, 0, 0)
  {
  }

  function Spread(t: bv32): Quad { Quad(t, Rotl8(t), Rotl16(t), Rotl24(t)) }

  function Part(q: Quad, k: nat): bv32 { if k == 0 then q.t0 else if k == 1 then q.t1 else if k == 2 then q.t2 else q.t3 }

  function Turned(v: Col, k: nat): Col { if k == 0 then v else if k == 1 then Turn3(v) else if k == 2 then Turn2(v) else Turn1(v) }

  lemma SpreadTurns(t: bv32, v: Col, k: nat)
    requires ColOf(t) == v && k < 4
    ensures ColOf(Part(Spread(t), k)) == Turned(v, k)
  {
    if
    case k == 0 =>
    case k == 1 => Rotl8Col(t);
    case k == 2 => Rotl16Col(t);
    case k == 3 => Rotl24Col(t);
  }

  function FtCol(s: bv8): Col { Col(Mul(2, s), s, s, Mul(3, s)) }

  function ItCol(q: bv8): Col { Col(Mul(14, q), Mul(9, q), Mul(13, q), Mul(11, q)) }

  // What a byte's entry holds in each table.

  ghost predicate FlOk(q: Quad, x: bv8) {
    forall k: nat {:trigger Part(q, k)} :: k < 4 ==> ColOf(Part(q, k)) == Turned(Col(Sub(x), 0, 0, 0), k)
  }

  lemma FlSpread(t: bv32, x: bv8)
    requires ColOf(t) == Col(Sub(x), 0, 0, 0)
    ensures FlOk(Spread(t), x)
  {
    forall k: nat | k < 4 ensures ColOf(Part(Spread(t), k)) == Turned(Col(Sub(x), 0, 0, 0), k) {
      SpreadTurns(t, Col(Sub(x), 0, 0, 0), k);
    }
  }

  ghost predicate FtOk(q: Quad, x: bv8) {
    forall k: nat {:trigger Part(q, k)} :: k < 4 ==> ColOf(Part(q, k)) == Turned(FtCol(Sub(x)), k)
  }

  lemma FtSpread(t: bv32, x: bv8)
    requires ColOf(t) == FtCol(Sub(x))
    ensures FtOk(Spread(t), x)
  {
    forall k: nat | k < 4 ensures ColOf(Part(Spread(t), k)) == Turned(FtCol(Sub(x)), k) {
      SpreadTurns(t, FtCol(Sub(x)), k);
    }
  }

  ghost predicate IlOk(q: Quad, x: bv8) {
    forall k: nat {:trigger Part(q, k)} :: k < 4 ==> ColOf(Part(q, k)) == Turned(Col(InvSub(x), 0, 0, 0), k)
  }

  lemma IlSpread(t: bv32, x: bv8)
    requires ColOf(t) == Col(InvSub(x), 0, 0, 0)
    ensures IlOk(Spread(t), x)
  {
    forall k: nat | k < 4 ensures ColOf(Part(Spread(t), k)) == Turned(Col(InvSub(x), 0, 0, 0), k) {
      SpreadTurns(t, Col(InvSub(x), 0, 0, 0), k);
    }
  }

  ghost predicate ItOk(q: Quad, x: bv8) {
    forall k: nat {:trigger Part(q, k)} :: k < 4 ==> ColOf(Part(q, k)) == Turned(ItCol(InvSub(x)), k)
  }

  lemma ItSpread(t: bv32, x: bv8)
    requires ColOf(t) == ItCol(InvSub(x))
    ensures ItOk(Spread(t), x)
  {
    forall k: nat | k < 4 ensures ColOf(Part(Spread(t), k)) == Turned(ItCol(InvSub(x)), k) {
      SpreadTurns(t, ItCol(InvSub(x)), k);
    }
  }

  ghost predicate RcoOk(rco: seq<bv32>) {
    |rco| == 10 && forall i :: 0 <= i < 10 ==> ColOf(rco[i]) == Col(Rcon(i), 0, 0, 0)
  }

  ghost predicate TablesOk(t: Tables) {
    RcoOk(t.rco) && Holds(t.fl, FlOk) && Holds(t.ft, FtOk) && Holds(t.il, IlOk) && Holds(t.it, ItOk)
  }

  ghost predicate Holds(tab: Table, ok: (Quad, bv8) -> bool) {
    forall x {:trigger tab(x)} :: ok(tab(x), x)
  }

  ghost predicate Entry(s: seq<Quad>, ok: (Quad, bv8) -> bool, y: bv8)
    requires |s| == 256
  {
    ok(s[Index(y)], y)
  }

  /** The entries below `i` are as they should be. */
  ghost predicate Filled(s: seq<Quad>, ok: (Quad, bv8) -> bool, i: nat) {
    |s| == 256 && forall y: bv8 {:trigger Entry(s, ok, y)} :: Index(y) < i ==> Entry(s, ok, y)
  }

  lemma FilledNext(s: seq<Quad>, ok: (Quad, bv8) -> bool, q: Quad, x: bv8)
    requires Filled(s, ok, Index(x)) && ok(q, x)
    ensures Filled(s[Index(x) := q], ok, Index(x) + 1)
  {
    var i := Index(x);
    var s' := s[i := q];
    forall y: bv8 | Index(y) < i + 1 ensures Entry(s', ok, y) {
      if Index(y) == i {
        IndexInjective(y, x);
      } else {
        assert Entry(s, ok, y);
      }
    }
  }

  method SetEntry(tab: array<Quad>, i: nat, q: Quad, ghost ok: (Quad, bv8) -> bool, ghost x: bv8)
    requires tab.Length == 256 && Index(x) == i && Filled(tab[..], ok, i) && ok(q, x)
    modifies tab
    ensures Filled(tab[..], ok, i + 1)
  {
    FilledNext(tab[..], ok, q, x);
    ghost var s := tab[..];
    tab[i] := q;
    assert tab[..] == s[i := q];
  }

  lemma BoxAt(sbx: seq<bv8>, isb: seq<bv8>, i: nat) returns (x: bv8)
    requires BoxesOk(sbx, isb) && i < 256
    ensures Index(x) == i && sbx[i] == Sub(x) && isb[i] == InvSub(x)
  {
    x := At(i);
    IndexAt(i);
  }

  method FillFl(fl: array<Quad>, i: nat, p: bv8, ghost x: bv8)
    requires fl.Length == 256 && p == Sub(x) && Index(x) == i && Filled(fl[..], FlOk, i)
    modifies fl
    ensures Filled(fl[..], FlOk, i + 1)
  {
    LowByte(p);
    FlSpread(p as bv32, x);
    SetEntry(fl, i, Spread(p as bv32), FlOk, x);
  }

  method FillIl(il: array<Quad>, i: nat, p: bv8, ghost x: bv8)
    requires il.Length == 256 && p == InvSub(x) && Index(x) == i && Filled(il[..], IlOk, i)
    modifies il
    ensures Filled(il[..], IlOk, i + 1)
  {
    LowByte(p);
    IlSpread(p as bv32, x);
    SetEntry(il, i, Spread(p as bv32), IlOk, x);
  }

  method FtWord(pow: seq<bv8>, log: seq<nat>, p: bv8) returns (t: bv32)
    requires LogsOk(pow, log)
    ensures ColOf(t) == FtCol(p)
  {
    FfMultIsMul(pow, log, 2, p);
    FfMultIsMul(pow, log, 3, p);
    t := Word(FfMult(pow, log, 2, p), p, p, FfMult(pow, log, 3, p));
    ColOfWord(FtCol(p));
  }

  method ItWord(pow: seq<bv8>, log: seq<nat>, p: bv8) returns (t: bv32)
    requires LogsOk(pow, log)
    ensures ColOf(t) == ItCol(p)
  {
    FfMultIsMul(pow, log, 14, p);
    FfMultIsMul(pow, log, 9, p);
    FfMultIsMul(pow, log, 13, p);
    FfMultIsMul(pow, log, 11, p);
    t := Word(FfMult(pow, log, 14, p), FfMult(pow, log, 9, p), FfMult(pow, log, 13, p), FfMult(pow, log, 11, p));
    ColOfWord(ItCol(p));
  }

  method FillFt(ft: array<Quad>, i: nat, p: bv8, pow: seq<bv8>, log: seq<nat>, ghost x: bv8)
    requires LogsOk(pow, log) && ft.Length == 256 && p == Sub(x) && Index(x) == i && Filled(ft[..], FtOk, i)
    modifies ft
    ensures Filled(ft[..], FtOk, i + 1)
  {
    var t := FtWord(pow, log, p);
    FtSpread(t, x);
    SetEntry(ft, i, Spread(t), FtOk, x);
  }

  method ItQuad(pow: seq<bv8>, log: seq<nat>, p: bv8, ghost x: bv8) returns (q: Quad)
    requires LogsOk(pow, log) && p == InvSub(x)
    ensures ItOk(q, x)
  {
    var t := ItWord(pow, log, p);
    ItSpread(t, x);
    q := Spread(t);
  }

  method FillIt(it: array<Quad>, i: nat, p: bv8, pow: seq<bv8>, log: seq<nat>, ghost x: bv8)
    requires LogsOk(pow, log) && it.Length == 256 && p == InvSub(x) && Index(x) == i && Filled(it[..], ItOk, i)
    modifies it
    ensures Filled(it[..], ItOk, i + 1)
  {
    var q := ItQuad(pow, log, p, x);
    SetEntry(it, i, q, ItOk, x);
  }

  method FillForward(fl: array<Quad>, ft: array<Quad>, i: nat, pow: seq<bv8>, log: seq<nat>, sbx: seq<bv8>, ghost isb: seq<bv8>)
    requires LogsOk(pow, log) && BoxesOk(sbx, isb) && i < 256 && fl != ft && fl.Length == ft.Length == 256
    requires Filled(fl[..], FlOk, i) && Filled(ft[..], FtOk, i)
    modifies fl, ft
    ensures Filled(fl[..], FlOk, i + 1) && Filled(ft[..], FtOk, i + 1)
  {
    ghost var x := BoxAt(sbx, isb, i);
    FillFl(fl, i, sbx[i], x);
    FillFt(ft, i, sbx[i], pow, log, x);
  }

  method FillBackward(il: array<Quad>, it: array<Quad>, i: nat, pow: seq<bv8>, log: seq<nat>, ghost sbx: seq<bv8>, isb: seq<bv8>)
    requires LogsOk(pow, log) && BoxesOk(sbx, isb) && i < 256 && il != it && il.Length == it.Length == 256
    requires Filled(il[..], IlOk, i) && Filled(it[..], ItOk, i)
    modifies il, it
    ensures Filled(il[..], IlOk, i + 1) && Filled(it[..], ItOk, i + 1)
  {
    ghost var x := BoxAt(sbx, isb, i);
    FillIl(il, i, isb[i], x);
    FillIt(it, i, isb[i], pow, log, x);
  }

  /** The fourth loop: the word tables. */
  method GenWords(pow: seq<bv8>, log: seq<nat>, sbx: seq<bv8>, isb: seq<bv8>)
    returns (fl: array<Quad>, ft: array<Quad>, il: array<Quad>, it: array<Quad>)
    requires LogsOk(pow, log) && BoxesOk(sbx, isb)
    ensures Filled(fl[..], FlOk, 256) && Filled(ft[..], FtOk, 256)
    ensures Filled(il[..], IlOk, 256) && Filled(it[..], ItOk, 256)
  {
    fl, ft, il, it := new Quad[256], new Quad[256], new Quad[256], new Quad[256];
    var i := 0;
    while i < 256
      invariant 0 <= i <= 256 && fl.Length == ft.Length == il.Length == it.Length == 256
      invariant Filled(fl[..], FlOk, i) && Filled(ft[..], FtOk, i)
      invariant Filled(il[..], IlOk, i) && Filled(it[..], ItOk, i)
    {
      FillForward(fl, ft, i, pow, log, sbx, isb);
      FillBackward(il, it, i, pow, log, sbx, isb);
      i := i + 1;
    }
  }

  /** The table kept in an array. */
  function Read(s: seq<Quad>): Table {
    x => if |s| == 256 then s[Index(x)] else Quad(0, 0, 0, 0)
  }

  lemma ReadHolds(s: seq<Quad>, ok: (Quad, bv8) -> bool)
    requires Filled(s, ok, 256)
    ensures Holds(Read(s), ok)
  {
    forall x ensures ok(Read(s)(x), x) {
      assert Entry(s, ok, x);
    }
  }

  /** gen_tabs */
  method GenTabs() returns (t: Tables)
    ensures TablesOk(t)
  {
    var pow, log := GenLogs();
    var rco := GenRcon();
    var sbx, isb := GenBoxes(pow, log);
    var fl, ft, il, it := GenWords(pow[..], log[..], sbx[..], isb[..]);
    ReadHolds(fl[..], FlOk);
    ReadHolds(ft[..], FtOk);
    ReadHolds(il[..], IlOk);
    ReadHolds(it[..], ItOk);
    t := Tables(rco[..], Read(ft[..]), Read(it[..]), Read(fl[..]), Read(il[..]));
  }
}
