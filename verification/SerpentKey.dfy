/**
 * serpent_setkey: the key is padded to 256 bits, expanded by a recurrence on five registers, and put
 * through the S-boxes in place from the last round key to the first.
 */
module SerpentKey {
  import opened Bits
  import opened SerpentBoxes
  import opened Serpent

  const EINVAL: int := 22

  // ---------------------------------------------------------------- the key as bits

  /** A byte as its bits, the lowest first. */
  type Octet = s: seq<bool> | |s| == 8 witness seq(8, i => false)

  const ONE: Octet := [true, false, false, false, false, false, false, false]
  const NONE: Octet := [false, false, false, false, false, false, false, false]

  function Flat(key: seq<Octet>): (r: seq<bool>)
    ensures |r| == 8 * |key| && forall j :: 0 <= j < |r| ==> r[j] == key[j / 8][j % 8]
  {
    seq(8 * |key|, j requires 0 <= j < 8 * |key| => key[j / 8][j % 8])
  }

  /** A short key is followed by a one bit and zero bits up to 256. */
  function Padded(bits: seq<bool>): (r: seq<bool>)
    requires |bits| <= 256
    ensures |r| == 256
  {
    if |bits| == 256 then bits else bits + [true] + seq(255 - |bits|, i => false)
  }

  /** The eight words that the recurrence starts from. */
  function KeyWords(bits: seq<bool>): (u: seq<Word>)
    requires |bits| <= 256
    ensures |u| == 8 && forall i :: 0 <= i < 8 ==> u[i] == WordAt(Padded(bits), i)
  {
    seq(8, i requires 0 <= i < 8 => WordAt(Padded(bits), i))
  }

  function WordAt(bits: seq<bool>, i: nat): Word
    requires |bits| == 256 && i < 8
  {
    bits[32 * i..32 * i + 32]
  }

  /** What the copying loops leave in byte `i`. */
  function PadByte(key: seq<Octet>, i: nat): Octet {
    if i < |key| then key[i] else if i == |key| then ONE else NONE
  }

  /** The three copying loops. */
  method PadKey(key: seq<Octet>, k8: array<Octet>)
    requires |key| <= 32 && k8.Length == 32
    modifies k8
    ensures Flat(k8[..]) == Padded(Flat(key))
  {
    var i := 0;
    while i < |key|
      invariant i <= |key| && forall j :: 0 <= j < i ==> k8[j] == PadByte(key, j)
    {
      k8[i] := key[i];
      i := i + 1;
    }
    if i < 32 {
      k8[i] := ONE;
      i := i + 1;
    }
    while i < 32
      invariant |key| <= i <= 32 && forall j :: 0 <= j < i ==> k8[j] == PadByte(key, j)
    {
      k8[i] := NONE;
      i := i + 1;
    }
    PadFlat(key, k8[..]);
  }

  lemma PadFlat(key: seq<Octet>, b: seq<Octet>)
    requires |key| <= 32 && |b| == 32 && forall j :: 0 <= j < 32 ==> b[j] == PadByte(key, j)
    ensures Flat(b) == Padded(Flat(key))
  {
    var r, p := Flat(b), Padded(Flat(key));
    forall j | 0 <= j < 256 ensures r[j] == p[j] {
      PadBit(key, j);
    }
  }

  lemma PadBit(key: seq<Octet>, j: nat)
    requires |key| <= 32 && j < 256
    ensures PadByte(key, j / 8)[j % 8] == Padded(Flat(key))[j]
  {
    var n, q, r := |key|, j / 8, j % 8;
    ByteOfBit(j, n);
    if q == n {
      assert ONE[r] == (r == 0);
    } else if q > n {
      assert !NONE[r];
    }
  }

  lemma ByteOfBit(j: nat, n: nat)
    ensures j / 8 < n <==> j < 8 * n
    ensures j / 8 == n ==> j == 8 * n + j % 8
  {
  }

  /** The padded bytes seen as little-endian words. */
  method LoadWords(k8: array<Octet>, k: array<Word>, ghost bits: seq<bool>)
    requires k8.Length == 32 && k.Length == 132 && |bits| <= 256 && Flat(k8[..]) == Padded(bits)
    modifies k
    ensures k[..8] == KeyWords(bits)
  {
    var i := 0;
    while i < 8
      invariant i <= 8 && forall j :: 0 <= j < i ==> k[j] == KeyWords(bits)[j]
    {
      WordBits(k8[..], i);
      k[i] := Four(k8[4 * i], k8[4 * i + 1], k8[4 * i + 2], k8[4 * i + 3]);
      i := i + 1;
    }
  }

  function Four(a: seq<bool>, b: seq<bool>, c: seq<bool>, d: seq<bool>): (r: Word)
    requires |a| == |b| == |c| == |d| == 8
    ensures forall j :: 0 <= j < 32 ==> r[j] == if j < 8 then a[j] else if j < 16 then b[j - 8] else if j < 24 then c[j - 16] else d[j - 24]
  {
    a + b + c + d
  }

  lemma WordBits(b: seq<Octet>, i: nat)
    requires |b| == 32 && i < 8
    ensures Four(b[4 * i], b[4 * i + 1], b[4 * i + 2], b[4 * i + 3]) == WordAt(Flat(b), i)
  {
    var x, y := Four(b[4 * i], b[4 * i + 1], b[4 * i + 2], b[4 * i + 3]), WordAt(Flat(b), i);
    forall j | 0 <= j < 32 ensures x[j] == y[j] {
      assert (32 * i + j) / 8 == 4 * i + j / 8 && (32 * i + j) % 8 == j % 8;
    }
  }

  // ---------------------------------------------------------------- the recurrence

  function Pow2(n: nat): (r: nat)
    ensures 0 < r
  {
    if n == 0 then 1 else 2 * Pow2(n - 1)
  }

  /** A number below 2^32 as a word. */
  function Num(n: nat): Word { seq(32, j requires 0 <= j < 32 => n / Pow2(j) % 2 == 1) }

  function Phi(): Word { Num(0x9e3779b9) }

  /** The prekeys of the cipher's definition, counted from the eight words of the key. */
  function Prekey(u: seq<Word>, n: nat): Word
    requires |u| == 8
  {
    if n < 8 then u[n] else
    Rol(Xor(Xor(Xor(Xor(Xor(Prekey(u, n - 8), Prekey(u, n - 5)), Prekey(u, n - 3)), Prekey(u, n - 1)), Phi()), Num(n - 8)), 11)
  }

  ghost predicate PrekeyAt(u: seq<Word>, w: seq<Word>, n: nat) {
    |u| == 8 && n < |w| && w[n] == Prekey(u, n)
  }

  /** `w` lists the prekeys. */
  ghost predicate Prekeys(u: seq<Word>, w: seq<Word>) {
    |u| == 8 && |w| == 140 && forall n: nat {:trigger PrekeyAt(u, w, n)} :: n < 140 ==> PrekeyAt(u, w, n)
  }

  lemma ListPrekeys(u: seq<Word>) returns (w: seq<Word>)
    requires |u| == 8
    ensures Prekeys(u, w)
  {
    w := seq(140, n requires 0 <= n < 140 => Prekey(u, n));
  }

  /** The words below `n` are prekeys, and the rest of the key is still there. */
  ghost predicate Filled(s: seq<Word>, w: seq<Word>, n: nat) {
    && |s| == 132 && |w| == 140 && n <= 132
    && (forall j: nat {:trigger s[j]} :: j < n ==> s[j] == w[j + 8])
    && (forall j: nat {:trigger s[j]} :: n <= j < 8 ==> s[j] == w[j])
  }

  lemma Reorder(a: Word, b: Word, c: Word, d: Word, p: Word, i: Word)
    ensures Xor(Xor(Xor(Xor(b, d), c), a), Xor(p, i)) == Xor(Xor(Xor(Xor(Xor(a, b), d), c), p), i)
  {
  }

  lemma NextPrekey(u: seq<Word>, w: seq<Word>, i: nat)
    requires Prekeys(u, w) && i < 132
    ensures Rol(Xor(Xor(Xor(Xor(w[i + 3], w[i + 5]), w[i + 7]), w[i]), Xor(Phi(), Num(i))), 11) == w[i + 8]
  {
    assert PrekeyAt(u, w, i) && PrekeyAt(u, w, i + 3) && PrekeyAt(u, w, i + 5) && PrekeyAt(u, w, i + 7) && PrekeyAt(u, w, i + 8);
    Reorder(w[i], w[i + 3], w[i + 7], w[i + 5], Phi(), Num(i));
  }

  /** keyiter: the next prekey, into its place and into the register of the one it replaces.  The word eight back is
      still in its place, or, for the first eight, in that of the new one. */
  method KeyIter(k: array<Word>, b: Word, c: Word, d: Word, i: nat, ghost u: seq<Word>, ghost w: seq<Word>) returns (r: Word)
    requires Prekeys(u, w) && Filled(k[..], w, i) && i < 132 && b == w[i + 3] && c == w[i + 7] && d == w[i + 5]
    modifies k
    ensures Filled(k[..], w, i + 1) && r == w[i + 8]
  {
    var a := if i < 8 then k[i] else k[i - 8];
    assert a == w[i] && a == if i < 8 then k[..][i] else k[..][i - 8];
    NextPrekey(u, w, i);
    r := Xor(b, d);
    r := Xor(r, c);
    r := Xor(r, a);
    r := Xor(r, Xor(Phi(), Num(i)));
    r := Rol(r, 11);
    k[i] := r;
  }

  /** The last five prekeys before `n`, in the five registers. */
  ghost predicate Held(w: seq<Word>, n: nat, r0: Word, r1: Word, r2: Word, r3: Word, r4: Word) {
    n + 7 < |w| && r0 == w[n + 3] && r1 == w[n + 4] && r2 == w[n + 5] && r3 == w[n + 6] && r4 == w[n + 7]
  }

  /** The steps, which the source writes out, go round the five registers. */
  method Expand(k: array<Word>, ghost u: seq<Word>, ghost w: seq<Word>) returns (r0: Word, r1: Word, r2: Word, r3: Word, r4: Word)
    requires Prekeys(u, w) && Filled(k[..], w, 0)
    modifies k
    ensures Filled(k[..], w, 132) && r3 == w[136] && r4 == w[137] && r0 == w[138] && r1 == w[139]
  {
    assert k[3] == k[..][3] && k[4] == k[..][4] && k[5] == k[..][5] && k[6] == k[..][6] && k[7] == k[..][7];
    r0, r1, r2, r3, r4 := k[3], k[4], k[5], k[6], k[7];
    var n := 0;
    while n < 130
      invariant n <= 130 && n % 5 == 0 && Filled(k[..], w, n) && Held(w, n, r0, r1, r2, r3, r4)
    {
      r0, r1, r2, r3, r4 := Five(k, r0, r1, r2, r3, r4, n, u, w);
      n := n + 5;
    }
    r0 := KeyIter(k, r0, r4, r2, n, u, w);
    r1 := KeyIter(k, r1, r0, r3, n + 1, u, w);
  }

  method Five(k: array<Word>, x0: Word, x1: Word, x2: Word, x3: Word, x4: Word, n: nat, ghost u: seq<Word>, ghost w: seq<Word>)
    returns (r0: Word, r1: Word, r2: Word, r3: Word, r4: Word)
    requires Prekeys(u, w) && Filled(k[..], w, n) && n + 5 <= 132 && Held(w, n, x0, x1, x2, x3, x4)
    modifies k
    ensures Filled(k[..], w, n + 5) && Held(w, n + 5, r0, r1, r2, r3, r4)
  {
    r0, r1, r2, r3, r4 := x0, x1, x2, x3, x4;
    r0 := KeyIter(k, r0, r4, r2, n, u, w);
    r1 := KeyIter(k, r1, r0, r3, n + 1, u, w);
    r2 := KeyIter(k, r2, r1, r4, n + 2, u, w);
    r3 := KeyIter(k, r3, r2, r0, n + 3, u, w);
    r4 := KeyIter(k, r4, r3, r1, n + 4, u, w);
  }

  // ---------------------------------------------------------------- the S-box pass

  /** The S-box of round key `i`: 3, 2, 1, 0, 7, 6, 5, 4, and round again. */
  function BoxOf(i: nat): nat
    requires i <= 32
  {
    (35 - i) % 8
  }

  /** The keys from `i` on have been substituted, those before are prekeys. */
  ghost predicate Passed(s: seq<Word>, w: seq<Word>, ops: Ops, i: nat) {
    && |s| == |w| == 132 && i <= 33
    && forall j: nat {:trigger KeyAt(s, j)} :: j < 33 ==> KeyAt(s, j) == if j < i then KeyAt(w, j) else ops.sub(BoxOf(j), KeyAt(w, j))
  }

  method Store(k: array<Word>, a: Word, b: Word, c: Word, d: Word, at: nat, i: nat, ghost w: seq<Word>, ghost ops: Ops)
    requires i < 33 && at == 4 * i && Passed(k[..], w, ops, i + 1) && Quad(a, b, c, d) == ops.sub(BoxOf(i), KeyAt(w, i))
    modifies k
    ensures Passed(k[..], w, ops, i)
  {
    ghost var s := k[..];
    k[at], k[at + 1], k[at + 2], k[at + 3] := a, b, c, d;
    forall j: nat | j < 33 ensures KeyAt(k[..], j) == if j < i then KeyAt(w, j) else ops.sub(BoxOf(j), KeyAt(w, j)) {
      assert KeyAt(s, j) == if j < i + 1 then KeyAt(w, j) else ops.sub(BoxOf(j), KeyAt(w, j));
    }
  }

  method Load(k: array<Word>, at: nat, i: nat, ghost w: seq<Word>, ghost ops: Ops) returns (a: Word, b: Word, c: Word, d: Word)
    requires i < 33 && at == 4 * i && Passed(k[..], w, ops, i + 1)
    ensures Quad(a, b, c, d) == KeyAt(w, i)
  {
    assert KeyAt(k[..], i) == KeyAt(w, i);
    a, b, c, d := k[at], k[at + 1], k[at + 2], k[at + 3];
  }

  method Keys1(k: array<Word>, x0: Word, x1: Word, x2: Word, x3: Word, x4: Word, ghost w: seq<Word>, ghost ops: Ops)
    returns (r0: Word, r1: Word, r2: Word, r3: Word, r4: Word)
    requires Passed(k[..], w, ops, 33) && OpsOk(ops) && Quad(x3, x4, x0, x1) == KeyAt(w, 32)
    modifies k
    ensures Passed(k[..], w, ops, 28) && Quad(r1, r2, r0, r4) == KeyAt(w, 27)
  {
    r0, r1, r2, r3, r4 := x0, x1, x2, x3, x4;
    var p := 100;
    r3, r4, r0, r1, r2 := DoS3(r3, r4, r0, r1, r2, ops);
    Store(k, r1, r2, r4, r3, p + 28, 32, w, ops);
    r1, r2, r4, r3 := Load(k, p + 24, 31, w, ops);
    r1, r2, r4, r3, r0 := DoS4(r1, r2, r4, r3, r0, ops);
    Store(k, r2, r4, r3, r0, p + 24, 31, w, ops);
    r2, r4, r3, r0 := Load(k, p + 20, 30, w, ops);
    r2, r4, r3, r0, r1 := DoS5(r2, r4, r3, r0, r1, ops);
    Store(k, r1, r2, r4, r0, p + 20, 30, w, ops);
    r1, r2, r4, r0 := Load(k, p + 16, 29, w, ops);
    r1, r2, r4, r0, r3 := DoS6(r1, r2, r4, r0, r3, ops);
    Store(k, r4, r3, r2, r0, p + 16, 29, w, ops);
    r4, r3, r2, r0 := Load(k, p + 12, 28, w, ops);
    r4, r3, r2, r0, r1 := DoS7(r4, r3, r2, r0, r1, ops);
    Store(k, r1, r2, r0, r4, p + 12, 28, w, ops);
    r1, r2, r0, r4 := Load(k, p + 8, 27, w, ops);
  }

  method Keys2(k: array<Word>, x0: Word, x1: Word, x2: Word, x3: Word, x4: Word, ghost w: seq<Word>, ghost ops: Ops)
    returns (r0: Word, r1: Word, r2: Word, r3: Word, r4: Word)
    requires Passed(k[..], w, ops, 28) && OpsOk(ops) && Quad(x1, x2, x0, x4) == KeyAt(w, 27)
    modifies k
    ensures Passed(k[..], w, ops, 23) && Quad(r1, r4, r2, r3) == KeyAt(w, 22)
  {
    r0, r1, r2, r3, r4 := x0, x1, x2, x3, x4;
    var p := 100;
    r1, r2, r0, r4, r3 := DoS0(r1, r2, r0, r4, r3, ops);
    Store(k, r0, r2, r4, r1, p + 8, 27, w, ops);
    r0, r2, r4, r1 := Load(k, p + 4, 26, w, ops);
    r0, r2, r4, r1, r3 := DoS1(r0, r2, r4, r1, r3, ops);
    Store(k, r3, r4, r1, r0, p + 4, 26, w, ops);
    r3, r4, r1, r0 := Load(k, p, 25, w, ops);
    r3, r4, r1, r0, r2 := DoS2(r3, r4, r1, r0, r2, ops);
    Store(k, r2, r4, r3, r0, p, 25, w, ops);
    r2, r4, r3, r0 := Load(k, p - 4, 24, w, ops);
    r2, r4, r3, r0, r1 := DoS3(r2, r4, r3, r0, r1, ops);
    Store(k, r0, r1, r4, r2, p - 4, 24, w, ops);
    r0, r1, r4, r2 := Load(k, p - 8, 23, w, ops);
    r0, r1, r4, r2, r3 := DoS4(r0, r1, r4, r2, r3, ops);
    Store(k, r1, r4, r2, r3, p - 8, 23, w, ops);
    r1, r4, r2, r3 := Load(k, p - 12, 22, w, ops);
  }

  method Keys3(k: array<Word>, x0: Word, x1: Word, x2: Word, x3: Word, x4: Word, ghost w: seq<Word>, ghost ops: Ops)
    returns (r0: Word, r1: Word, r2: Word, r3: Word, r4: Word)
    requires Passed(k[..], w, ops, 23) && OpsOk(ops) && Quad(x1, x4, x2, x3) == KeyAt(w, 22)
    modifies k
    ensures Passed(k[..], w, ops, 18) && Quad(r2, r4, r0, r3) == KeyAt(w, 17)
  {
    r0, r1, r2, r3, r4 := x0, x1, x2, x3, x4;
    var p := 100;
    r1, r4, r2, r3, r0 := DoS5(r1, r4, r2, r3, r0, ops);
    Store(k, r0, r1, r4, r3, p - 12, 22, w, ops);
    r0, r1, r4, r3 := Load(k, p - 16, 21, w, ops);
    r0, r1, r4, r3, r2 := DoS6(r0, r1, r4, r3, r2, ops);
    Store(k, r4, r2, r1, r3, p - 16, 21, w, ops);
    r4, r2, r1, r3 := Load(k, p - 20, 20, w, ops);
    r4, r2, r1, r3, r0 := DoS7(r4, r2, r1, r3, r0, ops);
    Store(k, r0, r1, r3, r4, p - 20, 20, w, ops);
    r0, r1, r3, r4 := Load(k, p - 24, 19, w, ops);
    r0, r1, r3, r4, r2 := DoS0(r0, r1, r3, r4, r2, ops);
    Store(k, r3, r1, r4, r0, p - 24, 19, w, ops);
    r3, r1, r4, r0 := Load(k, p - 28, 18, w, ops);
    p := p - 50;
    r3, r1, r4, r0, r2 := DoS1(r3, r1, r4, r0, r2, ops);
    Store(k, r2, r4, r0, r3, p + 22, 18, w, ops);
    r2, r4, r0, r3 := Load(k, p + 18, 17, w, ops);
  }

  method Keys4(k: array<Word>, x0: Word, x1: Word, x2: Word, x3: Word, x4: Word, ghost w: seq<Word>, ghost ops: Ops)
    returns (r0: Word, r1: Word, r2: Word, r3: Word, r4: Word)
    requires Passed(k[..], w, ops, 18) && OpsOk(ops) && Quad(x2, x4, x0, x3) == KeyAt(w, 17)
    modifies k
    ensures Passed(k[..], w, ops, 13) && Quad(r4, r1, r0, r2) == KeyAt(w, 12)
  {
    r0, r1, r2, r3, r4 := x0, x1, x2, x3, x4;
    var p := 50;
    r2, r4, r0, r3, r1 := DoS2(r2, r4, r0, r3, r1, ops);
    Store(k, r1, r4, r2, r3, p + 18, 17, w, ops);
    r1, r4, r2, r3 := Load(k, p + 14, 16, w, ops);
    r1, r4, r2, r3, r0 := DoS3(r1, r4, r2, r3, r0, ops);
    Store(k, r3, r0, r4, r1, p + 14, 16, w, ops);
    r3, r0, r4, r1 := Load(k, p + 10, 15, w, ops);
    r3, r0, r4, r1, r2 := DoS4(r3, r0, r4, r1, r2, ops);
    Store(k, r0, r4, r1, r2, p + 10, 15, w, ops);
    r0, r4, r1, r2 := Load(k, p + 6, 14, w, ops);
    r0, r4, r1, r2, r3 := DoS5(r0, r4, r1, r2, r3, ops);
    Store(k, r3, r0, r4, r2, p + 6, 14, w, ops);
    r3, r0, r4, r2 := Load(k, p + 2, 13, w, ops);
    r3, r0, r4, r2, r1 := DoS6(r3, r0, r4, r2, r1, ops);
    Store(k, r4, r1, r0, r2, p + 2, 13, w, ops);
    r4, r1, r0, r2 := Load(k, p - 2, 12, w, ops);
  }

  method Keys5(k: array<Word>, x0: Word, x1: Word, x2: Word, x3: Word, x4: Word, ghost w: seq<Word>, ghost ops: Ops)
    returns (r0: Word, r1: Word, r2: Word, r3: Word, r4: Word)
    requires Passed(k[..], w, ops, 13) && OpsOk(ops) && Quad(x4, x1, x0, x2) == KeyAt(w, 12)
    modifies k
    ensures Passed(k[..], w, ops, 8) && Quad(r2, r3, r4, r0) == KeyAt(w, 7)
  {
    r0, r1, r2, r3, r4 := x0, x1, x2, x3, x4;
    var p := 50;
    r4, r1, r0, r2, r3 := DoS7(r4, r1, r0, r2, r3, ops);
    Store(k, r3, r0, r2, r4, p - 2, 12, w, ops);
    r3, r0, r2, r4 := Load(k, p - 6, 11, w, ops);
    r3, r0, r2, r4, r1 := DoS0(r3, r0, r2, r4, r1, ops);
    Store(k, r2, r0, r4, r3, p - 6, 11, w, ops);
    r2, r0, r4, r3 := Load(k, p - 10, 10, w, ops);
    r2, r0, r4, r3, r1 := DoS1(r2, r0, r4, r3, r1, ops);
    Store(k, r1, r4, r3, r2, p - 10, 10, w, ops);
    r1, r4, r3, r2 := Load(k, p - 14, 9, w, ops);
    r1, r4, r3, r2, r0 := DoS2(r1, r4, r3, r2, r0, ops);
    Store(k, r0, r4, r1, r2, p - 14, 9, w, ops);
    r0, r4, r1, r2 := Load(k, p - 18, 8, w, ops);
    r0, r4, r1, r2, r3 := DoS3(r0, r4, r1, r2, r3, ops);
    Store(k, r2, r3, r4, r0, p - 18, 8, w, ops);
    r2, r3, r4, r0 := Load(k, p - 22, 7, w, ops);
  }

  method Keys6(k: array<Word>, x0: Word, x1: Word, x2: Word, x3: Word, x4: Word, ghost w: seq<Word>, ghost ops: Ops)
    returns (r0: Word, r1: Word, r2: Word, r3: Word, r4: Word)
    requires Passed(k[..], w, ops, 8) && OpsOk(ops) && Quad(x2, x3, x4, x0) == KeyAt(w, 7)
    modifies k
    ensures Passed(k[..], w, ops, 3) && Quad(r1, r3, r4, r2) == KeyAt(w, 2)
  {
    r0, r1, r2, r3, r4 := x0, x1, x2, x3, x4;
    var p := 0;
    r2, r3, r4, r0, r1 := DoS4(r2, r3, r4, r0, r1, ops);
    Store(k, r3, r4, r0, r1, p + 28, 7, w, ops);
    r3, r4, r0, r1 := Load(k, p + 24, 6, w, ops);
    r3, r4, r0, r1, r2 := DoS5(r3, r4, r0, r1, r2, ops);
    Store(k, r2, r3, r4, r1, p + 24, 6, w, ops);
    r2, r3, r4, r1 := Load(k, p + 20, 5, w, ops);
    r2, r3, r4, r1, r0 := DoS6(r2, r3, r4, r1, r0, ops);
    Store(k, r4, r0, r3, r1, p + 20, 5, w, ops);
    r4, r0, r3, r1 := Load(k, p + 16, 4, w, ops);
    r4, r0, r3, r1, r2 := DoS7(r4, r0, r3, r1, r2, ops);
    Store(k, r2, r3, r1, r4, p + 16, 4, w, ops);
    r2, r3, r1, r4 := Load(k, p + 12, 3, w, ops);
    r2, r3, r1, r4, r0 := DoS0(r2, r3, r1, r4, r0, ops);
    Store(k, r1, r3, r4, r2, p + 12, 3, w, ops);
    r1, r3, r4, r2 := Load(k, p + 8, 2, w, ops);
  }

  method Keys7(k: array<Word>, x0: Word, x1: Word, x2: Word, x3: Word, x4: Word, ghost w: seq<Word>, ghost ops: Ops)
    returns (r0: Word, r1: Word, r2: Word, r3: Word, r4: Word)
    requires Passed(k[..], w, ops, 3) && OpsOk(ops) && Quad(x1, x3, x4, x2) == KeyAt(w, 2)
    modifies k
    ensures Passed(k[..], w, ops, 0)
  {
    r0, r1, r2, r3, r4 := x0, x1, x2, x3, x4;
    var p := 0;
    r1, r3, r4, r2, r0 := DoS1(r1, r3, r4, r2, r0, ops);
    Store(k, r0, r4, r2, r1, p + 8, 2, w, ops);
    r0, r4, r2, r1 := Load(k, p + 4, 1, w, ops);
    r0, r4, r2, r1, r3 := DoS2(r0, r4, r2, r1, r3, ops);
    Store(k, r3, r4, r0, r1, p + 4, 1, w, ops);
    r3, r4, r0, r1 := Load(k, p, 0, w, ops);
    r3, r4, r0, r1, r2 := DoS3(r3, r4, r0, r1, r2, ops);
    Store(k, r1, r2, r4, r3, p, 0, w, ops);
  }

  /** All 33 substitutions, with the registers as the source renames them. */
  method Substitute(k: array<Word>, x0: Word, x1: Word, x2: Word, x3: Word, x4: Word, ghost w: seq<Word>, ghost ops: Ops)
    requires Passed(k[..], w, ops, 33) && OpsOk(ops) && Quad(x3, x4, x0, x1) == KeyAt(w, 32)
    modifies k
    ensures Passed(k[..], w, ops, 0)
  {
    var r0, r1, r2, r3, r4 := x0, x1, x2, x3, x4;
    r0, r1, r2, r3, r4 := Keys1(k, r0, r1, r2, r3, r4, w, ops);
    r0, r1, r2, r3, r4 := Keys2(k, r0, r1, r2, r3, r4, w, ops);
    r0, r1, r2, r3, r4 := Keys3(k, r0, r1, r2, r3, r4, w, ops);
    r0, r1, r2, r3, r4 := Keys4(k, r0, r1, r2, r3, r4, w, ops);
    r0, r1, r2, r3, r4 := Keys5(k, r0, r1, r2, r3, r4, w, ops);
    r0, r1, r2, r3, r4 := Keys6(k, r0, r1, r2, r3, r4, w, ops);
    r0, r1, r2, r3, r4 := Keys7(k, r0, r1, r2, r3, r4, w, ops);
  }

  // ---------------------------------------------------------------- serpent_setkey

  /** Round key `i` of the cipher's definition. */
  function RoundKey(u: seq<Word>, i: nat): Quad
    requires |u| == 8 && i <= 32
  {
    Sub(Boxes(BoxOf(i)), PrekeyQuad(u, i))
  }

  function PrekeyQuad(u: seq<Word>, i: nat): Quad
    requires |u| == 8
  {
    Quad(Prekey(u, 4 * i + 8), Prekey(u, 4 * i + 9), Prekey(u, 4 * i + 10), Prekey(u, 4 * i + 11))
  }

  ghost predicate Scheduled(k: seq<Word>, u: seq<Word>) {
    |k| == 132 && |u| == 8 && forall i: nat {:trigger KeyAt(k, i)} :: i < 33 ==> KeyAt(k, i) == RoundKey(u, i)
  }

  lemma PrekeyQuads(u: seq<Word>, w: seq<Word>, i: nat)
    requires Prekeys(u, w) && i < 33
    ensures KeyAt(w[8..], i) == PrekeyQuad(u, i)
  {
    var j := 4 * i + 8;
    assert PrekeyAt(u, w, j) && PrekeyAt(u, w, j + 1) && PrekeyAt(u, w, j + 2) && PrekeyAt(u, w, j + 3);
  }

  lemma PassedSchedules(k: seq<Word>, u: seq<Word>, w: seq<Word>)
    requires Prekeys(u, w) && Passed(k, w[8..], Ops(SubBy, MixBy, InvSubBy, UnmixBy), 0)
    ensures Scheduled(k, u)
  {
    forall i: nat | i < 33 ensures KeyAt(k, i) == RoundKey(u, i) {
      PrekeyQuads(u, w, i);
      assert KeyAt(k, i) == SubBy(BoxOf(i), KeyAt(w[8..], i));
    }
  }

  /** The prekeys and then the round keys, in the same 132 words. */
  method Schedule(k: array<Word>, ghost u: seq<Word>, ghost w: seq<Word>)
    requires Prekeys(u, w) && Filled(k[..], w, 0)
    modifies k
    ensures Scheduled(k[..], u)
  {
    var r0, r1, r2, r3, r4 := Expand(k, u, w);
    ghost var v, ops := w[8..], Ops(SubBy, MixBy, InvSubBy, UnmixBy);
    assert k[..] == v;
    OpsHold();
    Substitute(k, r0, r1, r2, r3, r4, v, ops);
    PassedSchedules(k[..], u, w);
  }

  lemma FirstEight(s: seq<Word>, u: seq<Word>, w: seq<Word>)
    requires Prekeys(u, w) && |s| == 132 && s[..8] == u
    ensures Filled(s, w, 0)
  {
    forall j: nat | j < 8 ensures s[j] == w[j] {
      assert PrekeyAt(u, w, j) && s[..8][j] == s[j];
    }
  }

  /** serpent_setkey: every key of at most 256 bits gets the round keys of the cipher's definition. */
  method SetKey(k: array<Word>, key: seq<Octet>) returns (err: int)
    requires k.Length == 132
    modifies k
    ensures err == if |key| > 32 then -EINVAL else 0
    ensures err != 0 ==> k[..] == old(k[..])
    ensures err == 0 ==> Scheduled(k[..], KeyWords(Flat(key)))
  {
    if |key| > 32 {
      return -EINVAL;
    }
    var k8 := new Octet[32](i => NONE);
    PadKey(key, k8);
    LoadWords(k8, k, Flat(key));
    ghost var u := KeyWords(Flat(key));
    ghost var w := ListPrekeys(u);
    FirstEight(k[..], u, w);
    Schedule(k, u, w);
    err := 0;
  }

  function Reversed(key: seq<Octet>): (r: seq<Octet>)
    ensures |r| == |key| && forall i :: 0 <= i < |key| ==> r[i] == key[|key| - 1 - i]
  {
    seq(|key|, i requires 0 <= i < |key| => key[|key| - 1 - i])
  }

  method ReverseKey(key: seq<Octet>) returns (rev: array<Octet>)
    requires |key| <= 32
    ensures fresh(rev) && rev.Length == 32 && rev[..|key|] == Reversed(key)
  {
    rev := new Octet[32](i => NONE);
    var i := 0;
    while i < |key|
      invariant i <= |key| && forall j {:trigger rev[j]} :: |key| - i <= j < |key| ==> rev[j] == key[|key| - 1 - j]
    {
      rev[|key| - i - 1] := key[i];
      i := i + 1;
    }
  }

  /** tnepres_setkey: the key bytes in reverse order. */
  method TnepresSetKey(k: array<Word>, key: seq<Octet>) returns (err: int)
    requires k.Length == 132
    modifies k
    ensures err == if |key| > 32 then -EINVAL else 0
    ensures err != 0 ==> k[..] == old(k[..])
    ensures err == 0 ==> Scheduled(k[..], KeyWords(Flat(Reversed(key))))
  {
    if |key| > 32 {
      return -EINVAL;
    }
    var rev := ReverseKey(key);
    err := SetKey(k, rev[..|key|]);
  }

  /** The cipher under an expanded key: setkey, encrypt, decrypt. */
  method KeyedRoundTrip(k: array<Word>, key: seq<Octet>, x: Quad) returns (y: Quad, z: Quad)
    requires k.Length == 132 && |key| <= 32
    modifies k
    ensures y == Encrypt(Boxes, RoundKeys(k[..]), x) && Scheduled(k[..], KeyWords(Flat(key))) && z == x
  {
    var err := SetKey(k, key);
    y := SerpentEncrypt(x, k[..]);
    z := SerpentDecrypt(y, k[..]);
    SerpentRoundTrip(RoundKeys(k[..]), x);
  }
}
