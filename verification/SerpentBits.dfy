/** The diffusion of Serpent bit by bit: which bits each output bit of the linear transformation
    depends on, as the cipher's definition lists them, and the first prekey of a zero key. */
module SerpentBits {
  import opened Bits
  import opened SerpentBoxes
  import opened Serpent
  import opened SerpentKey

  /** The bit that a rotation by `n` brings to position `i`. */
  function From(i: nat, n: nat): (j: nat)
    requires i < 32 && n <= 64
    ensures j < 32
  {
    (i + 64 - n) % 32
  }

  /** The sum modulo 2 of three bits. */
  function Sum3(x: bool, y: bool, z: bool): bool { (x != y) != z }

  lemma RolFrom(x: Word, n: nat, i: nat)
    requires n < 32 && i < 32
    ensures Rol(x, n)[i] == x[From(i, n)]
  {
  }

  lemma FromFrom(i: nat, m: nat, n: nat)
    requires i < 32 && m <= 32 && n <= 32
    ensures From(From(i, m), n) == From(i, m + n)
  {
  }

  /** Bit `i` of the second word is the sum of three bits of the input. */
  function BitB(q: Quad, i: nat): bool
    requires i < 32
  {
    Sum3(q.b[From(i, 1)], q.a[From(i, 14)], q.c[From(i, 4)])
  }

  /** So is bit `i` of the fourth, except where the shift by 3 brings in a zero. */
  function BitD(q: Quad, i: nat): bool
    requires i < 32
  {
    Sum3(q.d[From(i, 7)], q.c[From(i, 10)], From(i, 7) >= 3 && q.a[From(i, 23)])
  }

  /** One bit of three words added and rotated. */
  lemma MixBit(x: Word, y: Word, z: Word, n: nat, i: nat)
    requires n < 32 && i < 32
    ensures var j := From(i, n); Rol(Xor(Xor(x, y), z), n)[i] == Sum3(x[j], y[j], z[j])
  {
    RolFrom(Xor(Xor(x, y), z), n, i);
  }

  lemma RolTwice(x: Word, m: nat, n: nat, i: nat)
    requires m <= 32 && n < 32 && i < 32
    ensures Rol(x, n)[From(i, m)] == x[From(i, m + n)]
  {
    RolFrom(x, n, From(i, m));
    FromFrom(i, m, n);
  }

  lemma LinearB(q: Quad, i: nat)
    requires i < 32
    ensures Linear(q).b[i] == BitB(q, i)
  {
    MixBit(q.b, Rol(q.a, 13), Rol(q.c, 3), 1, i);
    RolTwice(q.a, 1, 13, i);
    RolTwice(q.c, 1, 3, i);
  }

  lemma LinearD(q: Quad, i: nat)
    requires i < 32
    ensures Linear(q).d[i] == BitD(q, i)
  {
    MixBit(q.d, Rol(q.c, 3), Shl(Rol(q.a, 13), 3), 7, i);
    RolTwice(q.c, 7, 3, i);
    ShiftedBit(q.a, i);
  }

  lemma ShiftedBit(x: Word, i: nat)
    requires i < 32
    ensures Shl(Rol(x, 13), 3)[From(i, 7)] == (From(i, 7) >= 3 && x[From(i, 23)])
  {
    var j := From(i, 7);
    if j >= 3 {
      FromFrom(i, 7, 3);
      assert j - 3 == From(i, 10);
      RolTwice(x, 10, 13, i);
    }
  }

  /** The linear transformation as a table of bits. The first and third words are sums of one more
      bit of the input and of bits of the other two. */
  lemma LinearBits(q: Quad, i: nat)
    requires i < 32
    ensures Linear(q).b[i] == BitB(q, i) && Linear(q).d[i] == BitD(q, i)
    ensures var j := From(i, 5); Linear(q).a[i] == Sum3(q.a[From(i, 18)], BitB(q, j), BitD(q, j))
    ensures var j := From(i, 22); Linear(q).c[i] == Sum3(q.c[From(i, 25)], BitD(q, j), j >= 7 && BitB(q, j - 7))
  {
    LinearB(q, i);
    LinearD(q, i);
    LinearA(q, i, Linear(q).b, Linear(q).d);
    LinearC(q, i, Linear(q).b, Linear(q).d);
  }

  lemma LinearA(q: Quad, i: nat, b: Word, d: Word)
    requires i < 32 && b == Linear(q).b && d == Linear(q).d
    ensures var j := From(i, 5); Linear(q).a[i] == Sum3(q.a[From(i, 18)], BitB(q, j), BitD(q, j))
  {
    var j := From(i, 5);
    MixBit(Rol(q.a, 13), b, d, 5, i);
    RolTwice(q.a, 5, 13, i);
    LinearB(q, j);
    LinearD(q, j);
  }

  lemma LinearC(q: Quad, i: nat, b: Word, d: Word)
    requires i < 32 && b == Linear(q).b && d == Linear(q).d
    ensures var j := From(i, 22); Linear(q).c[i] == Sum3(q.c[From(i, 25)], BitD(q, j), j >= 7 && BitB(q, j - 7))
  {
    var c, j := Rol(q.c, 3), From(i, 22);
    MixBit(c, d, Shl(b, 7), 22, i);
    RolTwice(q.c, 22, 3, i);
    LinearD(q, j);
    LateBit(q, b, j);
    assert Linear(q).c[i] == Sum3(c[j], d[j], Shl(b, 7)[j]);
  }

  lemma LateBit(q: Quad, b: Word, j: nat)
    requires j < 32 && b == Linear(q).b
    ensures Shl(b, 7)[j] == (j >= 7 && BitB(q, j - 7))
  {
    if j >= 7 {
      LinearB(q, j - 7);
    }
  }

  /** The first row of the table in the definition of Serpent: output bit 0 is the sum of the input bits
      16, 52, 56, 70, 83, 94 and 105, where bit `4 * i + w` is bit `i` of word `w`. */
  lemma FirstRow(q: Quad)
    ensures Linear(q).a[0] == Sum3(Sum3(q.a[4], q.a[13], q.a[14]), Sum3(q.c[17], q.d[20], q.c[23]), q.b[26])
  {
    LinearBits(q, 0);
  }

  // ---------------------------------------------------------------- words as numbers

  /** The `k` lowest binary digits. */
  function Binary(n: nat, k: nat): (s: seq<bool>)
    ensures |s| == k
  {
    if k == 0 then [] else [n % 2 == 1] + Binary(n / 2, k - 1)
  }

  lemma Halve(n: nat, p: nat)
    requires p > 0
    ensures n / (2 * p) == n / 2 / p
  {
    var q, r := n / 2, n % 2;
    var k, t := q / p, q % p;
    assert q == p * k + t;
    assert n == 2 * p * k + (2 * t + r);
    DivideIs(n, 2 * p, k, 2 * t + r);
  }

  lemma DivideIs(n: nat, d: nat, k: nat, r: nat)
    requires n == d * k + r && r < d
    ensures n / d == k
  {
    var e := n / d;
    assert n == d * e + n % d;
    if e < k {
      Multiples(d, e, k);
      assert false;
    } else if k < e {
      Multiples(d, k, e);
      assert false;
    }
  }

  lemma {:induction false} Multiples(d: nat, x: nat, y: nat)
    requires x < y
    ensures d * x + d <= d * y
    decreases y
  {
    var z := y - 1;
    assert d * y == d * z + d;
    if x < z {
      Multiples(d, x, z);
    }
  }

  lemma {:induction false} BinaryAt(n: nat, k: nat, j: nat)
    requires j < k
    ensures Binary(n, k)[j] == (n / Pow2(j) % 2 == 1)
  {
    if j > 0 {
      BinaryAt(n / 2, k - 1, j - 1);
      Halve(n, Pow2(j - 1));
    }
  }

  lemma NumBinary(n: nat)
    ensures Num(n) == Binary(n, 32)
  {
    forall j | 0 <= j < 32 ensures Num(n)[j] == Binary(n, 32)[j] {
      BinaryAt(n, 32, j);
    }
  }

  lemma {:induction false} BinaryJoin(hi: nat, lo: nat, v: nat, w: nat)
    requires lo < Pow2(w)
    ensures Binary(hi * Pow2(w) + lo, w + v) == Binary(lo, w) + Binary(hi, v)
    decreases w
  {
    if w > 0 {
      var p := Pow2(w - 1);
      assert hi * (2 * p) + lo == 2 * (hi * p) + lo;
      assert (hi * (2 * p) + lo) / 2 == hi * p + lo / 2 && (hi * (2 * p) + lo) % 2 == lo % 2;
      BinaryJoin(hi, lo / 2, v, w - 1);
    }
  }

  /** Rotating a word exchanges the two parts of its number. */
  lemma RolNum(hi: nat, lo: nat, n: nat, a: nat, b: nat)
    requires n < 32 && hi < Pow2(n) && lo < Pow2(32 - n)
    requires a == hi * Pow2(32 - n) + lo && b == lo * Pow2(n) + hi
    ensures Rol(Num(a), n) == Num(b)
  {
    BinaryJoin(hi, lo, n, 32 - n);
    BinaryJoin(lo, hi, 32 - n, n);
    RolBinary(a, b, Binary(lo, 32 - n), Binary(hi, n));
  }

  lemma RolBinary(a: nat, b: nat, x: seq<bool>, y: seq<bool>)
    requires |x| + |y| == 32 && |y| < 32 && Binary(a, 32) == x + y && Binary(b, 32) == y + x
    ensures Rol(Num(a), |y|) == Num(b)
  {
    NumBinary(a);
    NumBinary(b);
    Exchange(x, y);
  }

  lemma Exchange(x: seq<bool>, y: seq<bool>)
    requires |x| + |y| == 32 && |y| < 32
    ensures Rol(x + y, |y|) == y + x
  {
    var r := Rol(x + y, |y|);
    forall i | 0 <= i < 32 ensures r[i] == (y + x)[i] {
    }
  }

  lemma Powers()
    ensures Pow2(11) == 2048 && Pow2(21) == 0x20_0000
  {
    assert Pow2(5) == 32 && Pow2(10) == 1024 && Pow2(15) == 0x8000 && Pow2(18) == 0x4_0000;
  }

  /** The golden ratio 9e3779b9 rotated by 11. */
  lemma PhiRotated(n: nat)
    requires n == 11
    ensures Rol(Phi(), n) == Num(0xbbcdccf1)
  {
    Powers();
    RolNum(0x4f1, 0x17_79b9, n, 0x9e3779b9, 0xbbcdccf1);
  }

  lemma Zero(i: nat)
    requires i < 32
    ensures !Num(0)[i]
  {
  }

  /** The first prekey of a zero key is the golden ratio rotated. */
  lemma ZeroKey(u: seq<Word>, n: nat)
    requires |u| == 8 && n == 8 && forall i :: 0 <= i < 8 ==> u[i] == Num(0)
    ensures Prekey(u, n) == Num(0xbbcdccf1)
  {
    var z := Num(0);
    var x := Xor(Xor(Xor(Xor(Xor(z, z), z), z), Phi()), z);
    forall i | 0 <= i < 32 ensures x[i] == Phi()[i] {
      Zero(i);
    }
    assert x == Phi();
    assert Prekey(u, 0) == z && Prekey(u, 3) == z && Prekey(u, 5) == z && Prekey(u, 7) == z;
    PhiRotated(11);
  }
}
