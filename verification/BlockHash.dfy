/**
 * What the block-oriented digests share: folding a compression function over 64-byte blocks,
 * numbers as bytes, padding, and copying into a context buffer.  The compression function stays a
 * parameter.
 */
module BlockHash {
  import opened Octets

  const BLOCK: nat := 64
  const TWO29: nat := 0x2000_0000
  const TWO32: nat := 0x1_0000_0000
  const TWO64: nat := 0x1_0000_0000_0000_0000

  // ---------------------------------------------------------------- folding

  /** The chaining value after all whole blocks of `m`. */
  function Fold<H>(f: (H, seq<byte>) -> H, h: H, m: seq<byte>): H
    decreases |m|
  {
    if |m| < BLOCK then h else Fold(f, f(h, m[..BLOCK]), m[BLOCK..])
  }

  /** The bytes after the last whole block. */
  function Tail(m: seq<byte>): (r: seq<byte>)
    ensures |r| == |m| % BLOCK
  {
    m[|m| - |m| % BLOCK..]
  }

  lemma {:induction false} FoldAppend<H>(f: (H, seq<byte>) -> H, h: H, a: seq<byte>, b: seq<byte>)
    requires |a| % BLOCK == 0
    ensures Fold(f, h, a + b) == Fold(f, Fold(f, h, a), b)
    decreases |a|
  {
    if |a| < BLOCK {
      assert a + b == b;
    } else {
      assert (a + b)[..BLOCK] == a[..BLOCK] && (a + b)[BLOCK..] == a[BLOCK..] + b;
      FoldAppend(f, f(h, a[..BLOCK]), a[BLOCK..], b);
    }
  }

  lemma FoldOne<H>(f: (H, seq<byte>) -> H, h: H, a: seq<byte>, b: seq<byte>)
    requires |a| == BLOCK
    ensures Fold(f, h, a + b) == Fold(f, f(h, a), b)
  {
    assert (a + b)[..BLOCK] == a && (a + b)[BLOCK..] == b;
  }

  /** Absorbing `d` after `m`: only the chaining value and the unfinished block matter. */
  lemma Absorb<H>(f: (H, seq<byte>) -> H, h: H, m: seq<byte>, d: seq<byte>)
    ensures Fold(f, h, m + d) == Fold(f, Fold(f, h, m), Tail(m) + d)
    ensures Tail(m + d) == Tail(Tail(m) + d)
  {
    var w := m[..|m| - |m| % BLOCK];
    assert m == w + Tail(m);
    assert m + d == w + (Tail(m) + d);
    FoldAppend(f, h, w, Tail(m) + d);
    FoldAppend(f, h, w, Tail(m));
    TailAppend(w, Tail(m) + d);
  }

  lemma TailAppend(a: seq<byte>, b: seq<byte>)
    requires |a| % BLOCK == 0
    ensures Tail(a + b) == Tail(b)
  {
    assert (|a| + |b|) % BLOCK == |b| % BLOCK;
  }

  lemma TailStep(data: seq<byte>, i: nat)
    requires i + BLOCK <= |data|
    ensures Tail(data[i..]) == Tail(data[i + BLOCK..])
  {
    assert data[i..] == data[i..i + BLOCK] + data[i + BLOCK..];
    TailAppend(data[i..i + BLOCK], data[i + BLOCK..]);
  }

  lemma TailShort(m: seq<byte>)
    requires |m| < BLOCK
    ensures Tail(m) == m
  {
  }

  /** One more block taken from position `i`. */
  lemma BlockStep<H>(f: (H, seq<byte>) -> H, h: H, data: seq<byte>, i: nat)
    requires i + BLOCK <= |data|
    ensures Fold(f, h, data[i..]) == Fold(f, f(h, data[i..i + BLOCK]), data[i + BLOCK..])
  {
    assert data[i..] == data[i..i + BLOCK] + data[i + BLOCK..];
    FoldOne(f, h, data[i..i + BLOCK], data[i + BLOCK..]);
  }

  /** A first block made of pending bytes and the front of the data. */
  lemma FirstBlock<H>(f: (H, seq<byte>) -> H, h: H, pending: seq<byte>, data: seq<byte>, i: nat)
    requires i <= |data| && |pending| + i == BLOCK
    ensures Fold(f, h, pending + data) == Fold(f, f(h, pending + data[..i]), data[i..])
    ensures Tail(pending + data) == Tail(data[i..])
  {
    assert pending + data == (pending + data[..i]) + data[i..];
    FoldOne(f, h, pending + data[..i], data[i..]);
    TailAppend(pending + data[..i], data[i..]);
  }

  // ---------------------------------------------------------------- numbers as bytes

  function Pow256(w: nat): (r: nat)
    ensures r > 0
  {
    if w == 0 then 1 else 256 * Pow256(w - 1)
  }

  /** The low `w` bytes of `n`, most significant first. */
  function BigEndian(n: nat, w: nat): (r: seq<byte>)
    ensures |r| == w
  {
    if w == 0 then [] else BigEndian(n / 256, w - 1) + [ByteOf(n)]
  }

  /** The low `w` bytes of `n`, least significant first. */
  function LittleEndian(n: nat, w: nat): (r: seq<byte>)
    ensures |r| == w
  {
    if w == 0 then [] else [ByteOf(n)] + LittleEndian(n / 256, w - 1)
  }

  lemma Split256(hi: nat, lo: nat, p: nat)
    ensures (hi * (256 * p) + lo) / 256 == hi * p + lo / 256 && (hi * (256 * p) + lo) % 256 == lo % 256
  {
    assert hi * (256 * p) == 256 * (hi * p);
  }

  lemma {:induction false} BigEndianJoin(hi: nat, lo: nat, v: nat, w: nat)
    requires lo < Pow256(w)
    ensures BigEndian(hi * Pow256(w) + lo, v + w) == BigEndian(hi, v) + BigEndian(lo, w)
    decreases w
  {
    if w > 0 {
      Split256(hi, lo, Pow256(w - 1));
      BigEndianJoin(hi, lo / 256, v, w - 1);
    }
  }

  lemma {:induction false} LittleEndianJoin(hi: nat, lo: nat, v: nat, w: nat)
    requires lo < Pow256(w)
    ensures LittleEndian(hi * Pow256(w) + lo, w + v) == LittleEndian(lo, w) + LittleEndian(hi, v)
    decreases w
  {
    if w > 0 {
      Split256(hi, lo, Pow256(w - 1));
      LittleEndianJoin(hi, lo / 256, v, w - 1);
    }
  }

  /** Only the low `w` bytes count. */
  lemma BigEndianLow(n: nat, q: nat, r: nat, w: nat)
    requires n == q * Pow256(w) + r && r < Pow256(w)
    ensures BigEndian(n, w) == BigEndian(r, w)
  {
    BigEndianJoin(q, r, 0, w);
  }

  /** Different numbers below 256^w have different bytes. */
  lemma {:induction false} BigEndianInjective(x: nat, y: nat, w: nat)
    requires x < Pow256(w) && y < Pow256(w) && BigEndian(x, w) == BigEndian(y, w)
    ensures x == y
    decreases w
  {
    if w > 0 {
      var a, b := BigEndian(x / 256, w - 1), BigEndian(y / 256, w - 1);
      assert a == BigEndian(x, w)[..w - 1] && b == BigEndian(y, w)[..w - 1];
      assert BigEndian(x, w)[w - 1] == BigEndian(y, w)[w - 1];
      ByteInjective(x, y);
      BigEndianInjective(x / 256, y / 256, w - 1);
    }
  }

  lemma FourBytes(t: nat)
    ensures BigEndian(t, 4) == [ByteOf(t / 256 / 256 / 256), ByteOf(t / 256 / 256), ByteOf(t / 256), ByteOf(t)]
    ensures LittleEndian(t, 4) == [ByteOf(t), ByteOf(t / 256), ByteOf(t / 256 / 256), ByteOf(t / 256 / 256 / 256)]
  {
    var a, b, c := t / 256, t / 256 / 256, t / 256 / 256 / 256;
    assert BigEndian(c, 1) == [ByteOf(c)] && LittleEndian(c, 1) == [ByteOf(c)];
    assert BigEndian(b, 2) == [ByteOf(c), ByteOf(b)] && LittleEndian(b, 2) == [ByteOf(b), ByteOf(c)];
    assert BigEndian(a, 3) == [ByteOf(c), ByteOf(b), ByteOf(a)] && LittleEndian(a, 3) == [ByteOf(a), ByteOf(b), ByteOf(c)];
  }

  /** A chaining value as bytes, word by word. */
  function WordBytes(s: seq<nat>, w: nat): (r: seq<byte>)
    ensures |r| == |s| * w
  {
    if s == [] then [] else WordBytes(s[..|s| - 1], w) + BigEndian(s[|s| - 1], w)
  }

  function WordBytesLittle(s: seq<nat>, w: nat): (r: seq<byte>)
    ensures |r| == |s| * w
  {
    if s == [] then [] else WordBytesLittle(s[..|s| - 1], w) + LittleEndian(s[|s| - 1], w)
  }

  lemma Pow32()
    ensures Pow256(4) == TWO32 && Pow256(8) == TWO64
  {
    assert Pow256(1) == 256 && Pow256(2) == 0x1_0000 && Pow256(3) == 0x100_0000;
    assert Pow256(5) == 256 * TWO32 && Pow256(6) == 0x1_0000 * TWO32 && Pow256(7) == 0x100_0000 * TWO32;
  }

  /** A 64-bit number as two words. */
  lemma Halves(b: nat)
    ensures b % TWO64 == b / TWO32 % TWO32 * TWO32 + b % TWO32
  {
  }

  // ---------------------------------------------------------------- padding

  function Zeros(n: nat): (r: seq<byte>)
    ensures |r| == n && forall i :: 0 <= i < n ==> r[i] == 0
  {
    seq(n, i => 0)
  }

  /** How many zero bytes follow the 0x80 of a message of `n` bytes when `w` length bytes end the last block. */
  function ZeroCount(n: nat, w: nat): (k: nat)
    requires w < BLOCK
    ensures k < BLOCK && (n + 1 + k + w) % BLOCK == 0
  {
    (2 * BLOCK - 1 - w - n % BLOCK) % BLOCK
  }

  /** A message, a one bit, the fewest zero bits, and the length field `len`. */
  function Padded(m: seq<byte>, len: seq<byte>): (r: seq<byte>)
    requires |len| < BLOCK
    ensures |r| % BLOCK == 0
  {
    m + [0x80] + Zeros(ZeroCount(|m|, |len|)) + len
  }

  lemma PaddedInjective(m: seq<byte>, x: seq<byte>, y: seq<byte>)
    requires |x| == |y| < BLOCK
    ensures Padded(m, x) == Padded(m, y) <==> x == y
  {
    var p := m + [0x80] + Zeros(ZeroCount(|m|, |x|));
    assert Padded(m, x)[|p|..] == x && Padded(m, y)[|p|..] == y;
  }

  lemma ZeroCounts(n: nat, w: nat)
    requires w < BLOCK
    ensures ZeroCount(n, w) == if n % BLOCK + 1 + w <= BLOCK then 63 - n % BLOCK - w else 127 - n % BLOCK - w
  {
  }

  lemma PaddedAs(m: seq<byte>, len: seq<byte>, z: seq<byte>)
    requires |len| < BLOCK && z == Zeros(ZeroCount(|m|, |len|))
    ensures Padded(m, len) == m + ([0x80] + z + len)
  {
  }

  /** The padding fits into the unfinished block. */
  lemma PadOne<H>(f: (H, seq<byte>) -> H, h: H, m: seq<byte>, len: seq<byte>, z: seq<byte>, b: seq<byte>)
    requires |m| % BLOCK + 1 + |len| <= BLOCK && z == Zeros(63 - |m| % BLOCK - |len|)
    requires b == Tail(m) + ([0x80] + z + len)
    ensures Fold(f, h, Padded(m, len)) == f(Fold(f, h, m), b)
  {
    ZeroCounts(|m|, |len|);
    PaddedAs(m, len, z);
    Absorb(f, h, m, [0x80] + z + len);
    FoldBlock(f, Fold(f, h, m), b);
  }

  lemma FoldBlock<H>(f: (H, seq<byte>) -> H, h: H, b: seq<byte>)
    requires |b| == BLOCK
    ensures Fold(f, h, b) == f(h, b)
  {
    FoldOne(f, h, b, []);
    assert b + [] == b;
  }

  /** The padding needs one block more. */
  lemma PadTwo<H>(f: (H, seq<byte>) -> H, h: H, m: seq<byte>, len: seq<byte>, z: seq<byte>, b: seq<byte>, c: seq<byte>)
    requires |len| < BLOCK < |m| % BLOCK + 1 + |len| && z == Zeros(63 - |m| % BLOCK)
    requires b == Tail(m) + ([0x80] + z) && c == Zeros(BLOCK - |len|) + len
    ensures Fold(f, h, Padded(m, len)) == f(f(Fold(f, h, m), b), c)
  {
    ZeroCounts(|m|, |len|);
    ZerosJoin(63 - |m| % BLOCK, BLOCK - |len|);
    var s := [0x80] + (z + Zeros(BLOCK - |len|)) + len;
    PaddedAs(m, len, z + Zeros(BLOCK - |len|));
    Absorb(f, h, m, s);
    Regroup(Tail(m), [0x80], z, Zeros(BLOCK - |len|), len);
    FoldOne(f, Fold(f, h, m), b, c);
    FoldBlock(f, f(Fold(f, h, m), b), c);
  }

  lemma Regroup(t: seq<byte>, x: seq<byte>, y: seq<byte>, z: seq<byte>, w: seq<byte>)
    ensures t + (x + (y + z) + w) == (t + (x + y)) + (z + w)
  {
  }

  lemma Shift(t: seq<byte>, x: seq<byte>, y: seq<byte>, z: seq<byte>)
    ensures (t + x) + (y + z) == t + (x + y + z)
  {
  }

  lemma ZerosJoin(a: nat, b: nat)
    ensures Zeros(a) + Zeros(b) == Zeros(a + b)
  {
  }

  // ---------------------------------------------------------------- context buffers

  /** `x` became `y` by storing `b` at `j`. */
  ghost predicate Stored(x: seq<byte>, y: seq<byte>, j: nat, b: seq<byte>) {
    && |x| == |y| && j + |b| <= |x|
    && y[..j] == x[..j] && y[j..j + |b|] == b && y[j + |b|..] == x[j + |b|..]
  }

  /** Two adjacent stores are one. */
  lemma StoredTwice(x: seq<byte>, y: seq<byte>, z: seq<byte>, j: nat, a: seq<byte>, b: seq<byte>)
    requires Stored(x, y, j, a) && Stored(y, z, j + |a|, b)
    ensures Stored(x, z, j, a + b)
  {
    assert z[..j] == z[..j + |a|][..j] == y[..j + |a|][..j];
    assert z[j..j + |a|] == z[..j + |a|][j..] == y[..j + |a|][j..];
    assert z[j..j + |a + b|] == z[j..j + |a|] + z[j + |a|..j + |a| + |b|];
    assert z[j + |a + b|..] == y[j + |a|..][|b|..] == x[j + |a|..][|b|..];
  }

  /** A store that reaches the end. */
  lemma StoredToEnd(x: seq<byte>, y: seq<byte>, j: nat, b: seq<byte>)
    requires Stored(x, y, j, b) && j + |b| == |x|
    ensures y == x[..j] + b
  {
    assert y == y[..j] + y[j..j + |b|] + y[j + |b|..];
  }

  /** memcpy into a buffer. */
  method Copy(dst: array<byte>, at: nat, src: seq<byte>)
    requires at + |src| <= dst.Length
    modifies dst
    ensures Stored(old(dst[..]), dst[..], at, src)
  {
    forall k | 0 <= k < |src| {
      dst[at + k] := src[k];
    }
  }
}
