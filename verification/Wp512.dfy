/**
 * crypto/wp512.c: the streaming interface of Whirlpool.  The source keeps a bit-oriented buffer and
 * a 256-bit length as 32 bytes; bytes are shifted and or-ed into place.  The compression function is
 * a parameter.
 */
module Wp512 {
  import opened Octets
  import opened BlockHash
  import opened Seqs

  type u8 = x: nat | x < 256

  type u64 = x: nat | x < TWO64

  type Hash = s: seq<u64> | |s| == 8 witness [0, 0, 0, 0, 0, 0, 0, 0]

  const INIT: Hash := [0, 0, 0, 0, 0, 0, 0, 0]
  const LENGTHBYTES: nat := 32

  type Compress = (Hash, seq<byte>) -> Hash

  /** One bit, the fewest zero bits, the 256-bit length in bits, most significant byte first. */
  function Standard(m: seq<byte>): seq<byte> { Padded(m, BigEndian(8 * |m|, LENGTHBYTES)) }

  function Digest(f: Compress, m: seq<byte>): (r: seq<byte>)
    ensures |r| == 64
  {
    WordBytes(Fold(f, INIT, Standard(m)), 8)
  }

  // ---------------------------------------------------------------- the length counter

  /** A byte string as a number, most significant byte first. */
  function Value(s: seq<u8>): nat {
    if s == [] then 0 else Value(s[..|s| - 1]) * 256 + s[|s| - 1]
  }

  lemma {:induction false} ValueBound(s: seq<u8>)
    ensures Value(s) < Pow256(|s|)
  {
    if s != [] {
      ValueBound(s[..|s| - 1]);
    }
  }

  lemma {:induction false} ValueSplit(a: seq<u8>, b: seq<u8>)
    ensures Value(a + b) == Value(a) * Pow256(|b|) + Value(b)
    decreases |b|
  {
    if b == [] {
      assert a + b == a;
    } else {
      var c := b[..|b| - 1];
      assert (a + b)[..|a + b| - 1] == a + c;
      ValueSplit(a, c);
      Times(Value(a), Pow256(|c|), Value(c));
    }
  }

  lemma Times(x: nat, p: nat, y: nat)
    ensures (x * p + y) * 256 == x * (256 * p) + y * 256
  {
  }

  /** One byte of the addition moves the carry one place up. */
  lemma CarryStep(front: nat, d: nat, carry: nat, value: nat, p: nat, back: nat)
    ensures
      var c := carry + d + value % 256;
      (front * 256 + d + carry + value) * p + back == (front + c / 256 + value / 256) * (256 * p) + (c % 256 * p + back)
  {
    var c := carry + d + value % 256;
    var hi := front + c / 256 + value / 256;
    assert front * 256 + d + carry + value == hi * 256 + c % 256;
    Spread(hi, c % 256, p);
  }

  lemma Spread(hi: nat, lo: nat, p: nat)
    ensures (hi * 256 + lo) * p == hi * (256 * p) + lo * p
  {
  }

  /** The sum that the loop of wp512_update keeps. */
  ghost function Pending(s: seq<u8>, i: int, carry: nat, value: nat): nat
    requires -1 <= i < |s|
  {
    (Value(s[..i + 1]) + carry + value) * Pow256(|s| - 1 - i) + Value(s[i + 1..])
  }

  lemma PendingStep(s: seq<u8>, i: nat, carry: nat, value: nat, s': seq<u8>)
    requires i < |s| && s' == s[i := (carry + s[i] + value % 256) % 256]
    ensures Pending(s', i - 1, (carry + s[i] + value % 256) / 256, value / 256) == Pending(s, i, carry, value)
  {
    var c := carry + s[i] + value % 256;
    var back := s[i + 1..];
    assert s[..i + 1][..i] == s[..i] == s'[..i];
    assert s'[i..] == [c % 256] + back;
    ValueSplit([c % 256], back);
    assert [c % 256][..0] == [];
    assert Value([c % 256]) == c % 256;
    CarryStep(Value(s[..i]), s[i], carry, value, Pow256(|back|), Value(back));
  }

  lemma PendingOut(s: seq<u8>, carry: nat, value: nat)
    ensures Pending(s, -1, carry, value) == (carry + value) * Pow256(|s|) + Value(s)
  {
    assert s[-1 + 1..] == s && s[..-1 + 1] == [];
  }

  lemma PendingNone(s: seq<u8>, i: int)
    requires -1 <= i < |s|
    ensures Pending(s, i, 0, 0) == Value(s)
  {
    var a, b := s[..i + 1], s[i + 1..];
    assert s == a + b && |b| == |s| - 1 - i;
    ValueSplit(a, b);
    assert Value(a) + 0 + 0 == Value(a);
  }

  /** When the loop stops, the sum and the stored number differ by a multiple of 256^n. */
  lemma PendingDone(s: seq<u8>, i: int, carry: nat, value: nat, total: nat) returns (c: nat)
    requires -1 <= i < |s| && Pending(s, i, carry, value) == total && (i == -1 || (carry == 0 && value == 0))
    ensures total == Above(c, s) && Value(s) < Pow256(|s|)
  {
    ValueBound(s);
    c := if i == -1 then carry + value else 0;
    if i == -1 {
      PendingOut(s, carry, value);
    } else {
      PendingNone(s, i);
    }
  }

  /** The numbers that leave the counter `s` behind. */
  function Above(c: nat, s: seq<u8>): nat { c * Pow256(|s|) + Value(s) }

  /** The counter holds the bits of `n` bytes modulo 256^w. */
  ghost predicate Counts(s: seq<u8>, n: nat) { exists c: nat :: Above(c, s) == 8 * n }

  lemma Collect(a: nat, b: nat, p: nat)
    ensures a * p + b * p == (a + b) * p
  {
  }

  lemma CountsMore(s: seq<u8>, n: nat, k: nat, s': seq<u8>, c: nat)
    requires Counts(s, n) && |s'| == |s| && Value(s) + 8 * k == Above(c, s')
    ensures Counts(s', n + k)
  {
    var d: nat :| Above(d, s) == 8 * n;
    Collect(c, d, Pow256(|s|));
    assert Above(c + d, s') == 8 * (n + k);
  }

  lemma LengthField(s: seq<u8>, n: nat)
    requires Counts(s, n)
    ensures BytesOf(s) == BigEndian(8 * n, |s|)
  {
    var c: nat :| Above(c, s) == 8 * n;
    ValueBound(s);
    BytesOfValue(s);
    BigEndianLow(8 * n, c, Value(s), |s|);
  }

  /** How many of `len` bytes one call takes in: the bit count is computed in 32 bits. */
  function Kept(len: nat): (k: nat)
    ensures k <= len && (k == len <==> len < TWO29)
  {
    len % TWO29
  }

  /** A call of exactly 2^29 bytes is dropped whole. */
  lemma LongCallDropped()
    ensures Kept(TWO29) == 0
  {
  }

  /** The length in bits, computed in 32 bits, and the bits missing to a whole byte. */
  method BitCount(len: nat) returns (bits: nat, gap: nat)
    ensures bits == 8 * Kept(len) && bits < TWO32 && gap == 0
  {
    bits := len * 8 % TWO32;
    gap := (8 - bits % 8) % 8;
  }

  // ---------------------------------------------------------------- shifted bytes

  function LowByte(w: bv32): byte { (w & 0xff) as bv8 }

  /** Eight bits that begin `gap` bits into `x`. */
  function Take(x: byte, y: byte, gap: nat): bv32
    requires gap < 8
  {
    (((x as bv32) << gap) & 0xff) | (((y as bv32) & 0xff) >> (8 - gap))
  }

  /** Sixteen bits. */
  function Pair(x: byte, y: byte): bv32 { ((x as bv32) << 8) | (y as bv32) }

  /** The eight bits that begin `gap` bits into the sixteen of `x` and `y`. */
  function Window(x: byte, y: byte, gap: nat): bv32
    requires gap < 8
  {
    (Pair(x, y) >> (8 - gap)) & 0xff
  }

  lemma TakeIsWindow(x: byte, y: byte, gap: nat)
    requires gap < 8
    ensures Take(x, y, gap) == Window(x, y, gap)
  {
    if gap == 0 {
    } else if gap == 1 {
    } else if gap == 2 {
    } else if gap == 3 {
    } else if gap == 4 {
    } else if gap == 5 {
    } else if gap == 6 {
    } else {
    }
  }

  /** A byte split `rem` bits from its top is the byte moved down by that much. */
  lemma SplitIsShift(b: byte, rem: nat)
    requires rem < 8
    ensures Pair(LowByte((b as bv32) >> rem), LowByte((b as bv32) << (8 - rem))) == (b as bv32) << (8 - rem)
  {
    if rem == 0 {
    } else if rem == 1 {
    } else if rem == 2 {
    } else if rem == 3 {
    } else if rem == 4 {
    } else if rem == 5 {
    } else if rem == 6 {
    } else {
    }
  }

  lemma NoGap(x: byte, y: byte)
    ensures LowByte(Take(x, y, 0) >> 0) == x && LowByte(Take(x, y, 0) << 8) == 0
  {
    TakeIsWindow(x, y, 0);
    SplitIsShift(x, 0);
  }

  /** The bits that go into the buffer byte begun, and those that start the next one.  Calls are whole bytes, so
      there is never a gap and never a byte begun. */
  method NextBits(x: byte, y: byte, gap: nat, rem: nat) returns (low: byte, high: byte)
    requires gap < 8 && rem < 8
    ensures gap == 0 && rem == 0 ==> low == x && high == 0
  {
    NoGap(x, y);
    var b := Take(x, y, gap);
    low, high := LowByte(b >> rem), LowByte(b << (8 - rem));
  }

  lemma LastNoGap(x: byte)
    ensures LowByte((((x as bv32) << 0) & 0xff) >> 0) == x && LowByte((((x as bv32) << 0) & 0xff) << 8) == 0
  {
    SplitIsShift(x, 0);
  }

  method LastBits(x: byte, gap: nat, rem: nat) returns (low: byte, high: byte)
    requires gap < 8 && rem < 8
    ensures gap == 0 && rem == 0 ==> low == x && high == 0
  {
    LastNoGap(x);
    var b := ((x as bv32) << gap) & 0xff;
    low, high := LowByte(b >> rem), LowByte(b << (8 - rem));
  }

  lemma OrZero(x: byte)
    ensures 0 | x == x
  {
  }

  // ---------------------------------------------------------------- length bytes and output

  function BytesOf(s: seq<u8>): (r: seq<byte>)
    ensures |r| == |s|
  {
    seq(|s|, i requires 0 <= i < |s| => ByteOf(s[i]))
  }

  lemma {:induction false} BytesOfValue(s: seq<u8>)
    ensures BytesOf(s) == BigEndian(Value(s), |s|)
  {
    if s != [] {
      var t, x := s[..|s| - 1], s[|s| - 1];
      BytesOfValue(t);
      assert BytesOf(s) == BytesOf(t) + [ByteOf(x)];
      LastByte(Value(t), x);
    }
  }

  lemma LastByte(v: nat, x: u8)
    ensures (v * 256 + x) / 256 == v && ByteOf(v * 256 + x) == ByteOf(x)
  {
  }

  lemma Halves(t: u64)
    ensures BigEndian(t, 8) == BigEndian(t / TWO32, 4) + BigEndian(t, 4)
  {
    Pow32();
    var q, r := t / TWO32, t % TWO32;
    BigEndianJoin(q, r, 4, 4);
    BigEndianLow(t, q, r, 4);
  }

  lemma EightBytes(w: u64)
    ensures BigEndian(w, 8) == [ByteOf(w / 0x100_0000_0000_0000), ByteOf(w / 0x1_0000_0000_0000), ByteOf(w / 0x100_0000_0000),
                                ByteOf(w / 0x1_0000_0000), ByteOf(w / 0x100_0000), ByteOf(w / 0x1_0000), ByteOf(w / 0x100), ByteOf(w)]
  {
    Halves(w);
    Shifts(w);
    FourShifts(w / TWO32);
    FourShifts(w);
    var h := w / TWO32;
    JoinFour(ByteOf(h / 0x100_0000), ByteOf(h / 0x1_0000), ByteOf(h / 0x100), ByteOf(h),
             ByteOf(w / 0x100_0000), ByteOf(w / 0x1_0000), ByteOf(w / 0x100), ByteOf(w));
  }

  lemma JoinFour(a: byte, b: byte, c: byte, d: byte, e: byte, f: byte, g: byte, h: byte)
    ensures [a, b, c, d] + [e, f, g, h] == [a, b, c, d, e, f, g, h]
  {
  }

  lemma FourShifts(t: nat)
    ensures BigEndian(t, 4) == [ByteOf(t / 0x100_0000), ByteOf(t / 0x1_0000), ByteOf(t / 0x100), ByteOf(t)]
  {
    FourBytes(t);
    assert t / 256 / 256 == t / 0x1_0000 && t / 256 / 256 / 256 == t / 0x100_0000;
  }

  lemma Shifts(w: nat)
    ensures w / TWO32 / 0x100 == w / 0x100_0000_0000 && w / TWO32 / 0x1_0000 == w / 0x1_0000_0000_0000
    ensures w / TWO32 / 0x100_0000 == w / 0x100_0000_0000_0000
  {
  }

  /** One word of the digest. */
  method StoreWord(out: array<byte>, j: nat, w: u64)
    requires j + 8 <= out.Length
    modifies out
    ensures Stored(old(out[..]), out[..], j, BigEndian(w, 8))
  {
    EightBytes(w);
    Copy(out, j, [ByteOf(w / 0x100_0000_0000_0000), ByteOf(w / 0x1_0000_0000_0000), ByteOf(w / 0x100_0000_0000),
                  ByteOf(w / 0x1_0000_0000), ByteOf(w / 0x100_0000), ByteOf(w / 0x1_0000), ByteOf(w / 0x100), ByteOf(w)]);
  }

  /** The length field gives a message away: its prefix has the same padded form only if it is the whole. */
  lemma StandardPrefix(m: seq<byte>, k: nat)
    requires k <= |m| < TWO32
    ensures Standard(m[..k]) == Standard(m) <==> k == |m|
  {
    assert m[..|m|] == m;
    var a, b := BigEndian(8 * k, LENGTHBYTES), BigEndian(8 * |m|, LENGTHBYTES);
    var x, y := Standard(m[..k]), Standard(m);
    assert x[|x| - LENGTHBYTES..] == a && y[|y| - LENGTHBYTES..] == b;
    if a == b {
      PowGrows(8, LENGTHBYTES);
      Pow32();
      BigEndianInjective(8 * k, 8 * |m|, LENGTHBYTES);
    }
  }

  lemma {:induction false} PowGrows(v: nat, w: nat)
    requires v <= w
    ensures Pow256(v) <= Pow256(w)
  {
    if v < w {
      PowGrows(v, w - 1);
    }
  }

  // ---------------------------------------------------------------- the context

  /** One more byte: either the block is not full yet, or it is compressed. */
  lemma OneByte(f: Compress, done: seq<byte>, x: byte)
    ensures |Tail(done)| == |done| % BLOCK && |done + [x]| % BLOCK == if |done| % BLOCK == 63 then 0 else |done| % BLOCK + 1
    ensures |done| % BLOCK == 63 ==> Fold(f, INIT, done + [x]) == f(Fold(f, INIT, done), Tail(done) + [x]) && Tail(done + [x]) == []
    ensures |done| % BLOCK < 63 ==> Fold(f, INIT, done + [x]) == Fold(f, INIT, done) && Tail(done + [x]) == Tail(done) + [x]
  {
    Absorb(f, INIT, done, [x]);
    if |done| % BLOCK == 63 {
      FoldBlock(f, Fold(f, INIT, done), Tail(done) + [x]);
    } else {
      TailShort(Tail(done) + [x]);
    }
  }

  /** The last block of a final call that has `front` in the buffer. */
  function LastBlock(front: seq<byte>, len: seq<byte>): (r: seq<byte>)
    requires |front| <= BLOCK && |len| == LENGTHBYTES
    ensures |r| == BLOCK
  {
    if |front| > 32 then Zeros(32) + len else front + (Zeros(32 - |front|) + len)
  }

  /** The hash that it ends with. */
  function Closed(f: Compress, h: Hash, front: seq<byte>, len: seq<byte>): Hash
    requires |front| <= BLOCK && |len| == LENGTHBYTES
  {
    f(if |front| > 32 then f(h, front + Zeros(BLOCK - |front|)) else h, LastBlock(front, len))
  }

  /** A message is closed by its padding, in one block or two. */
  lemma ClosesPadded(f: Compress, m: seq<byte>, len: seq<byte>)
    requires |len| == LENGTHBYTES
    ensures |Tail(m) + [0x80]| <= BLOCK
    ensures Closed(f, Fold(f, INIT, m), Tail(m) + [0x80], len) == Fold(f, INIT, Padded(m, len))
  {
    var pos := |m| % BLOCK;
    var t: seq<byte> := Tail(m);
    if pos + 1 > 32 {
      Assoc(t, [0x80], Zeros(63 - pos));
      PadTwo(f, INIT, m, len, Zeros(63 - pos), t + ([0x80] + Zeros(63 - pos)), Zeros(32) + len);
    } else {
      Shift(t, [0x80], Zeros(31 - pos), len);
      PadOne(f, INIT, m, len, Zeros(31 - pos), t + ([0x80] + Zeros(31 - pos) + len));
    }
  }

  /** What a second final call makes of the context that the first has left. */
  function Again(f: Compress, m: seq<byte>): Hash {
    var len := BigEndian(8 * |m|, LENGTHBYTES);
    var b := LastBlock(Tail(m) + [0x80], len);
    Closed(f, Fold(f, INIT, Standard(m)), b[..32] + [b[32] | 0x80], len)
  }

  class Context {
    const compress: Compress
    const bitLength: array<u8>
    const buffer: array<byte>
    var bufferBits: nat
    var bufferPos: nat
    var hash: Hash
    /** What has been absorbed since Init. */
    ghost var msg: seq<byte>

    /** The bit buffer is a byte buffer: it holds the unfinished block of `done` and a zero byte behind it. */
    ghost predicate Mid(done: seq<byte>)
      reads this`bufferBits, this`bufferPos, this`hash, buffer
    {
      && buffer.Length == BLOCK && bufferPos == |done| % BLOCK && bufferBits == 8 * bufferPos
      && hash == Fold(compress, INIT, done) && buffer[..bufferPos] == Tail(done) && buffer[bufferPos] == 0
    }

    ghost predicate Valid()
      reads this, buffer, bitLength
    {
      Mid(msg) && bitLength.Length == LENGTHBYTES && Counts(bitLength[..], |msg|)
    }

    constructor (f: Compress)
      ensures compress == f && fresh(buffer) && fresh(bitLength) && buffer.Length == BLOCK && bitLength.Length == LENGTHBYTES
    {
      compress := f;
      bufferBits, bufferPos, hash, msg := 0, 0, INIT, [];
      buffer := new byte[BLOCK](i => 0);
      bitLength := new u8[LENGTHBYTES](i => 0);
    }

    /** wp512_init */
    method Init()
      requires buffer.Length == BLOCK && bitLength.Length == LENGTHBYTES
      modifies this, buffer, bitLength
      ensures Valid() && msg == []
    {
      forall i | 0 <= i < LENGTHBYTES {
        bitLength[i] := 0;
      }
      bufferPos, bufferBits := 0, 0;
      buffer[0] := 0;
      hash := INIT;
      msg := [];
      AllZero(bitLength[..]);
    }

    /** The carry loop of wp512_update. */
    method AddLength(bits: nat, ghost n: nat, ghost k: nat)
      requires bits < TWO32 && bits == 8 * k && Counts(bitLength[..], n)
      modifies bitLength
      ensures Counts(bitLength[..], n + k)
    {
      var i: int, carry: nat, value: nat := bitLength.Length - 1, 0, bits;
      ghost var total, first := Value(bitLength[..]) + bits, bitLength[..];
      PendingStart(bitLength[..], bits);
      while i >= 0 && (carry != 0 || value != 0)
        invariant -1 <= i < bitLength.Length && carry <= 1 && Pending(bitLength[..], i, carry, value) == total
      {
        ghost var s := bitLength[..];
        carry := carry + bitLength[i] + value % 256;
        bitLength[i] := carry % 256;
        PendingStep(s, i, carry - s[i] - value % 256, value, bitLength[..]);
        carry := carry / 256;
        value := value / 256;
        i := i - 1;
      }
      ghost var c := PendingDone(bitLength[..], i, carry, value, total);
      CountsMore(first, n, k, bitLength[..], c);
    }

    /** Eight bits go into the buffer, `low` into the byte begun and `high` into the next one. */
    method PutByte(low: byte, high: byte, rem: nat, extra: nat, ghost done: seq<byte>)
      requires Mid(done) && rem == 0 && extra == 0 && high == 0
      modifies this`bufferBits, this`bufferPos, this`hash, buffer
      ensures Mid(done + [low])
    {
      OneByte(compress, done, low);
      OrZero(low);
      buffer[bufferPos] := buffer[bufferPos] | low;
      assert buffer[..bufferPos + 1] == Tail(done) + [low];
      bufferPos := bufferPos + 1;
      bufferBits := bufferBits + 8 - rem;
      if bufferBits == BLOCK * 8 {
        assert buffer[..] == buffer[..bufferPos];
        hash := compress(hash, buffer[..]);
        bufferBits, bufferPos := 0, 0;
      }
      buffer[bufferPos] := high;
      bufferBits := bufferBits + extra;
    }

    /** wp512_update */
    method Update(source: seq<byte>)
      requires Valid() && |source| < TWO32
      modifies this, buffer, bitLength
      ensures Valid() && msg == old(msg) + source[..Kept(|source|)]
    {
      var bitsLen, sourceGap := BitCount(|source|);
      UpdateBits(source, bitsLen, sourceGap, Kept(|source|));
    }

    /** wp512_update once the number of bits is known. */
    method UpdateBits(source: seq<byte>, bitsLen: nat, sourceGap: nat, ghost n: nat)
      requires Valid() && n <= |source| && bitsLen == 8 * n < TWO32 && sourceGap == 0
      modifies this, buffer, bitLength
      ensures Valid() && msg == old(msg) + source[..n]
    {
      AddLength(bitsLen, |msg|, n);
      Absorbed(source, n, bitsLen, sourceGap);
      msg := msg + source[..n];
    }

    /** The byte loop of wp512_update and what follows it. */
    method Absorbed(source: seq<byte>, ghost n: nat, len: nat, sourceGap: nat)
      requires Mid(msg) && n <= |source| && len == 8 * n && sourceGap == 0
      modifies this`bufferBits, this`bufferPos, this`hash, buffer
      ensures Mid(msg + source[..n])
    {
      var rem := bufferBits % 8;
      assert rem == 0;
      var bitsLen, pos := len, 0;
      assert source[..0] == [] && msg + [] == msg;
      while bitsLen > 8
        invariant pos <= n && bitsLen == 8 * (n - pos) && Mid(msg + source[..pos]) && (n > 0 ==> pos < n)
      {
        var low, high := NextBits(source[pos], source[pos + 1], sourceGap, rem);
        PutByte(low, high, rem, rem, msg + source[..pos]);
        Grow(msg, source, pos);
        bitsLen := bitsLen - 8;
        pos := pos + 1;
      }
      LastPart(source, n, bitsLen, pos, sourceGap, rem);
    }

    /** The bits that the loop leaves, a byte or none. */
    method LastPart(source: seq<byte>, ghost n: nat, bitsLen: nat, pos: nat, sourceGap: nat, rem: nat)
      requires pos <= n <= |source| && bitsLen == 8 * (n - pos) <= 8 && sourceGap == 0 && rem == 0
      requires Mid(msg + source[..pos])
      modifies this`bufferBits, this`bufferPos, this`hash, buffer
      ensures Mid(msg + source[..n])
    {
      if bitsLen > 0 {
        var low, high := LastBits(source[pos], sourceGap, rem);
        Grow(msg, source, pos);
        PutByte(low, high, rem, bitsLen - (8 - rem), msg + source[..pos]);
      } else {
        bufferBits := bufferBits + bitsLen;
      }
    }

    /** What the bit behind the message makes of the byte begun. */
    ghost function Marked(): seq<byte>
      requires bufferPos < buffer.Length
      reads this, buffer
    {
      buffer[..bufferPos] + [buffer[bufferPos] | 0x80]
    }

    /** wp512_final, in any state with whole bytes in the buffer: the context is left with the last block and without its position. */
    method Final(out: array<byte>, at: nat)
      requires buffer.Length == BLOCK && bitLength.Length == LENGTHBYTES && bufferPos < BLOCK && bufferBits % 8 == 0
      requires out != buffer && at + 64 <= out.Length
      modifies this, buffer, out
      ensures
        var front, len := old(Marked()), BytesOf(bitLength[..]);
        && hash == Closed(compress, old(hash), front, len) && buffer[..] == LastBlock(front, len)
        && bufferPos == 32 && bufferBits == old(bufferBits) && Stored(old(out[..]), out[..], at, WordBytes(hash, 8))
      ensures old(Valid()) ==> Done(old(msg))
    {
      ghost var front, valid, m := Marked(), Valid(), msg;
      if valid {
        MarkValid();
      }
      SetMark();
      PadOut(front);
      if valid {
        IsDone(m, front, BytesOf(bitLength[..]));
      }
      StoreHash(out, at);
    }

    /** After the final call for `m`. */
    ghost predicate Done(m: seq<byte>)
      reads this, buffer, bitLength
    {
      && buffer.Length == BLOCK && bitLength.Length == LENGTHBYTES && bufferPos == 32 && bufferBits % 8 == 0
      && hash == Fold(compress, INIT, Standard(m)) && Counts(bitLength[..], |m|)
      && buffer[..] == LastBlock(Tail(m) + [0x80], BytesOf(bitLength[..]))
    }

    lemma MarkValid()
      requires Valid()
      ensures Marked() == Tail(msg) + [0x80]
    {
      OrZero(0x80);
    }

    lemma IsDone(m: seq<byte>, front: seq<byte>, len: seq<byte>)
      requires buffer.Length == BLOCK && bitLength.Length == LENGTHBYTES && bufferPos == 32 && bufferBits % 8 == 0
      requires Counts(bitLength[..], |m|) && len == BytesOf(bitLength[..]) && front == Tail(m) + [0x80] && |front| <= BLOCK
      requires hash == Closed(compress, Fold(compress, INIT, m), front, len) && buffer[..] == LastBlock(front, len)
      ensures Done(m)
    {
      LengthField(bitLength[..], |m|);
      ClosesPadded(compress, m, len);
    }

    /** A second final call. */
    lemma DoneAgain(m: seq<byte>)
      requires Done(m)
      ensures Closed(compress, hash, Marked(), BytesOf(bitLength[..])) == Again(compress, m)
    {
      LengthField(bitLength[..], |m|);
    }

    /** wp512_final, for a message in the making or once more after it. */
    method FinalOf(out: array<byte>, at: nat, ghost m: seq<byte>)
      requires (Valid() && m == msg) || Done(m)
      requires out != buffer && at + 64 <= out.Length
      modifies this, buffer, out
      ensures old(Valid()) && m == old(msg) ==> Stored(old(out[..]), out[..], at, Digest(compress, m)) && Done(m)
      ensures old(Done(m)) ==> Stored(old(out[..]), out[..], at, WordBytes(Again(compress, m), 8))
    {
      if Done(m) {
        DoneAgain(m);
      }
      Final(out, at);
    }

    /** The one bit behind the message. */
    method SetMark()
      requires bufferPos < buffer.Length && bufferBits % 8 == 0
      modifies this`bufferPos, buffer
      ensures bufferPos == old(bufferPos) + 1 && buffer[..bufferPos] == old(Marked())
    {
      buffer[bufferPos] := buffer[bufferPos] | (0x80 >> (bufferBits % 8));
      bufferPos := bufferPos + 1;
    }

    /** The zeros, the length and the last one or two compressions. */
    method PadOut(ghost front: seq<byte>)
      requires buffer.Length == BLOCK && bitLength.Length == LENGTHBYTES && 0 < bufferPos <= BLOCK && buffer[..bufferPos] == front
      modifies this`bufferPos, this`hash, buffer
      ensures hash == Closed(compress, old(hash), front, BytesOf(bitLength[..])) && buffer[..] == LastBlock(front, BytesOf(bitLength[..]))
      ensures bufferPos == 32
    {
      if bufferPos > BLOCK - LENGTHBYTES {
        CloseBlock(front);
        PutLength([]);
        assert LastBlock([], BytesOf(bitLength[..])) == Zeros(32) + BytesOf(bitLength[..]);
      } else {
        PutLength(front);
      }
      hash := compress(hash, buffer[..]);
    }

    /** The length does not fit: zeros to the end of the block, and on to the next. */
    method CloseBlock(ghost front: seq<byte>)
      requires buffer.Length == BLOCK && bufferPos <= BLOCK && buffer[..bufferPos] == front
      modifies this`bufferPos, this`hash, buffer
      ensures hash == compress(old(hash), front + Zeros(BLOCK - |front|)) && bufferPos == 0
    {
      ghost var was := buffer[..];
      if bufferPos < BLOCK {
        Copy(buffer, bufferPos, Zeros(BLOCK - bufferPos));
        StoredToEnd(was, buffer[..], bufferPos, Zeros(BLOCK - bufferPos));
      }
      assert buffer[..] == front + Zeros(BLOCK - |front|);
      hash := compress(hash, buffer[..]);
      bufferPos := 0;
    }

    /** Zeros up to the length field, and the length. */
    method PutLength(ghost front: seq<byte>)
      requires buffer.Length == BLOCK && bufferPos <= 32 && buffer[..bufferPos] == front && bitLength.Length == LENGTHBYTES
      modifies this`bufferPos, buffer
      ensures buffer[..] == LastBlock(front, BytesOf(bitLength[..])) && bufferPos == 32
    {
      ghost var was, p, len := buffer[..], bufferPos, BytesOf(bitLength[..]);
      if bufferPos < BLOCK - LENGTHBYTES {
        Copy(buffer, bufferPos, Zeros(BLOCK - LENGTHBYTES - bufferPos));
      }
      ghost var b1 := buffer[..];
      bufferPos := BLOCK - LENGTHBYTES;
      Copy(buffer, BLOCK - LENGTHBYTES, BytesOf(bitLength[..]));
      StoredTwice(was, b1, buffer[..], p, Zeros(32 - p), len);
      StoredToEnd(was, buffer[..], p, Zeros(32 - p) + len);
      assert LastBlock(front, len) == front + (Zeros(32 - p) + len);
    }

    /** The output loop of wp512_final. */
    method StoreHash(out: array<byte>, at: nat)
      requires at + 64 <= out.Length
      modifies out
      ensures Stored(old(out[..]), out[..], at, WordBytes(hash, 8))
    {
      var i := 0;
      while i < 8
        invariant i <= 8 && Stored(old(out[..]), out[..], at, WordBytes(hash[..i], 8))
      {
        assert hash[..i + 1][..i] == hash[..i];
        ghost var was := out[..];
        StoreWord(out, at + 8 * i, hash[i]);
        StoredTwice(old(out[..]), was, out[..], at, WordBytes(hash[..i], 8), BigEndian(hash[i], 8));
        i := i + 1;
      }
      assert hash[..8] == hash;
    }
  }

  lemma {:induction false} AllZero(s: seq<u8>)
    requires forall i :: 0 <= i < |s| ==> s[i] == 0
    ensures Value(s) == 0 && Counts(s, 0)
  {
    if s != [] {
      AllZero(s[..|s| - 1]);
    }
    assert Above(0, s) == 0;
  }

  lemma PendingStart(s: seq<u8>, bits: nat)
    ensures Pending(s, |s| - 1, 0, bits) == Value(s) + bits
  {
    assert s[..|s| - 1 + 1] == s && s[|s| - 1 + 1..] == [];
  }

  lemma Grow(m: seq<byte>, source: seq<byte>, pos: nat)
    requires pos < |source|
    ensures m + source[..pos + 1] == m + source[..pos] + [source[pos]]
  {
  }
}
