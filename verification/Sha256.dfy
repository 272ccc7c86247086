/**
 * crypto/sha256.c: the streaming interface of SHA-256.  The 64-byte compression function is a
 * parameter; buffering, the two-word bit counter and the padding are modelled in full.
 */
module Sha256 {
  import opened Octets
  import opened BlockHash

  type u32 = x: nat | x < TWO32

  type State = s: seq<u32> | |s| == 8 witness [0, 0, 0, 0, 0, 0, 0, 0]

  const ZERO: State := [0, 0, 0, 0, 0, 0, 0, 0]
  const INIT: State := [0x6a09e667, 0xbb67ae85, 0x3c6ef372, 0xa54ff53a, 0x510e527f, 0x9b05688c, 0x1f83d9ab, 0x5be0cd19]

  type Compress = (State, seq<byte>) -> State

  /** Section 5.1.1 of FIPS 180-2: one bit, the fewest zero bits, the 64-bit length in bits. */
  function Standard(m: seq<byte>): seq<byte> { Padded(m, BigEndian(8 * |m| % TWO64, 8)) }

  /** The digest of a message: the compression function folded over its padded form. */
  function Digest(f: Compress, m: seq<byte>): (r: seq<byte>)
    ensures |r| == 32
  {
    WordBytes(Fold(f, INIT, Standard(m)), 4)
  }

  /** The low counter word overflows when `len` bytes are added. */
  predicate Carries(low: nat, len: nat) { low + 8 * len % TWO32 >= TWO32 }

  /** The high counter word for `n` bytes. */
  function High(n: nat): nat { 8 * n / TWO32 % TWO32 }

  function Low(n: nat): nat { 8 * n % TWO32 }

  lemma Sums(n: nat, len: nat)
    ensures Low(n + len) == (Low(n) + Low(len)) % TWO32
    ensures 8 * (n + len) / TWO32 == 8 * n / TWO32 + len / TWO29 + (if Carries(Low(n), len) then 1 else 0)
  {
    assert 8 * len / TWO32 == len / TWO29;
  }

  lemma ModIs(x: nat, k: nat, r: nat)
    requires x == k * TWO32 + r && r < TWO32
    ensures x % TWO32 == r
  {
  }

  lemma Wraps(q: nat, d: nat)
    requires d < 8
    ensures (q + d) % TWO32 == q % TWO32 <==> d == 0
    ensures ((q % TWO32 + 1) % TWO32 + d) % TWO32 == (q + d + 1) % TWO32
  {
    var k, r := q / TWO32, q % TWO32;
    if r + d < TWO32 {
      ModIs(q + d, k, r + d);
    } else {
      ModIs(q + d, k + 1, r + d - TWO32);
    }
    if r + 1 < TWO32 {
      ModIs(r + 1, 0, r + 1);
      if r + d + 1 < TWO32 {
        ModIs(q + d + 1, k, r + d + 1);
        ModIs(r + 1 + d, 0, r + d + 1);
      } else {
        ModIs(q + d + 1, k + 1, r + d + 1 - TWO32);
        ModIs(r + 1 + d, 1, r + d + 1 - TWO32);
      }
    } else {
      ModIs(r + 1, 1, 0);
      ModIs(d, 0, d);
      ModIs(q + d + 1, k + 1, d);
    }
  }

  /** The high counter word after a call: it takes notice of `len` only when the low word carries. */
  function HighAfter(high: nat, low: nat, len: nat): nat {
    if Carries(low, len) then ((high + 1) % TWO32 + len / TWO29) % TWO32 else high
  }

  /** After an exact count, adding `len` bytes keeps it exact just when the call is short or the low word carries. */
  lemma CountExact(n: nat, len: nat)
    requires len < TWO32
    ensures (Low(n) + Low(len)) % TWO32 < Low(len) <==> Carries(Low(n), len)
    ensures HighAfter(High(n), Low(n), len) == High(n + len) <==> len < TWO29 || Carries(Low(n), len)
  {
    Sums(n, len);
    Wraps(8 * n / TWO32, len / TWO29);
  }

  /** A first call with 2^29 bytes: the low word does not carry and the high word should be 1 but stays 0. */
  lemma LongCallMiscounts()
    ensures HighAfter(High(0), Low(0), TWO29) == 0 && High(0 + TWO29) == 1
  {
    assert 8 * TWO29 == TWO32;
  }

  /** The counter names the message's length in the padding exactly when it is exact. */
  lemma StandardPadding(m: seq<byte>, low: u32, high: u32)
    requires low == Low(|m|)
    ensures Padded(m, BigEndian(high, 4) + BigEndian(low, 4)) == Standard(m) <==> high == High(|m|)
  {
    Halves(8 * |m|);
    SameLength(high, High(|m|), low, 8 * |m| % TWO64);
    PaddedInjective(m, BigEndian(high, 4) + BigEndian(low, 4), BigEndian(8 * |m| % TWO64, 8));
  }

  lemma SameLength(high: u32, exact: u32, low: u32, n: nat)
    requires n == exact * TWO32 + low
    ensures BigEndian(high, 4) + BigEndian(low, 4) == BigEndian(n, 8) <==> high == exact
  {
    Pow32();
    var c := high * TWO32 + low;
    BigEndianJoin(high, low, 4, 4);
    if BigEndian(c, 8) == BigEndian(n, 8) {
      BigEndianInjective(c, n, 8);
    }
  }

  class Context {
    const compress: Compress
    var count0: u32
    var count1: u32
    var state: State
    const buf: array<byte>
    /** What has been absorbed since Init, or since Final wiped the context, and the state it was absorbed into. */
    ghost var msg: seq<byte>
    ghost var iv: State

    /** The buffer holds the unfinished block, the low counter word the length. */
    ghost predicate Valid()
      reads this, buf
    {
      && buf.Length == 128 && count0 == Low(|msg|) && state == Fold(compress, iv, msg)
      && buf[..|msg| % BLOCK] == Tail(msg)
    }

    ghost predicate Exact()
      reads this
    {
      count1 == High(|msg|)
    }

    constructor (f: Compress)
      ensures compress == f && fresh(buf) && buf.Length == 128
    {
      compress := f;
      count0, count1, state, msg, iv := 0, 0, INIT, [], INIT;
      buf := new byte[128](i => 0);
    }

    /** sha256_init */
    method Init()
      requires buf.Length == 128
      modifies this, buf
      ensures Valid() && Exact() && msg == [] && iv == INIT
    {
      state := INIT;
      count0, count1 := 0, 0;
      forall i | 0 <= i < 128 {
        buf[i] := 0;
      }
      msg, iv := [], INIT;
    }

    /** The counter update of sha256_update. */
    method Count(len: u32, ghost n: nat)
      requires count0 == Low(n)
      modifies this`count0, this`count1
      ensures count0 == Low(n + len) && count1 == HighAfter(old(count1), Low(n), len)
    {
      CountExact(n, len);
      Sums(n, len);
      var add := len * 8 % TWO32;
      count0 := (count0 + add) % TWO32;
      if count0 < add {
        count1 := (count1 + 1) % TWO32;
        count1 := (count1 + len / TWO29) % TWO32;
      }
    }

    /** The whole blocks of sha256_update once the first is complete; `index` bytes of it came from the buffer. */
    method Blocks(data: seq<byte>, index: nat, ghost before: State, ghost pending: seq<byte>) returns (i: nat)
      requires |pending| == index < BLOCK && BLOCK - index <= |data| && index + |data| < TWO32
      requires state == compress(before, pending + data[..BLOCK - index])
      modifies this`state
      ensures i <= |data| && data[i..] == Tail(pending + data) && state == Fold(compress, before, pending + data)
    {
      i := BLOCK - index;
      FirstBlock(compress, before, pending, data, i);
      while (i + 63) % TWO32 < |data|
        invariant i <= |data| && (i + index) % BLOCK == 0 && (i + 63) % TWO32 == i + 63
        invariant Fold(compress, state, data[i..]) == Fold(compress, before, pending + data)
        invariant Tail(data[i..]) == Tail(pending + data)
      {
        BlockStep(compress, state, data, i);
        TailStep(data, i);
        state := compress(state, data[i..i + BLOCK]);
        i := i + BLOCK;
        NoWrap(i, index, |data|);
      }
      TailShort(data[i..]);
    }

    /** The buffering of sha256_update. */
    method Feed(data: seq<byte>, start: nat, ghost pending: seq<byte>)
      requires buf.Length == 128 && |pending| == start < BLOCK && buf[..start] == pending && start + |data| < TWO32
      modifies this`state, buf
      ensures state == Fold(compress, old(state), pending + data)
      ensures buf[..|Tail(pending + data)|] == Tail(pending + data)
    {
      var index, part, i := start, BLOCK - start, 0;
      if |data| >= part {
        Copy(buf, index, data[..part]);
        assert buf[..BLOCK] == pending + data[..part];
        ghost var before := state;
        state := compress(state, buf[..BLOCK]);
        i := Blocks(data, index, before, pending);
        index := 0;
      } else {
        TailShort(pending + data);
      }
      Copy(buf, index, data[i..]);
    }

    /** sha256_update.  The source indexes `data` with an unsigned int, hence the bound. */
    method Update(data: seq<byte>)
      requires Valid() && |msg| % BLOCK + |data| < TWO32
      modifies this, buf
      ensures Valid() && msg == old(msg) + data && iv == old(iv)
      ensures count1 == HighAfter(old(count1), Low(old(|msg|)), |data|)
      ensures old(Exact()) ==> (Exact() <==> |data| < TWO29 || Carries(Low(old(|msg|)), |data|))
    {
      var index := count0 / 8 % 64;
      LowIndex(|msg|);
      CountExact(|msg|, |data|);
      Count(|data|, |msg|);
      Absorb(compress, iv, msg, data);
      Feed(data, index, Tail(msg));
      msg := msg + data;
    }

    /** The padding of sha256_final. */
    method Pad()
      requires Valid()
      modifies this, buf
      ensures Valid() && msg == old(Padded(msg, BigEndian(count1, 4) + BigEndian(count0, 4))) && iv == old(iv)
    {
      var bits := LengthBits();
      var index := count0 / 8 % 64;
      LowIndex(|msg|);
      var padLen := if index < 56 then 56 - index else 120 - index;
      var padding: seq<byte> := [0x80] + Zeros(63);
      PadPieces(msg, padding, padLen, bits);
      Update(padding[..padLen]);
      Update(bits);
    }

    /** sha256_final */
    method Final(out: array<byte>, at: nat)
      requires Valid() && out != buf && at + 32 <= out.Length
      modifies this, buf, out
      ensures Stored(old(out[..]), out[..], at,
                     WordBytes(Fold(compress, old(iv), old(Padded(msg, BigEndian(count1, 4) + BigEndian(count0, 4)))), 4))
      ensures old(Exact()) && old(iv) == INIT ==> Stored(old(out[..]), out[..], at, Digest(compress, old(msg)))
      ensures Wiped() && Valid()
    {
      StandardPadding(msg, count0, count1);
      Pad();
      StoreState(out, at);
      Wipe();
    }

    /** The eight length bytes of sha256_final. */
    method LengthBits() returns (bits: seq<byte>)
      ensures bits == BigEndian(count1, 4) + BigEndian(count0, 4) && |bits| == 8
    {
      FourBytes(count0);
      FourBytes(count1);
      var t: nat := count0;
      var b7 := ByteOf(t);
      t := t / 256;
      var b6 := ByteOf(t);
      t := t / 256;
      var b5 := ByteOf(t);
      t := t / 256;
      var b4 := ByteOf(t);
      t := count1;
      var b3 := ByteOf(t);
      t := t / 256;
      var b2 := ByteOf(t);
      t := t / 256;
      var b1 := ByteOf(t);
      t := t / 256;
      var b0 := ByteOf(t);
      bits := [b0, b1, b2, b3, b4, b5, b6, b7];
    }

    /** The output loop of sha256_final. */
    method StoreState(out: array<byte>, at: nat)
      requires at + 32 <= out.Length
      modifies out
      ensures Stored(old(out[..]), out[..], at, WordBytes(state, 4))
    {
      var i := 0;
      while i < 8
        invariant i <= 8 && Stored(old(out[..]), out[..], at, WordBytes(state[..i], 4))
      {
        assert state[..i + 1][..i] == state[..i];
        ghost var was := out[..];
        StoreWord(out, at + 4 * i, state[i]);
        StoredTwice(old(out[..]), was, out[..], at, WordBytes(state[..i], 4), BigEndian(state[i], 4));
        i := i + 1;
      }
      assert state[..8] == state;
    }

    ghost predicate Wiped()
      reads this, buf
    {
      && count0 == 0 && count1 == 0 && state == ZERO && (forall i :: 0 <= i < buf.Length ==> buf[i] == 0)
      && msg == [] && iv == ZERO
    }

    method Wipe()
      requires buf.Length == 128
      modifies this, buf
      ensures Wiped() && Valid()
    {
      count0, count1, state := 0, 0, ZERO;
      msg, iv := [], ZERO;
      forall i | 0 <= i < buf.Length {
        buf[i] := 0;
      }
    }
  }

  /** A first call with the 0x80 and the zeros and a second with the length make the padded message. */
  lemma PadPieces(m: seq<byte>, padding: seq<byte>, padLen: nat, bits: seq<byte>)
    requires |bits| == 8 && padding == [0x80] + Zeros(63)
    requires padLen == if |m| % 64 < 56 then 56 - |m| % 64 else 120 - |m| % 64
    ensures m + padding[..padLen] + bits == Padded(m, bits)
  {
    assert padding[..padLen] == [0x80] + Zeros(ZeroCount(|m|, 8));
    assert m + padding[..padLen] == m + [0x80] + Zeros(ZeroCount(|m|, 8));
  }

  /** The block loop of sha256_update can stop at position `i` of `len` bytes. */
  predicate Stops(i: nat, index: nat, len: nat) {
    i < TWO32 && (i + index) % BLOCK == 0 && (i + 63) % TWO32 >= len
  }

  /** The loop, whose position wraps at 2^32, has somewhere to stop exactly when the buffered bytes and the new
      ones are fewer than 2^32. */
  lemma LoopEnds(index: nat, len: nat)
    requires index < BLOCK && len < TWO32
    ensures (exists i: nat :: Stops(i, index, len)) <==> index + len < TWO32
  {
    if index + len < TWO32 {
      var i := TWO32 - BLOCK - index;
      assert Stops(i, index, len);
    } else {
      forall i: nat ensures !Stops(i, index, len) {
        if i < TWO32 && (i + index) % BLOCK == 0 {
          WrapsPast(i, index);
        }
      }
    }
  }

  lemma WrapsPast(i: nat, index: nat)
    requires index < BLOCK && i < TWO32 && (i + index) % BLOCK == 0
    ensures (i + 63) % TWO32 <= TWO32 - 1 - index
  {
    assert TWO32 % BLOCK == 0;
    if i + 63 < TWO32 {
      assert i + index + 64 <= TWO32 + 64;
    }
  }

  /** Block positions stay far enough below 2^32 for the loop's bound test. */
  lemma NoWrap(i: nat, index: nat, len: nat)
    requires i <= len && (i + index) % BLOCK == 0 && index + len < TWO32
    ensures (i + 63) % TWO32 == i + 63
  {
    assert TWO32 % BLOCK == 0;
  }

  lemma LowIndex(n: nat)
    ensures Low(n) / 8 % 64 == n % 64
  {
  }

  /** One word of the digest, stored byte by byte from the least significant. */
  method StoreWord(out: array<byte>, j: nat, w: u32)
    requires j + 4 <= out.Length
    modifies out
    ensures Stored(old(out[..]), out[..], j, BigEndian(w, 4))
  {
    FourBytes(w);
    var t: nat := w;
    out[j + 3] := ByteOf(t);
    t := t / 256;
    out[j + 2] := ByteOf(t);
    t := t / 256;
    out[j + 1] := ByteOf(t);
    t := t / 256;
    out[j] := ByteOf(t);
  }
}
