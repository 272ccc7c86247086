/**
 * crypto/md5.c: the streaming interface of MD5 on a little-endian host, where the word order
 * conversions change nothing.  The 64-byte compression function is a parameter.
 */
module Md5 {
  import opened Octets
  import opened BlockHash

  type u32 = x: nat | x < TWO32

  type Hash = s: seq<u32> | |s| == 4 witness [0, 0, 0, 0]

  const ZERO: Hash := [0, 0, 0, 0]
  const INIT: Hash := [0x67452301, 0xefcdab89, 0x98badcfe, 0x10325476]

  type Compress = (Hash, seq<byte>) -> Hash

  /** Sections 3.1 and 3.2 of RFC 1321: the length in bits modulo 2^64, low-order byte first. */
  function Standard(m: seq<byte>): seq<byte> { Padded(m, LittleEndian(8 * |m| % TWO64, 8)) }

  function Digest(f: Compress, m: seq<byte>): (r: seq<byte>)
    ensures |r| == 16
  {
    WordBytesLittle(Fold(f, INIT, Standard(m)), 4)
  }

  /** The two length words of md5_final are the bit count modulo 2^64. */
  lemma LengthWords(n: nat, count: nat)
    requires count == n % TWO64
    ensures LittleEndian(count * 8 % TWO32, 4) + LittleEndian(count / TWO29 % TWO32, 4) == LittleEndian(8 * n % TWO64, 8)
  {
    Pow32();
    var lo, hi := count * 8 % TWO32, count / TWO29 % TWO32;
    BitCount(n, count);
    LittleEndianJoin(hi, lo, 4, 4);
  }

  lemma BitCount(n: nat, count: nat)
    requires count == n % TWO64
    ensures 8 * n % TWO64 == count / TWO29 % TWO32 * TWO32 + count * 8 % TWO32
  {
    assert 8 * n % TWO64 == 8 * count % TWO64;
    assert 8 * count / TWO32 == count / TWO29;
    Halves(8 * count);
  }

  lemma CountMod(n: nat, len: nat)
    ensures n % TWO64 % 64 == n % 64 && (n % TWO64 + len) % TWO64 == (n + len) % TWO64
  {
  }

  class Context {
    const compress: Compress
    var hash: Hash
    const block: array<byte>
    var byteCount: nat
    /** What has been absorbed since Init, or since Final wiped the context, and the state it was absorbed into. */
    ghost var msg: seq<byte>
    ghost var iv: Hash

    ghost predicate Valid()
      reads this, block
    {
      && block.Length == BLOCK && byteCount == |msg| % TWO64 && hash == Fold(compress, iv, msg)
      && block[..|msg| % BLOCK] == Tail(msg)
    }

    constructor (f: Compress)
      ensures compress == f && fresh(block) && block.Length == BLOCK
    {
      compress := f;
      hash, byteCount, msg, iv := INIT, 0, [], INIT;
      block := new byte[BLOCK](i => 0);
    }

    /** md5_init */
    method Init()
      requires block.Length == BLOCK
      modifies this
      ensures Valid() && msg == [] && iv == INIT
    {
      hash := INIT;
      byteCount := 0;
      msg, iv := [], INIT;
    }

    /** The loop of md5_update over whole blocks of `rest`; the remainder goes to the buffer. */
    method Blocks(rest: seq<byte>)
      requires block.Length == BLOCK
      modifies this`hash, block
      ensures hash == Fold(compress, old(hash), rest) && block[..|Tail(rest)|] == Tail(rest)
    {
      var data, len := rest, |rest|;
      while len >= BLOCK
        invariant len == |data| && Fold(compress, hash, data) == Fold(compress, old(hash), rest)
        invariant Tail(data) == Tail(rest)
      {
        Copy(block, 0, data[..BLOCK]);
        assert block[..] == data[..BLOCK];
        assert data == data[..BLOCK] + data[BLOCK..];
        TailAppend(data[..BLOCK], data[BLOCK..]);
        hash := compress(hash, block[..]);
        data := data[BLOCK..];
        len := len - BLOCK;
      }
      TailShort(data);
      Copy(block, 0, data);
    }

    /** The buffering of md5_update, with `avail` bytes free in the block. */
    method Feed(data: seq<byte>, avail: nat, ghost pending: seq<byte>)
      requires block.Length == BLOCK && 0 < avail <= BLOCK && |pending| == BLOCK - avail && block[..BLOCK - avail] == pending
      modifies this`hash, block
      ensures hash == Fold(compress, old(hash), pending + data)
      ensures block[..|Tail(pending + data)|] == Tail(pending + data)
    {
      if avail > |data| {
        Copy(block, BLOCK - avail, data);
        TailShort(pending + data);
        return;
      }
      ghost var was := block[..];
      Copy(block, BLOCK - avail, data[..avail]);
      StoredToEnd(was, block[..], BLOCK - avail, data[..avail]);
      FirstBlock(compress, hash, pending, data, avail);
      hash := compress(hash, block[..]);
      Blocks(data[avail..]);
    }

    /** md5_update */
    method Update(data: seq<byte>)
      requires Valid() && |data| < TWO32
      modifies this, block
      ensures Valid() && msg == old(msg) + data && iv == old(iv)
    {
      var avail := BLOCK - byteCount % 64;
      CountMod(|msg|, |data|);
      Absorb(compress, iv, msg, data);
      byteCount := (byteCount + |data|) % TWO64;
      Feed(data, avail, Tail(msg));
      msg := msg + data;
    }

    /** The first padding block of md5_final when the length does not fit into it. */
    method PadBlock(offset: nat, ghost pending: seq<byte>)
      requires block.Length == BLOCK && 56 <= offset < BLOCK && block[..offset] == pending
      modifies block
      ensures block[..] == pending + ([0x80] + Zeros(63 - offset))
    {
      ghost var was := block[..];
      Copy(block, offset, [0x80]);
      ghost var next := block[..];
      Copy(block, offset + 1, Zeros(63 - offset));
      StoredTwice(was, next, block[..], offset, [0x80], Zeros(63 - offset));
      StoredToEnd(was, block[..], offset, [0x80] + Zeros(63 - offset));
    }

    /** The last block of md5_final after `p` bytes that are already there. */
    method LastBlock(p: nat, ghost front: seq<byte>)
      requires block.Length == BLOCK && p <= 56 && block[..p] == front
      modifies block
      ensures block[..] == front + (Zeros(56 - p) + (LittleEndian(byteCount * 8 % TWO32, 4) + LittleEndian(byteCount / TWO29 % TWO32, 4)))
    {
      ghost var was := block[..];
      var low, high := LittleEndian(byteCount * 8 % TWO32, 4), LittleEndian(byteCount / TWO29 % TWO32, 4);
      Copy(block, p, Zeros(56 - p));
      ghost var b1 := block[..];
      Copy(block, 56, low);
      ghost var b2 := block[..];
      Copy(block, 60, high);
      StoredTwice(b1, b2, block[..], 56, low, high);
      StoredTwice(was, b1, block[..], p, Zeros(56 - p), low + high);
      StoredToEnd(was, block[..], p, Zeros(56 - p) + (low + high));
    }

    /** Padding with one block more: the length does not fit after the 0x80. */
    method PadLong(offset: nat, ghost len: seq<byte>)
      requires Valid() && offset == |msg| % BLOCK && 56 <= offset
      requires len == LittleEndian(byteCount * 8 % TWO32, 4) + LittleEndian(byteCount / TWO29 % TWO32, 4)
      modifies this`hash, block
      ensures Fold(compress, iv, Padded(msg, len)) == compress(hash, block[..])
    {
      PadBlock(offset, Tail(msg));
      ghost var b := block[..];
      hash := compress(hash, block[..]);
      LastBlock(0, []);
      assert block[..] == Zeros(56) + len;
      PadTwo(compress, iv, msg, len, Zeros(63 - offset), b, block[..]);
    }

    /** Padding that fits into the unfinished block. */
    method PadShort(offset: nat, ghost len: seq<byte>)
      requires Valid() && offset == |msg| % BLOCK && offset < 56
      requires len == LittleEndian(byteCount * 8 % TWO32, 4) + LittleEndian(byteCount / TWO29 % TWO32, 4)
      modifies block
      ensures Fold(compress, iv, Padded(msg, len)) == compress(hash, block[..])
    {
      Copy(block, offset, [0x80]);
      assert block[..offset + 1] == Tail(msg) + [0x80];
      LastBlock(offset + 1, Tail(msg) + [0x80]);
      Shift(Tail(msg), [0x80], Zeros(55 - offset), len);
      PadOne(compress, iv, msg, len, Zeros(55 - offset), block[..]);
    }

    /** The padding of md5_final. */
    method Pad()
      requires Valid()
      modifies this`hash, block
      ensures hash == Fold(compress, iv, Standard(msg))
    {
      LengthWords(|msg|, byteCount);
      CountMod(|msg|, 0);
      ghost var len := LittleEndian(8 * |msg| % TWO64, 8);
      var offset := byteCount % 64;
      if offset >= 56 {
        PadLong(offset, len);
      } else {
        PadShort(offset, len);
      }
      hash := compress(hash, block[..]);
    }

    ghost predicate Wiped()
      reads this, block
    {
      && byteCount == 0 && hash == ZERO && (forall i :: 0 <= i < block.Length ==> block[i] == 0)
      && msg == [] && iv == ZERO
    }

    method Wipe()
      requires block.Length == BLOCK
      modifies this, block
      ensures Wiped() && Valid()
    {
      byteCount, hash := 0, ZERO;
      msg, iv := [], ZERO;
      forall i | 0 <= i < block.Length {
        block[i] := 0;
      }
    }

    /** md5_final */
    method Final(out: array<byte>, at: nat)
      requires Valid() && out != block && at + 16 <= out.Length
      modifies this, block, out
      ensures Stored(old(out[..]), out[..], at, WordBytesLittle(Fold(compress, old(iv), Standard(old(msg))), 4))
      ensures old(iv) == INIT ==> Stored(old(out[..]), out[..], at, Digest(compress, old(msg)))
      ensures Wiped() && Valid()
    {
      Pad();
      Copy(out, at, WordBytesLittle(hash, 4));
      Wipe();
    }
  }
}
