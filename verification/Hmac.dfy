/**
 * crypto/hmac.c: HMAC over a streaming digest.  Key, pad block, text and output all lie in one
 * memory, so that what overwrites what is part of the model.
 */
module Hmac {
  import opened Octets
  import opened Scatterlist
  import opened BlockHash
  import opened DigestCtx
  import opened CryptoDigest

  const IPAD: byte := 0x36
  const OPAD: byte := 0x5c

  function XorAll(s: seq<byte>, v: byte): (r: seq<byte>)
    ensures |r| == |s|
  {
    seq(|s|, i requires 0 <= i < |s| => s[i] ^ v)
  }

  /** Section 2 of RFC 2104: a key longer than a block is replaced by its digest. */
  function ShortKey(c: Ctx, key: seq<byte>): (k: seq<byte>)
    ensures |k| <= BLOCK
  {
    if |key| > BLOCK then DigestOf(c, key) else key
  }

  /** What the code replaces it by: what one call of the digest makes of it. */
  function UsedKey(c: Ctx, key: seq<byte>): (k: seq<byte>)
    ensures |k| <= BLOCK
  {
    if |key| > BLOCK then OneShot(c, key) else key
  }

  /** The code hashes a long key as the standard asks exactly when the key is shorter than 2^29 bytes or the digest
      is MD5; then it uses the key of RFC 2104. */
  lemma KeyExact(c: Ctx, key: seq<byte>)
    requires |key| < TWO32
    ensures |key| > BLOCK ==> (Stream(c, Feed(c, Nothing(), key)) == Standard(c, key) <==> Exactly(c, |key|))
    ensures Exactly(c, |key|) ==> UsedKey(c, key) == ShortKey(c, key)
  {
    OneCall(c, key);
  }

  function Block(key: seq<byte>, v: byte): (r: seq<byte>)
    requires |key| <= BLOCK
    ensures |r| == BLOCK
  {
    XorAll(key + Zeros(BLOCK - |key|), v)
  }

  /** The two hashes, with a key of at most a block. */
  function Nested(c: Ctx, k: seq<byte>, text: seq<byte>): seq<byte>
    requires |k| <= BLOCK
  {
    DigestOf(c, Block(k, OPAD) + DigestOf(c, Block(k, IPAD) + text))
  }

  /** Section 2 of RFC 2104. */
  function HmacOf(c: Ctx, key: seq<byte>, text: seq<byte>): seq<byte> { Nested(c, ShortKey(c, key), text) }

  // ---------------------------------------------------------------- memory

  predicate Apart(a: nat, n: nat, b: nat, k: nat) { a + n <= b || b + k <= a }

  /** Reading beside a store. */
  lemma StoredApart(x: seq<byte>, y: seq<byte>, j: nat, b: seq<byte>, a: nat, n: nat)
    requires Stored(x, y, j, b) && a + n <= |x| && Apart(j, |b|, a, n)
    ensures y[a..a + n] == x[a..a + n]
  {
    forall p | a <= p < a + n ensures y[p] == x[p] {
      StoredExcept(x, y, j, b, p);
    }
  }

  /** A store over an earlier one. */
  lemma StoredOver(x: seq<byte>, y: seq<byte>, z: seq<byte>, j: nat, a: seq<byte>, b: seq<byte>)
    requires Stored(x, y, j, a) && Stored(y, z, j, b) && |b| <= |a|
    ensures Stored(x, z, j, b + a[|b|..])
  {
    var e, f := j + |b|, j + |a|;
    assert z[j..f] == z[j..e] + z[e..f];
    assert z[e..f] == z[e..][..f - e] == y[e..][..f - e] == y[e..f] == y[j..f][|b|..];
    assert z[f..] == z[e..][f - e..] == y[e..][f - e..] == y[f..];
  }

  lemma StoredAgain(x: seq<byte>, y: seq<byte>, z: seq<byte>, j: nat, a: seq<byte>, b: seq<byte>)
    requires Stored(x, y, j, a) && Stored(y, z, j, b) && |b| == |a|
    ensures Stored(x, z, j, b)
  {
    StoredOver(x, y, z, j, a, b);
    assert b + a[|b|..] == b;
  }

  /** Nothing changed outside two regions. */
  ghost predicate Except(x: seq<byte>, y: seq<byte>, a: nat, n: nat, b: nat, k: nat) {
    |x| == |y| && forall p {:trigger y[p]} :: 0 <= p < |x| && (p < a || a + n <= p) && (p < b || b + k <= p) ==> y[p] == x[p]
  }

  lemma StoredExcept(x: seq<byte>, y: seq<byte>, j: nat, b: seq<byte>, p: nat)
    requires Stored(x, y, j, b) && p < |x| && (p < j || j + |b| <= p)
    ensures y[p] == x[p]
  {
    if p < j {
      assert y[p] == y[..j][p] && x[p] == x[..j][p];
    } else {
      var e := j + |b|;
      assert y[p] == y[e..][p - e] && x[p] == x[e..][p - e];
    }
  }

  lemma TwoStores(x: seq<byte>, y: seq<byte>, z: seq<byte>, i: nat, a: seq<byte>, j: nat, b: seq<byte>)
    requires Stored(x, y, i, a) && Stored(y, z, j, b)
    ensures Except(x, z, i, |a|, j, |b|)
  {
    forall p | 0 <= p < |x| && (p < i || i + |a| <= p) && (p < j || j + |b| <= p) ensures z[p] == x[p] {
      StoredExcept(x, y, i, a, p);
      StoredExcept(y, z, j, b, p);
    }
  }

  lemma ExceptGather(x: seq<byte>, y: seq<byte>, a: nat, n: nat, b: nat, k: nat, s: seq<nat>)
    requires Except(x, y, a, n, b, k) && Within(s, |x|) && Avoids(s, a, n) && Avoids(s, b, k)
    ensures Gather(y, s) == Gather(x, s)
  {
    var g, h := Gather(y, s), Gather(x, s);
    forall i | 0 <= i < |s| ensures g[i] == h[i] {
      assert y[s[i]] == x[s[i]];
    }
  }

  /** No address of `s` lies in the region. */
  ghost predicate Avoids(s: seq<nat>, a: nat, n: nat) {
    forall i {:trigger s[i]} :: 0 <= i < |s| ==> s[i] < a || a + n <= s[i]
  }

  /** The scatterlist of a buffer at one address. */
  function Tmp(ps: nat, at: nat, n: nat): Segment
    requires ps > 0
  {
    Segment(at / ps, at % ps, n)
  }

  lemma TmpAddrs(mem: array<byte>, ps: nat, at: nat, n: nat)
    requires 0 < ps < TWO29 && at + n <= mem.Length
    ensures Listed(mem, ps, [Tmp(ps, at, n)]) && Addrs(ps, [Tmp(ps, at, n)]) == Span(at, n)
  {
    var q, r := at / ps, at % ps;
    assert Base(ps, q) + r == at;
    OneSegment(ps, Tmp(ps, at, n));
  }

  lemma TmpBytes(mem: array<byte>, ps: nat, at: nat, n: nat)
    requires 0 < ps < TWO29 && at + n <= mem.Length
    ensures Listed(mem, ps, [Tmp(ps, at, n)])
    ensures Gather(mem[..], Addrs(ps, [Tmp(ps, at, n)])) == mem[at..at + n]
  {
    TmpAddrs(mem, ps, at, n);
    GatherSpan(mem[..], at, n);
  }

  // ---------------------------------------------------------------- the code

  /** hash_key: the digest overwrites the key, and whatever the context had taken in before is gone. */
  method HashKey(c: Ctx, mem: array<byte>, key: nat, keylen: nat)
    requires Alive(c) && mem !in Repr(c) && BLOCK < keylen < TWO32 && key + keylen <= mem.Length
    modifies Repr(c), mem
    ensures Stored(old(mem[..]), mem[..], key, OneShot(c, old(mem[key..key + keylen])))
    ensures Spent(c, Feed(c, Nothing(), old(mem[key..key + keylen])))
  {
    DigestOne(c, mem, key, keylen, key);
  }

  /** The byte at `p` after the first `i` bytes of the block were xor-ed. */
  function Xored(x: seq<byte>, block: nat, i: nat, v: byte, p: nat): byte
    requires p < |x|
  {
    if block <= p < block + i then x[p] ^ v else x[p]
  }

  /** The xor loop over the pad block. */
  method XorBlock(mem: array<byte>, block: nat, v: byte)
    requires block + BLOCK <= mem.Length
    modifies mem
    ensures Stored(old(mem[..]), mem[..], block, XorAll(old(mem[block..block + BLOCK]), v))
  {
    ghost var x := mem[..];
    var i := 0;
    while i < BLOCK
      invariant i <= BLOCK && forall p {:trigger mem[p]} :: 0 <= p < mem.Length ==> mem[p] == Xored(x, block, i, v, p)
    {
      mem[block + i] := mem[block + i] ^ v;
      i := i + 1;
    }
    XorStored(x, mem[..], block, v);
    assert x[block..block + BLOCK] == old(mem[block..block + BLOCK]);
  }

  lemma XorStored(x: seq<byte>, y: seq<byte>, block: nat, v: byte)
    requires |x| == |y| && block + BLOCK <= |x|
    requires forall p {:trigger y[p]} :: 0 <= p < |x| ==> y[p] == Xored(x, block, BLOCK, v, p)
    ensures Stored(x, y, block, XorAll(x[block..block + BLOCK], v))
  {
  }

  /** Zeros in the block and the key over them. */
  method PutKey(mem: array<byte>, block: nat, key: nat, keylen: nat)
    requires keylen <= BLOCK && key + keylen <= mem.Length && block + BLOCK <= mem.Length && Apart(block, BLOCK, key, keylen)
    modifies mem
    ensures Stored(old(mem[..]), mem[..], block, old(mem[key..key + keylen]) + Zeros(BLOCK - keylen))
  {
    ghost var x, k := mem[..], mem[key..key + keylen];
    Copy(mem, block, Zeros(BLOCK));
    ghost var y := mem[..];
    StoredApart(x, y, block, Zeros(BLOCK), key, keylen);
    Copy(mem, block, mem[key..key + keylen]);
    StoredOver(x, y, mem[..], block, Zeros(BLOCK), k);
    assert Zeros(BLOCK)[keylen..] == Zeros(BLOCK - keylen);
  }

  /** The pad block: the key, zeros, and every byte xor-ed. */
  method PadKey(mem: array<byte>, block: nat, key: nat, keylen: nat, v: byte)
    requires keylen <= BLOCK && key + keylen <= mem.Length && block + BLOCK <= mem.Length && Apart(block, BLOCK, key, keylen)
    modifies mem
    ensures Stored(old(mem[..]), mem[..], block, Block(old(mem[key..key + keylen]), v))
  {
    ghost var x, k := mem[..], mem[key..key + keylen];
    PutKey(mem, block, key, keylen);
    ghost var z := mem[..];
    assert z[block..block + BLOCK] == k + Zeros(BLOCK - keylen);
    XorBlock(mem, block, v);
    StoredAgain(x, z, mem[..], block, k + Zeros(BLOCK - keylen), Block(k, v));
  }

  /** A digest update from a buffer in memory. */
  method UpdateBuffer(c: Ctx, mem: array<byte>, ps: nat, at: nat, n: nat)
    requires Ready(c) && mem !in Repr(c) && 0 < ps < TWO29 && at + n <= mem.Length
    modifies Repr(c)
    ensures Ready(c) && Absorbed(c) == old(Absorbed(c)) + mem[at..at + n]
  {
    TmpBytes(mem, ps, at, n);
    Update(c, mem, ps, [Tmp(ps, at, n)]);
  }

  /** The digest starts with the pad block. */
  method Begin(c: Ctx, mem: array<byte>, ps: nat, block: nat)
    requires Alive(c) && mem !in Repr(c) && 0 < ps < TWO29 && block + BLOCK <= mem.Length
    modifies Repr(c)
    ensures Ready(c) && Absorbed(c) == mem[block..block + BLOCK]
  {
    Init(c);
    UpdateBuffer(c, mem, ps, block, BLOCK);
  }

  /** A key longer than a block is overwritten by its digest. */
  method Shorten(c: Ctx, mem: array<byte>, key: nat, keylen: nat) returns (len: nat)
    requires Alive(c) && mem !in Repr(c) && keylen < TWO32 && key + keylen <= mem.Length
    modifies Repr(c), mem
    ensures len == (if keylen > BLOCK then DigestSize(c) else keylen) && len <= keylen
    ensures mem[key..key + len] == UsedKey(c, old(mem[key..key + keylen]))
    ensures if keylen > BLOCK then Stored(old(mem[..]), mem[..], key, mem[key..key + len]) else mem[..] == old(mem[..])
    ensures if keylen > BLOCK then Spent(c, Feed(c, Nothing(), old(mem[key..key + keylen]))) else unchanged(Repr(c))
  {
    len := keylen;
    if keylen > BLOCK {
      HashKey(c, mem, key, keylen);
      len := DigestSize(c);
    }
  }

  /** The inner pad; the key, which lies beside the block, stays. */
  method PadBeside(mem: array<byte>, block: nat, key: nat, len: nat, ghost x: seq<byte>, ghost changed: seq<byte>)
    requires len <= BLOCK && key + len <= mem.Length && block + BLOCK <= mem.Length && Apart(block, BLOCK, key, len)
    requires (changed == [] && x == mem[..]) || Stored(x, mem[..], key, changed)
    modifies mem
    ensures mem[key..key + len] == old(mem[key..key + len]) && mem[block..block + BLOCK] == Block(mem[key..key + len], IPAD)
    ensures Except(x, mem[..], key, |changed|, block, BLOCK)
  {
    ghost var y, k := mem[..], mem[key..key + len];
    PadKey(mem, block, key, len, IPAD);
    StoredApart(y, mem[..], block, Block(k, IPAD), key, len);
    KeyChanges(x, y, mem[..], key, changed, block, Block(k, IPAD));
  }

  /** crypto_hmac_init.  The key's length comes back, shortened when the key was hashed. */
  method Start(c: Ctx, mem: array<byte>, ps: nat, block: nat, key: nat, keylen: nat) returns (len: nat)
    requires Alive(c) && mem !in Repr(c) && 0 < ps < TWO29 && keylen < TWO32
    requires key + keylen <= mem.Length && block + BLOCK <= mem.Length && Apart(block, BLOCK, key, keylen)
    modifies Repr(c), mem
    ensures len == (if keylen > BLOCK then DigestSize(c) else keylen)
    ensures key + len <= mem.Length && mem[key..key + len] == UsedKey(c, old(mem[key..key + keylen]))
    ensures Ready(c) && Absorbed(c) == Block(mem[key..key + len], IPAD)
    ensures Except(old(mem[..]), mem[..], key, if keylen > BLOCK then len else 0, block, BLOCK)
  {
    ghost var x := mem[..];
    len := Shorten(c, mem, key, keylen);
    PadBeside(mem, block, key, len, x, if keylen > BLOCK then mem[key..key + len] else []);
    Begin(c, mem, ps, block);
  }

  lemma KeyChanges(x: seq<byte>, y: seq<byte>, z: seq<byte>, key: nat, k: seq<byte>, block: nat, b: seq<byte>)
    requires (k == [] && x == y) || Stored(x, y, key, k)
    requires Stored(y, z, block, b)
    ensures Except(x, z, key, |k|, block, |b|)
  {
    if k == [] && x == y {
      forall p | 0 <= p < |x| && (p < block || block + |b| <= p) ensures z[p] == x[p] {
        StoredExcept(y, z, block, b, p);
      }
    } else {
      TwoStores(x, y, z, key, k, block, b);
    }
  }

  /** What the first final call of crypto_hmac_final gives: the inner digest of the text, or, if the key was hashed
      just before in the same context, something that has nothing to do with the text. */
  ghost function InnerHash(c: Ctx, key: seq<byte>): (r: seq<byte>)
    reads Repr(c)
    ensures |r| == DigestSize(c)
  {
    if |key| > BLOCK then AfterSpent(c, Feed(c, Nothing(), key)) else DigestOf(c, Absorbed(c))
  }

  /** That call. */
  method FinalInner(c: Ctx, mem: array<byte>, out: nat, ghost key: seq<byte>)
    requires if |key| > BLOCK then Spent(c, Feed(c, Nothing(), key)) else Ready(c)
    requires mem !in Repr(c) && out + DigestSize(c) <= mem.Length
    modifies Repr(c), mem
    ensures Stored(old(mem[..]), mem[..], out, old(InnerHash(c, key)))
  {
    StreamExact(c, SeenOf(c));
    FinalOne(c, mem, out, if |key| > BLOCK then Feed(c, Nothing(), key) else SeenOf(c));
  }

  /** The inner digest goes to `out`, the outer pad to the block. */
  method Inner(c: Ctx, mem: array<byte>, block: nat, key: nat, keylen: nat, out: nat, ghost first: seq<byte>)
    requires if |first| > BLOCK then Spent(c, Feed(c, Nothing(), first)) else Ready(c)
    requires mem !in Repr(c) && keylen <= BLOCK
    requires key + keylen <= mem.Length && block + BLOCK <= mem.Length && out + DigestSize(c) <= mem.Length
    requires Apart(block, BLOCK, key, keylen) && Apart(out, DigestSize(c), key, keylen) && Apart(block, BLOCK, out, DigestSize(c))
    modifies Repr(c), mem
    ensures mem[block..block + BLOCK] == Block(old(mem[key..key + keylen]), OPAD)
    ensures mem[out..out + DigestSize(c)] == old(InnerHash(c, first))
    ensures Except(old(mem[..]), mem[..], out, DigestSize(c), block, BLOCK)
  {
    ghost var x, inner := mem[..], InnerHash(c, first);
    FinalInner(c, mem, out, first);
    PadOuter(mem, block, key, keylen, out, x, inner);
  }

  /** The outer pad, beside the inner digest that was just stored. */
  method PadOuter(mem: array<byte>, block: nat, key: nat, keylen: nat, out: nat, ghost x: seq<byte>, ghost inner: seq<byte>)
    requires Stored(x, mem[..], out, inner) && keylen <= BLOCK && key + keylen <= mem.Length && block + BLOCK <= mem.Length
    requires Apart(block, BLOCK, key, keylen) && Apart(out, |inner|, key, keylen) && Apart(block, BLOCK, out, |inner|)
    modifies mem
    ensures mem[block..block + BLOCK] == Block(x[key..key + keylen], OPAD) && mem[out..out + |inner|] == inner
    ensures Except(x, mem[..], out, |inner|, block, BLOCK)
  {
    ghost var y, k := mem[..], mem[key..key + keylen];
    StoredApart(x, y, out, inner, key, keylen);
    PadKey(mem, block, key, keylen, OPAD);
    InnerValues(x, y, mem[..], out, inner, block, Block(k, OPAD));
  }

  lemma InnerValues(x: seq<byte>, y: seq<byte>, z: seq<byte>, out: nat, a: seq<byte>, block: nat, b: seq<byte>)
    requires Stored(x, y, out, a) && Stored(y, z, block, b) && Apart(block, |b|, out, |a|)
    ensures z[out..out + |a|] == a && z[block..block + |b|] == b && Except(x, z, out, |a|, block, |b|)
  {
    StoredApart(y, z, block, b, out, |a|);
    TwoStores(x, y, z, out, a, block, b);
  }

  /** The outer hash: the pad block, then the inner digest where it was left. */
  method Outer(c: Ctx, mem: array<byte>, ps: nat, block: nat, out: nat, ghost text: seq<byte>)
    requires Alive(c) && mem !in Repr(c) && 0 < ps < TWO29
    requires block + BLOCK <= mem.Length && out + DigestSize(c) <= mem.Length
    requires text == mem[block..block + BLOCK] + mem[out..out + DigestSize(c)]
    modifies Repr(c), mem
    ensures Stored(old(mem[..]), mem[..], out, DigestOf(c, text))
  {
    Begin(c, mem, ps, block);
    UpdateBuffer(c, mem, ps, out, DigestSize(c));
    Final(c, mem, out);
  }

  lemma StoreMore(x: seq<byte>, y: seq<byte>, z: seq<byte>, a: nat, n: nat, b: nat, k: nat, d: seq<byte>)
    requires Except(x, y, a, n, b, k) && Stored(y, z, a, d) && |d| == n
    ensures Except(x, z, a, n, b, k) && z[a..a + n] == d
  {
    forall p | 0 <= p < |x| && (p < a || a + n <= p) && (p < b || b + k <= p) ensures z[p] == x[p] {
      StoredExcept(y, z, a, d, p);
    }
  }

  /** The two hashes of crypto_hmac_final, once the key is short. */
  method BothHashes(c: Ctx, mem: array<byte>, ps: nat, block: nat, key: nat, keylen: nat, out: nat, ghost first: seq<byte>)
    requires if |first| > BLOCK then Spent(c, Feed(c, Nothing(), first)) else Ready(c)
    requires Alive(c) && mem !in Repr(c) && 0 < ps < TWO29 && keylen <= BLOCK
    requires key + keylen <= mem.Length && block + BLOCK <= mem.Length && out + DigestSize(c) <= mem.Length
    requires Apart(block, BLOCK, key, keylen) && Apart(out, DigestSize(c), key, keylen) && Apart(block, BLOCK, out, DigestSize(c))
    modifies Repr(c), mem
    ensures mem[out..out + DigestSize(c)] == DigestOf(c, Block(old(mem[key..key + keylen]), OPAD) + old(InnerHash(c, first)))
    ensures Except(old(mem[..]), mem[..], out, DigestSize(c), block, BLOCK)
  {
    ghost var x := mem[..];
    Inner(c, mem, block, key, keylen, out, first);
    ghost var y, text := mem[..], mem[block..block + BLOCK] + mem[out..out + DigestSize(c)];
    Outer(c, mem, ps, block, out, text);
    StoreMore(x, y, mem[..], out, DigestSize(c), block, BLOCK, DigestOf(c, text));
  }

  /** crypto_hmac_final.  The length that Start left is at most a block.  With a longer one the key is hashed in the
      context of the running digest: the output is a function of the key alone. */
  method Finish(c: Ctx, mem: array<byte>, ps: nat, block: nat, key: nat, keylen: nat, out: nat) returns (len: nat)
    requires Alive(c) && Ready(c) && mem !in Repr(c) && 0 < ps < TWO29 && keylen < TWO32
    requires key + keylen <= mem.Length && block + BLOCK <= mem.Length && out + DigestSize(c) <= mem.Length
    requires Apart(block, BLOCK, key, keylen) && Apart(out, DigestSize(c), key, keylen) && Apart(block, BLOCK, out, DigestSize(c))
    modifies Repr(c), mem
    ensures
      var k := old(mem[key..key + keylen]);
      mem[out..out + DigestSize(c)] == DigestOf(c, Block(UsedKey(c, k), OPAD) + old(InnerHash(c, k)))
    ensures len == if keylen > BLOCK then DigestSize(c) else keylen
    ensures Beyond(old(mem[..]), mem[..], key, if keylen > BLOCK then len else 0, block, out, DigestSize(c))
  {
    ghost var x, first, inner := mem[..], mem[key..key + keylen], InnerHash(c, mem[key..key + keylen]);
    len := Shorten(c, mem, key, keylen);
    ghost var w := mem[..];
    assert InnerHash(c, first) == inner;
    BothHashes(c, mem, ps, block, key, len, out, first);
    KeyBeyond(x, w, mem[..], key, if keylen > BLOCK then w[key..key + len] else [], block, out, DigestSize(c));
  }

  lemma KeyBeyond(x: seq<byte>, w: seq<byte>, z: seq<byte>, key: nat, k: seq<byte>, block: nat, out: nat, n: nat)
    requires (k == [] && x == w) || Stored(x, w, key, k)
    requires Except(w, z, out, n, block, BLOCK)
    ensures Beyond(x, z, key, |k|, block, out, n)
  {
    forall p | 0 <= p < |x| && (p < key || key + |k| <= p) && (p < block || block + BLOCK <= p) && (p < out || out + n <= p)
      ensures z[p] == x[p]
    {
      if x != w {
        StoredExcept(x, w, key, k, p);
      }
    }
  }

  /** crypto_hmac */
  method Hmac(c: Ctx, mem: array<byte>, ps: nat, block: nat, key: nat, keylen: nat, sg: seq<Segment>, out: nat) returns (len: nat)
    requires Alive(c) && mem !in Repr(c) && 0 < ps < TWO29 && keylen < TWO32 && Listed(mem, ps, sg)
    requires key + keylen <= mem.Length && block + BLOCK <= mem.Length && out + DigestSize(c) <= mem.Length
    requires Apart(block, BLOCK, key, keylen) && Apart(out, DigestSize(c), key, keylen) && Apart(block, BLOCK, out, DigestSize(c))
    requires Avoids(Addrs(ps, sg), block, BLOCK) && (keylen > BLOCK ==> Avoids(Addrs(ps, sg), key, DigestSize(c)))
    modifies Repr(c), mem
    ensures mem[out..out + DigestSize(c)] ==
      Nested(c, UsedKey(c, old(mem[key..key + keylen])), Gather(old(mem[..]), Addrs(ps, sg)))
    ensures Exactly(c, keylen) ==>
      mem[out..out + DigestSize(c)] == HmacOf(c, old(mem[key..key + keylen]), Gather(old(mem[..]), Addrs(ps, sg)))
    ensures len == if keylen > BLOCK then DigestSize(c) else keylen
    ensures Beyond(old(mem[..]), mem[..], key, if keylen > BLOCK then len else 0, block, out, DigestSize(c))
  {
    ghost var x := mem[..];
    KeyExact(c, mem[key..key + keylen]);
    len := Start(c, mem, ps, block, key, keylen);
    ExceptGather(x, mem[..], key, if keylen > BLOCK then len else 0, block, BLOCK, Addrs(ps, sg));
    Update(c, mem, ps, sg);
    ghost var y := mem[..];
    var _ := Finish(c, mem, ps, block, key, len, out);
    BothExcept(x, y, mem[..], key, if keylen > BLOCK then len else 0, block, out, DigestSize(c));
  }

  /** Only the hashed key, the pad block and the output changed. */
  ghost predicate Beyond(x: seq<byte>, z: seq<byte>, key: nat, k: nat, block: nat, out: nat, n: nat) {
    && |x| == |z|
    && forall p {:trigger z[p]} ::
      0 <= p < |x| && (p < key || key + k <= p) && (p < block || block + BLOCK <= p) && (p < out || out + n <= p) ==>
        z[p] == x[p]
  }

  lemma BothExcept(x: seq<byte>, y: seq<byte>, z: seq<byte>, key: nat, k: nat, block: nat, out: nat, n: nat)
    requires Except(x, y, key, k, block, BLOCK) && Beyond(y, z, key, 0, block, out, n)
    ensures Beyond(x, z, key, k, block, out, n)
  {
  }
}
