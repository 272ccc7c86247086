/** ECB and CBC on flat byte strings, over any block function. */
module CipherModes {
  import opened Octets
  import opened Scatterlist

  type BlockFn = seq<byte> -> seq<byte>

  datatype Mode = Ecb | CbcEncrypt | CbcDecrypt

  ghost predicate Sized(fn: BlockFn, b: nat) {
    forall x: seq<byte> {:trigger fn(x)} :: |x| == b ==> |fn(x)| == b
  }

  function Xor(x: seq<byte>, y: seq<byte>): (r: seq<byte>)
    requires |x| == |y|
    ensures |r| == |x|
    ensures forall i :: 0 <= i < |x| ==> r[i] == x[i] ^ y[i]
  {
    seq(|x|, i requires 0 <= i < |x| => x[i] ^ y[i])
  }

  lemma XorCancels(iv: seq<byte>, x: seq<byte>)
    requires |x| == |iv|
    ensures Xor(Xor(iv, x), iv) == x
  {
    var r := Xor(Xor(iv, x), iv);
    forall i | 0 <= i < |x| ensures r[i] == x[i] {
      assert (iv[i] ^ x[i]) ^ iv[i] == x[i];
    }
  }

  /** One block of output. */
  function Out(mode: Mode, fn: BlockFn, iv: seq<byte>, x: seq<byte>): seq<byte>
    requires mode == CbcEncrypt ==> |iv| == |x|
    requires mode == CbcDecrypt ==> |iv| == |fn(x)|
  {
    match mode
    case Ecb => fn(x)
    case CbcEncrypt => fn(Xor(iv, x))
    case CbcDecrypt => Xor(fn(x), iv)
  }

  /** The chaining value handed to the next block. */
  function NextIv(mode: Mode, fn: BlockFn, iv: seq<byte>, x: seq<byte>): seq<byte>
    requires mode == CbcEncrypt ==> |iv| == |x|
  {
    match mode
    case Ecb => iv
    case CbcEncrypt => fn(Xor(iv, x))
    case CbcDecrypt => x
  }

  ghost predicate Ready(mode: Mode, fn: BlockFn, b: nat, iv: seq<byte>) {
    0 < b && Sized(fn, b) && (mode != Ecb ==> |iv| == b)
  }

  /** The mode's output on a message, block by block. */
  ghost function Process(mode: Mode, fn: BlockFn, b: nat, iv: seq<byte>, msg: seq<byte>): seq<byte>
    requires Ready(mode, fn, b, iv)
    decreases |msg|
  {
    if |msg| < b then [] else
    Out(mode, fn, iv, msg[..b]) + Process(mode, fn, b, NextIv(mode, fn, iv, msg[..b]), msg[b..])
  }

  /** The chaining value after a message. */
  ghost function EndIv(mode: Mode, fn: BlockFn, b: nat, iv: seq<byte>, msg: seq<byte>): (r: seq<byte>)
    requires Ready(mode, fn, b, iv)
    ensures Ready(mode, fn, b, r)
    decreases |msg|
  {
    if |msg| < b then iv else EndIv(mode, fn, b, NextIv(mode, fn, iv, msg[..b]), msg[b..])
  }

  lemma LessOneBlock(n: nat, b: nat)
    requires 0 < b && n % b == 0
    ensures n == 0 || (b <= n && (n - b) % b == 0)
  {
    var q := n / b;
    assert n == q * b;
    if n != 0 {
      assert n - b == (q - 1) * b + 0;
      assert q - 1 >= 0;
      Remainder(b, q - 1, 0);
    }
  }

  lemma {:induction false} ProcessLength(mode: Mode, fn: BlockFn, b: nat, iv: seq<byte>, msg: seq<byte>)
    requires Ready(mode, fn, b, iv) && |msg| % b == 0
    ensures |Process(mode, fn, b, iv, msg)| == |msg|
    decreases |msg|
  {
    LessOneBlock(|msg|, b);
    if msg != [] {
      ProcessLength(mode, fn, b, NextIv(mode, fn, iv, msg[..b]), msg[b..]);
    }
  }

  /** Two consecutive calls are one call on the concatenation. */
  lemma {:induction false} ProcessAppend(mode: Mode, fn: BlockFn, b: nat, iv: seq<byte>, m1: seq<byte>, m2: seq<byte>)
    requires Ready(mode, fn, b, iv) && |m1| % b == 0
    ensures Process(mode, fn, b, iv, m1 + m2) ==
      Process(mode, fn, b, iv, m1) + Process(mode, fn, b, EndIv(mode, fn, b, iv, m1), m2)
    ensures EndIv(mode, fn, b, iv, m1 + m2) == EndIv(mode, fn, b, EndIv(mode, fn, b, iv, m1), m2)
    decreases |m1|
  {
    LessOneBlock(|m1|, b);
    if m1 == [] {
      assert m1 + m2 == m2;
    } else {
      assert (m1 + m2)[..b] == m1[..b];
      assert (m1 + m2)[b..] == m1[b..] + m2;
      var next := NextIv(mode, fn, iv, m1[..b]);
      ProcessAppend(mode, fn, b, next, m1[b..], m2);
      Seqs.Assoc(Out(mode, fn, iv, m1[..b]), Process(mode, fn, b, next, m1[b..]),
        Process(mode, fn, b, EndIv(mode, fn, b, iv, m1), m2));
    }
  }

  ghost predicate Inverts(dec: BlockFn, enc: BlockFn, b: nat) {
    forall x: seq<byte> {:trigger enc(x)} :: |x| == b ==> dec(enc(x)) == x
  }

  /** CBC decryption from the same starting IV restores every message, and both IVs agree. */
  lemma {:induction false} CbcRestores(enc: BlockFn, dec: BlockFn, b: nat, iv: seq<byte>, msg: seq<byte>)
    requires Ready(CbcEncrypt, enc, b, iv) && Sized(dec, b) && Inverts(dec, enc, b)
    requires |msg| % b == 0
    ensures Process(CbcDecrypt, dec, b, iv, Process(CbcEncrypt, enc, b, iv, msg)) == msg
    ensures EndIv(CbcDecrypt, dec, b, iv, Process(CbcEncrypt, enc, b, iv, msg)) == EndIv(CbcEncrypt, enc, b, iv, msg)
    decreases |msg|
  {
    LessOneBlock(|msg|, b);
    if msg != [] {
      var x, rest := msg[..b], msg[b..];
      var c := Out(CbcEncrypt, enc, iv, x);
      var tail := Process(CbcEncrypt, enc, b, c, rest);
      CbcRestores(enc, dec, b, c, rest);
      assert (c + tail)[..b] == c && (c + tail)[b..] == tail;
      XorCancels(iv, x);
      assert x + rest == msg;
    }
  }

  lemma {:induction false} EcbRestores(enc: BlockFn, dec: BlockFn, b: nat, iv: seq<byte>, msg: seq<byte>)
    requires Ready(Ecb, enc, b, iv) && Sized(dec, b) && Inverts(dec, enc, b)
    requires |msg| % b == 0
    ensures Process(Ecb, dec, b, iv, Process(Ecb, enc, b, iv, msg)) == msg
    decreases |msg|
  {
    LessOneBlock(|msg|, b);
    if msg != [] {
      var c, tail := enc(msg[..b]), Process(Ecb, enc, b, iv, msg[b..]);
      EcbRestores(enc, dec, b, iv, msg[b..]);
      assert (c + tail)[..b] == c && (c + tail)[b..] == tail;
      assert msg[..b] + msg[b..] == msg;
    }
  }

  /** The IV ends as the last ciphertext block, in both directions. */
  lemma {:induction false} EndIvIsLast(mode: Mode, fn: BlockFn, b: nat, iv: seq<byte>, msg: seq<byte>)
    requires mode != Ecb && Ready(mode, fn, b, iv) && |msg| % b == 0 && msg != []
    ensures b <= |msg| == |Process(mode, fn, b, iv, msg)|
    ensures var cipher := if mode == CbcEncrypt then Process(mode, fn, b, iv, msg) else msg;
      EndIv(mode, fn, b, iv, msg) == cipher[|msg| - b..]
    decreases |msg|
  {
    LessOneBlock(|msg|, b);
    ProcessLength(mode, fn, b, iv, msg);
    var next := NextIv(mode, fn, iv, msg[..b]);
    if |msg| == b {
      assert msg[..b] == msg;
    } else {
      LessOneBlock(|msg| - b, b);
      EndIvIsLast(mode, fn, b, next, msg[b..]);
      ProcessLength(mode, fn, b, next, msg[b..]);
    }
  }

  // ---------------------------------------------------------------- block by block

  /** Block `k`. */
  function Nth(s: seq<byte>, b: nat, k: nat): seq<byte>
    requires Base(b, k) + b <= |s|
  {
    s[Base(b, k)..Base(b, k) + b]
  }

  /** What block `k` of the output `y` is: the block function of block `k`, chained through the block before. */
  ghost predicate BlockLaw(mode: Mode, fn: BlockFn, b: nat, iv: seq<byte>, msg: seq<byte>, y: seq<byte>, k: nat)
    requires Ready(mode, fn, b, iv) && Base(b, k) + b <= |msg| == |y|
  {
    BlockOrder(b, k);
    match mode
    case Ecb => Nth(y, b, k) == fn(Nth(msg, b, k))
    case CbcEncrypt => Nth(y, b, k) == fn(Xor(if k == 0 then iv else Nth(y, b, k - 1), Nth(msg, b, k)))
    case CbcDecrypt => Nth(y, b, k) == Xor(fn(Nth(msg, b, k)), if k == 0 then iv else Nth(msg, b, k - 1))
  }

  lemma BlockOrder(b: nat, k: nat)
    ensures Base(b, 0) == 0 && (k > 0 ==> Base(b, k) == Base(b, k - 1) + b)
  {
    if k > 0 {
      NextPage(b, k - 1);
    }
  }

  /** Dropping the first block. */
  lemma NthDrop(s: seq<byte>, b: nat, k: nat)
    requires k > 0 && Base(b, k) + b <= |s|
    ensures b <= |s| && Base(b, k - 1) + b <= |s[b..]| && Nth(s[b..], b, k - 1) == Nth(s, b, k)
  {
    BlockOrder(b, k);
    var i := Base(b, k - 1);
    assert s[b..][i..i + b] == s[b + i..b + i + b];
  }

  /** The textbook law of each mode, for every block of every message. */
  lemma {:induction false} ProcessBlocks(mode: Mode, fn: BlockFn, b: nat, iv: seq<byte>, msg: seq<byte>, k: nat)
    requires Ready(mode, fn, b, iv) && |msg| % b == 0 && Base(b, k) + b <= |msg|
    ensures |Process(mode, fn, b, iv, msg)| == |msg|
    ensures BlockLaw(mode, fn, b, iv, msg, Process(mode, fn, b, iv, msg), k)
    decreases k
  {
    ProcessLength(mode, fn, b, iv, msg);
    LessOneBlock(|msg|, b);
    BlockOrder(b, k);
    var x, rest := msg[..b], msg[b..];
    var o, next := Out(mode, fn, iv, x), NextIv(mode, fn, iv, x);
    var tail := Process(mode, fn, b, next, rest);
    var y := Process(mode, fn, b, iv, msg);
    assert y == o + tail && y[..b] == o && y[b..] == tail;
    if k > 0 {
      NthDrop(msg, b, k);
      ProcessBlocks(mode, fn, b, next, rest, k - 1);
      NthDrop(y, b, k);
      if k > 1 {
        BlockOrder(b, k - 1);
        NthDrop(msg, b, k - 1);
        NthDrop(y, b, k - 1);
      }
    }
  }

  /** All blocks. */
  ghost predicate Blockwise(mode: Mode, fn: BlockFn, b: nat, iv: seq<byte>, msg: seq<byte>, y: seq<byte>) {
    && Ready(mode, fn, b, iv) && |y| == |msg|
    && forall k: nat {:trigger Base(b, k)} :: Base(b, k) + b <= |msg| ==> BlockLaw(mode, fn, b, iv, msg, y, k)
  }

  lemma ProcessBlockwise(mode: Mode, fn: BlockFn, b: nat, iv: seq<byte>, msg: seq<byte>)
    requires Ready(mode, fn, b, iv) && |msg| % b == 0
    ensures Blockwise(mode, fn, b, iv, msg, Process(mode, fn, b, iv, msg))
  {
    ProcessLength(mode, fn, b, iv, msg);
    forall k: nat | Base(b, k) + b <= |msg| ensures BlockLaw(mode, fn, b, iv, msg, Process(mode, fn, b, iv, msg), k) {
      ProcessBlocks(mode, fn, b, iv, msg, k);
    }
  }
}
