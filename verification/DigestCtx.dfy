/**
 * A digest context of any of the three kinds; the dispatch through the algorithm's function pointers
 * is a match.  What a context has seen says exactly what its final call will hash, also for calls so
 * long that SHA-256 miscounts or Whirlpool drops bytes.
 */
module DigestCtx {
  import opened Octets
  import opened BlockHash
  import Sha256
  import Md5
  import Wp512

  datatype Ctx = Sha(s: Sha256.Context) | Md(m: Md5.Context) | Wp(w: Wp512.Context)

  ghost function Repr(c: Ctx): set<object> {
    match c
    case Sha(s) => {s, s.buf}
    case Md(m) => {m, m.block}
    case Wp(w) => {w, w.buffer, w.bitLength}
  }

  /** The buffers have the sizes of the source's structures. */
  ghost predicate Alive(c: Ctx) {
    match c
    case Sha(s) => s.buf.Length == 128
    case Md(m) => m.block.Length == 64
    case Wp(w) => w.buffer.Length == 64 && w.bitLength.Length == 32
  }

  function DigestSize(c: Ctx): (n: nat)
    ensures 0 < n <= BLOCK
  {
    match c
    case Sha(_) => 32
    case Md(_) => 16
    case Wp(_) => 64
  }

  // ---------------------------------------------------------------- what is hashed

  /** The bytes taken in and, for SHA-256, the high word of the bit counter. */
  datatype Seen = Seen(msg: seq<byte>, high: Sha256.u32)

  function Nothing(): Seen { Seen([], 0) }

  /** One update call. */
  function Feed(c: Ctx, st: Seen, data: seq<byte>): Seen {
    match c
    case Sha(_) => Seen(st.msg + data, Sha256.HighAfter(st.high, Sha256.Low(|st.msg|), |data|))
    case Md(_) => st.(msg := st.msg + data)
    case Wp(_) => st.(msg := st.msg + data[..Wp512.Kept(|data|)])
  }

  /** The padded stream of a final call. */
  function Stream(c: Ctx, st: Seen): seq<byte> {
    match c
    case Sha(_) => Padded(st.msg, BigEndian(st.high, 4) + BigEndian(Sha256.Low(|st.msg|), 4))
    case Md(_) => Md5.Standard(st.msg)
    case Wp(_) => Wp512.Standard(st.msg)
  }

  /** The padded stream of the standard. */
  function Standard(c: Ctx, m: seq<byte>): seq<byte> {
    match c
    case Sha(_) => Sha256.Standard(m)
    case Md(_) => Md5.Standard(m)
    case Wp(_) => Wp512.Standard(m)
  }

  /** The compression function folded over a stream. */
  function Hash(c: Ctx, stream: seq<byte>): (r: seq<byte>)
    ensures |r| == DigestSize(c)
  {
    match c
    case Sha(s) => WordBytes(Fold(s.compress, Sha256.INIT, stream), 4)
    case Md(m) => WordBytesLittle(Fold(m.compress, Md5.INIT, stream), 4)
    case Wp(w) => WordBytes(Fold(w.compress, Wp512.INIT, stream), 8)
  }

  /** The standard's digest of a whole message. */
  function DigestOf(c: Ctx, m: seq<byte>): (r: seq<byte>)
    ensures |r| == DigestSize(c)
  {
    Hash(c, Standard(c, m))
  }

  /** The counter is right. */
  predicate Counted(c: Ctx, st: Seen) { c.Sha? ==> st.high == Sha256.High(|st.msg|) }

  /** A single call of `n` bytes is taken in as it is. */
  predicate Exactly(c: Ctx, n: nat) { c.Md? || n < TWO29 }

  lemma FeedExact(c: Ctx, st: Seen, data: seq<byte>)
    requires Counted(c, st) && |data| < TWO32 && Exactly(c, |data|)
    ensures Counted(c, Feed(c, st, data)) && Feed(c, st, data).msg == st.msg + data
  {
    Sha256.CountExact(|st.msg|, |data|);
    assert data[..|data|] == data;
  }

  /** A right count makes the stream the standard's, and a wrong one does not. */
  lemma StreamExact(c: Ctx, st: Seen)
    ensures Stream(c, st) == Standard(c, st.msg) <==> Counted(c, st)
  {
    Sha256.StandardPadding(st.msg, Sha256.Low(|st.msg|), st.high);
  }

  /** One call hashes what the standard asks exactly when it is shorter than 2^29 bytes or the digest is MD5. */
  lemma OneCall(c: Ctx, data: seq<byte>)
    requires |data| < TWO32
    ensures Stream(c, Feed(c, Nothing(), data)) == Standard(c, data) <==> Exactly(c, |data|)
  {
    assert [] + data == data;
    match c
    case Sha(_) =>
      FirstCall(|data|);
      OneCallSha(data, Sha256.HighAfter(0, Sha256.Low(0), |data|));
    case Md(_) =>
    case Wp(_) => Wp512.StandardPrefix(data, Wp512.Kept(|data|));
  }

  /** A first call is counted right exactly when it is short: from 0 the low word cannot carry. */
  lemma FirstCall(n: nat)
    requires n < TWO32
    ensures Sha256.HighAfter(0, Sha256.Low(0), n) == Sha256.High(n) <==> n < TWO29
  {
    Sha256.CountExact(0, n);
  }

  lemma OneCallSha(data: seq<byte>, high: Sha256.u32)
    requires high == Sha256.High(|data|) <==> |data| < TWO29
    ensures Padded(data, BigEndian(high, 4) + BigEndian(Sha256.Low(|data|), 4)) == Sha256.Standard(data) <==> |data| < TWO29
  {
    Sha256.StandardPadding(data, Sha256.Low(|data|), high);
  }

  /** What a single call and a final one give, for data of any length. */
  function OneShot(c: Ctx, data: seq<byte>): (r: seq<byte>)
    ensures |r| == DigestSize(c)
  {
    Hash(c, Stream(c, Feed(c, Nothing(), data)))
  }

  lemma OneShotExact(c: Ctx, data: seq<byte>)
    requires |data| < TWO32 && Exactly(c, |data|)
    ensures OneShot(c, data) == DigestOf(c, data)
  {
    OneCall(c, data);
  }

  /** Several calls. */
  function FedAll(c: Ctx, pieces: seq<seq<byte>>): Seen {
    if pieces == [] then Nothing() else Feed(c, FedAll(c, pieces[..|pieces| - 1]), pieces[|pieces| - 1])
  }

  function Joined(pieces: seq<seq<byte>>): seq<byte> {
    if pieces == [] then [] else Joined(pieces[..|pieces| - 1]) + pieces[|pieces| - 1]
  }

  /** Short calls are seen and counted as they are. */
  lemma {:induction false} FedAllExact(c: Ctx, pieces: seq<seq<byte>>)
    requires forall i {:trigger pieces[i]} :: 0 <= i < |pieces| ==> |pieces[i]| < TWO32 && Exactly(c, |pieces[i]|)
    ensures Counted(c, FedAll(c, pieces)) && FedAll(c, pieces).msg == Joined(pieces)
  {
    if pieces != [] {
      var n := |pieces| - 1;
      FedAllExact(c, pieces[..n]);
      FeedExact(c, FedAll(c, pieces[..n]), pieces[n]);
    }
  }

  // ---------------------------------------------------------------- the calls

  /** Between init and final. */
  ghost predicate InUse(c: Ctx)
    reads Repr(c)
  {
    match c
    case Sha(s) => s.Valid() && s.iv == Sha256.INIT
    case Md(m) => m.Valid() && m.iv == Md5.INIT
    case Wp(w) => w.Valid()
  }

  ghost function SeenOf(c: Ctx): Seen
    reads Repr(c)
  {
    match c
    case Sha(s) => Seen(s.msg, s.count1)
    case Md(m) => Seen(m.msg, 0)
    case Wp(w) => Seen(w.msg, 0)
  }

  /** The length fits an unsigned int, and SHA-256's block loop ends. */
  predicate Accepts(c: Ctx, st: Seen, n: nat) {
    n < TWO32 && (c.Sha? ==> |st.msg| % BLOCK + n < TWO32)
  }

  /** After final: SHA-256 and MD5 wipe the context, Whirlpool leaves the last block and the hash. */
  ghost predicate Spent(c: Ctx, st: Seen)
    reads Repr(c)
  {
    match c
    case Sha(s) => s.Wiped() && s.Valid()
    case Md(m) => m.Wiped() && m.Valid()
    case Wp(w) => w.Done(st.msg)
  }

  /** What another final call without init gives then. */
  function AfterSpent(c: Ctx, st: Seen): (r: seq<byte>)
    ensures |r| == DigestSize(c)
  {
    match c
    case Sha(s) => WordBytes(Fold(s.compress, Sha256.ZERO, Padded([], BigEndian(0, 4) + BigEndian(0, 4))), 4)
    case Md(m) => WordBytesLittle(Fold(m.compress, Md5.ZERO, Md5.Standard([])), 4)
    case Wp(w) => WordBytes(Wp512.Again(w.compress, st.msg), 8)
  }

  /** dia_init */
  method InitOne(c: Ctx)
    requires Alive(c)
    modifies Repr(c)
    ensures InUse(c) && SeenOf(c) == Nothing()
  {
    match c
    case Sha(s) => s.Init();
    case Md(m) => m.Init();
    case Wp(w) => w.Init();
  }

  /** dia_update */
  method UpdateOne(c: Ctx, data: seq<byte>)
    requires InUse(c) && Accepts(c, SeenOf(c), |data|)
    modifies Repr(c)
    ensures InUse(c) && SeenOf(c) == Feed(c, old(SeenOf(c)), data)
  {
    match c
    case Sha(s) => s.Update(data);
    case Md(m) => m.Update(data);
    case Wp(w) => w.Update(data);
  }

  /** dia_final, of a digest in use or of one that is spent already. */
  method FinalOne(c: Ctx, mem: array<byte>, out: nat, ghost st: Seen)
    requires (InUse(c) && st == SeenOf(c)) || Spent(c, st)
    requires mem !in Repr(c) && out + DigestSize(c) <= mem.Length
    modifies Repr(c), mem
    ensures old(InUse(c)) && st == old(SeenOf(c)) ==>
      Stored(old(mem[..]), mem[..], out, Hash(c, Stream(c, st))) && Spent(c, st)
    ensures old(Spent(c, st)) ==> Stored(old(mem[..]), mem[..], out, AfterSpent(c, st))
  {
    match c
    case Sha(s) => s.Final(mem, out);
    case Md(m) => m.Final(mem, out);
    case Wp(w) => w.FinalOf(mem, out, st.msg);
  }
}
