/**
 * The mode driver of the crypto layer.  Blocks that cross a page or a segment go through scratch
 * blocks, the others are processed where they lie; either way the effect is one block of the mode
 * read from the next source addresses and written to the next destination addresses.
 */
module Cipher {
  import opened Octets
  import opened Seqs
  import opened Scatterlist
  import opened Scatterwalk
  import opened CipherModes

  const EINVAL: int := 22

  /** The block a pointer points at. */
  function Load(p: Ptr, b: nat): (r: seq<byte>)
    requires p.at + b <= p.buf.Length
    reads p.buf
    ensures |r| == b
  {
    p.buf[p.at..p.at + b]
  }

  method Store(p: Ptr, x: seq<byte>)
    requires p.at + |x| <= p.buf.Length && |x| > 0
    modifies p.buf
    ensures p.buf[..] == Put(old(p.buf[..]), p.at, x) && Load(p, |x|) == x
  {
    forall k | 0 <= k < |x| {
      p.buf[p.at + k] := x[k];
    }
  }

  /** xor_64 and xor_128: `a ^= b` on a block. */
  method XorBlock(a: Ptr, b: Ptr, n: nat)
    requires a.buf != b.buf && a.at + n <= a.buf.Length && b.at + n <= b.buf.Length && n > 0
    modifies a.buf
    ensures a.buf[..] == Put(old(a.buf[..]), a.at, Xor(old(Load(a, n)), Load(b, n)))
    ensures Load(a, n) == Xor(old(Load(a, n)), Load(b, n))
  {
    var x := Xor(Load(a, n), Load(b, n));
    Store(a, x);
  }

  /** Distinct buffers, or blocks of one buffer that do not meet. */
  ghost predicate Apart(p: Ptr, q: Ptr, b: nat) {
    p.buf == q.buf ==> p.at + b <= q.at || q.at + b <= p.at
  }

  lemma LoadApart(before: seq<byte>, after: seq<byte>, at: nat, x: seq<byte>, from: nat)
    requires |x| > 0 && at + |x| <= |before| && after == Put(before, at, x)
    requires from + |x| <= |before| && (at + |x| <= from || from + |x| <= at)
    ensures after[from..from + |x|] == before[from..from + |x|]
  {
  }

  lemma PutTwice(m: seq<byte>, at: nat, x: seq<byte>, y: seq<byte>)
    requires |x| == |y| && at + |x| <= |m|
    ensures Put(Put(m, at, x), at, y) == Put(m, at, y)
  {
  }

  /** ecb_process */
  method EcbProcess(dst: Ptr, src: Ptr, fn: BlockFn, b: nat)
    requires 0 < b && Sized(fn, b) && dst.at + b <= dst.buf.Length && src.at + b <= src.buf.Length
    modifies dst.buf
    ensures dst.buf[..] == Put(old(dst.buf[..]), dst.at, fn(old(Load(src, b))))
  {
    var x := Load(src, b);
    var y := fn(x);
    Store(dst, y);
  }

  /** cbc_process, the encrypting half */
  method CbcEncryptBlock(dst: Ptr, src: Ptr, fn: BlockFn, iv: array<byte>, b: nat)
    requires 0 < b && Sized(fn, b) && dst.at + b <= dst.buf.Length && src.at + b <= src.buf.Length
    requires iv != dst.buf && iv != src.buf && iv.Length == b
    modifies dst.buf, iv
    ensures iv[..] == fn(Xor(old(iv[..]), old(Load(src, b))))
    ensures dst.buf[..] == Put(old(dst.buf[..]), dst.at, iv[..])
  {
    assert iv[0..b] == iv[..];
    XorBlock(Ptr(iv, 0), src, b);
    assert iv[0..b] == iv[..];
    var y := fn(iv[..]);
    Store(dst, y);
    CopyBlock(Ptr(iv, 0), dst, b);
  }

  /** memcpy of one whole block */
  method CopyBlock(dst: Ptr, src: Ptr, b: nat)
    requires dst.buf != src.buf && 0 < b && dst.at + b <= dst.buf.Length && src.at + b <= src.buf.Length
    modifies dst.buf
    ensures dst.buf[..] == Put(old(dst.buf[..]), dst.at, Load(src, b))
    ensures dst.at == 0 && dst.buf.Length == b ==> dst.buf[..] == Load(src, b)
  {
    Memcpy(dst.buf, dst.at, src.buf, src.at, b);
  }

  /** The decrypted, unmasked block goes to `buf`, which is apart from the source. */
  method Unmask(buf: Ptr, src: Ptr, fn: BlockFn, iv: array<byte>, b: nat)
    requires 0 < b && Sized(fn, b) && buf.at + b <= buf.buf.Length && src.at + b <= src.buf.Length
    requires iv != buf.buf && iv.Length == b && Apart(buf, src, b)
    modifies buf.buf
    ensures buf.buf[..] == Put(old(buf.buf[..]), buf.at, Xor(fn(old(Load(src, b))), iv[..]))
    ensures Load(buf, b) == Xor(fn(old(Load(src, b))), iv[..])
    ensures Load(src, b) == old(Load(src, b))
  {
    ghost var m := buf.buf[..];
    var y := fn(Load(src, b));
    StoreMasked(buf, y, iv, b);
    if buf.buf == src.buf {
      LoadApart(m, buf.buf[..], buf.at, Xor(y, iv[..]), src.at);
      assert m[src.at..src.at + b] == old(Load(src, b));
    }
  }

  method StoreMasked(buf: Ptr, y: seq<byte>, iv: array<byte>, b: nat)
    requires 0 < b == |y| && buf.at + b <= buf.buf.Length && iv != buf.buf && iv.Length == b
    modifies buf.buf
    ensures buf.buf[..] == Put(old(buf.buf[..]), buf.at, Xor(y, iv[..])) && Load(buf, b) == Xor(y, iv[..])
  {
    ghost var m := buf.buf[..];
    assert iv[0..b] == iv[..];
    Store(buf, y);
    XorBlock(buf, Ptr(iv, 0), b);
    PutTwice(m, buf.at, y, Xor(y, iv[..]));
  }

  /** cbc_process, the decrypting half: in place it works in a block on the stack. */
  method CbcDecryptBlock(dst: Ptr, src: Ptr, fn: BlockFn, iv: array<byte>, b: nat, inPlace: bool)
    requires 0 < b && Sized(fn, b) && dst.at + b <= dst.buf.Length && src.at + b <= src.buf.Length
    requires iv != dst.buf && iv != src.buf && iv.Length == b
    requires if inPlace then dst == src else Apart(dst, src, b)
    modifies dst.buf, iv
    ensures dst.buf[..] == Put(old(dst.buf[..]), dst.at, Xor(fn(old(Load(src, b))), old(iv[..])))
    ensures iv[..] == old(Load(src, b))
  {
    var stack := new byte[if inPlace then b else 0];
    var buf := if inPlace then Ptr(stack, 0) else dst;
    Unmask(buf, src, fn, iv, b);
    CopyBlock(Ptr(iv, 0), src, b);
    if buf != dst {
      CopyBlock(dst, buf, b);
    }
  }

  function Bytes(iv: array?<byte>): seq<byte>
    reads iv
  {
    if iv == null then [] else iv[..]
  }

  /** CBC without an IV is "null encryption": the block function is not called at all. */
  predicate Active(mode: Mode, iv: array?<byte>) {
    mode == Ecb || iv != null
  }

  /** prfn: one block of the mode, from where `src` points to where `dst` points. */
  method ProcessBlock(mode: Mode, dst: Ptr, src: Ptr, fn: BlockFn, iv: array?<byte>, b: nat, inPlace: bool)
    returns (ghost o: seq<byte>)
    requires 0 < b && Sized(fn, b) && dst.at + b <= dst.buf.Length && src.at + b <= src.buf.Length
    requires iv != null ==> iv != dst.buf && iv != src.buf && iv.Length == b
    requires if inPlace then dst == src else Apart(dst, src, b)
    modifies dst.buf, iv
    ensures |o| == b && dst.buf[..] == Put(old(dst.buf[..]), dst.at, o)
    ensures Active(mode, iv) ==> o == Out(mode, fn, old(Bytes(iv)), old(Load(src, b)))
    ensures Active(mode, iv) ==> Bytes(iv) == NextIv(mode, fn, old(Bytes(iv)), old(Load(src, b)))
  {
    ghost var x := Load(src, b);
    if mode == Ecb {
      EcbProcess(dst, src, fn, b);
      o := fn(x);
    } else if iv == null {
      o := Load(dst, b);
      assert dst.buf[..] == Put(dst.buf[..], dst.at, o);
    } else if mode == CbcEncrypt {
      CbcEncryptBlock(dst, src, fn, iv, b);
      o := iv[..];
    } else {
      o := Xor(fn(x), iv[..]);
      CbcDecryptBlock(dst, src, fn, iv, b, inPlace);
    }
  }

  /** scatterwalk_copychunks: nothing to copy when the block is processed where it lies. */
  method CopyChunks(walk: ScatterWalk, p: Ptr, mem: array<byte>, b: nat, out: bool)
    requires walk.Mapped() && 0 < b <= |walk.Ahead()| && Within(walk.Ahead(), mem.Length)
    requires (p == Ptr(mem, walk.data) && b <= walk.lenThisPage) || (p.buf != mem && p.at == 0 && p.buf.Length == b)
    modifies walk, p.buf, mem
    ensures walk.Valid() && walk.Ahead() == old(walk.Ahead()[b..])
    ensures p.at + b <= p.buf.Length
    ensures !out ==> mem[..] == old(mem[..]) && Load(p, b) == Gather(mem[..], old(walk.Ahead()[..b]))
    ensures out && p.buf == mem ==> mem[..] == old(mem[..])
    ensures out && p.buf != mem ==> mem[..] == Scatter(old(mem[..]), old(walk.Ahead()[..b]), Load(p, b))
    ensures out && p.buf != mem ==> Load(p, b) == old(p.buf[..])
  {
    if p != Ptr(mem, walk.data) {
      assert p.buf[..b] == p.buf[..] == Load(p, b);
      if out {
        walk.CopyOut(p.buf, mem, b);
      } else {
        walk.CopyIn(p.buf, mem, b);
      }
      assert p.buf[..b] == p.buf[..] == Load(p, b);
    } else {
      DirectBlock(walk, mem, b);
      walk.Advance(b);
    }
  }

  /** A block inside the current page is contiguous in memory. */
  lemma DirectBlock(walk: ScatterWalk, mem: array<byte>, b: nat)
    requires walk.Mapped() && 0 < b <= walk.lenThisPage && Within(walk.Ahead(), mem.Length)
    ensures b <= |walk.Ahead()| && walk.Ahead()[..b] == Span(walk.data, b) && walk.data + b <= mem.Length
    ensures mem[walk.data..walk.data + b] == Gather(mem[..], walk.Ahead()[..b])
  {
    walk.AheadFront(b);
    ContiguousBlock(walk.Ahead(), walk.data, mem[..], b);
    assert mem[walk.data..walk.data + b] == mem[..][walk.data..walk.data + b];
  }

  lemma ContiguousBlock(a: seq<nat>, data: nat, m: seq<byte>, b: nat)
    requires 0 < b <= |a| && a[..b] == Span(data, b) && Within(a, |m|)
    ensures data + b <= |m| && m[data..data + b] == Gather(m, a[..b])
  {
    assert a[b - 1] == a[..b][b - 1];
    GatherSpan(m, data, b);
  }

  /** Both lists start their segments in their first pages, so that page and offset name an address. */
  ghost predicate Named(walkIn: ScatterWalk, walkOut: ScatterWalk) {
    FirstPages(walkIn.ps, walkIn.list) && FirstPages(walkOut.ps, walkOut.list)
  }

  /** No byte of the block is read and written at one address. */
  ghost predicate Elsewhere(a: seq<nat>, c: seq<nat>, b: nat) {
    forall k :: 0 <= k < b && k < |a| && k < |c| ==> a[k] != c[k]
  }

  /** scatterwalk_samebuf */
  predicate SameBuf(walkIn: ScatterWalk, walkOut: ScatterWalk, src: Ptr, dst: Ptr, mem: array<byte>)
    reads walkIn, walkOut
  {
    && walkIn.page == walkOut.page && walkIn.offset == walkOut.offset
    && src == Ptr(mem, walkIn.data) && dst == Ptr(mem, walkOut.data)
  }

  /** No destination byte of the block lies on another source byte of the block. */
  ghost predicate NoClash(a: seq<nat>, c: seq<nat>, b: nat)
    requires b <= |a| && b <= |c|
  {
    forall i, j :: 0 <= i < b && 0 <= j < b && a[i] == c[j] ==> i == j
  }

  /** What the driver chose for one block, seen from the mode. */
  ghost predicate Chosen(walk: ScatterWalk, p: Ptr, mem: array<byte>, tmp: array<byte>, b: nat)
    reads walk
  {
    p == Ptr(tmp, 0) || (p == Ptr(mem, walk.data) && b <= walk.lenThisPage)
  }

  /** The samebuf test decides exactly whether the two blocks coincide; otherwise they are apart. */
  lemma InPlaceOrApart(walkIn: ScatterWalk, walkOut: ScatterWalk, src: Ptr, dst: Ptr, mem: array<byte>,
                       tmpSrc: array<byte>, tmpDst: array<byte>, b: nat)
    requires walkIn.Mapped() && walkOut.Mapped() && walkIn.ps == walkOut.ps
    requires Named(walkIn, walkOut) || Elsewhere(walkIn.Ahead(), walkOut.Ahead(), b)
    requires Chosen(walkIn, src, mem, tmpSrc, b) && Chosen(walkOut, dst, mem, tmpDst, b)
    requires mem != tmpSrc && mem != tmpDst && tmpSrc != tmpDst
    requires 0 < b <= |walkIn.Ahead()| && b <= |walkOut.Ahead()|
    requires NoClash(walkIn.Ahead(), walkOut.Ahead(), b)
    ensures if SameBuf(walkIn, walkOut, src, dst, mem) then dst == src else Apart(dst, src, b)
  {
    if src.buf == mem && dst.buf == mem {
      if Named(walkIn, walkOut) {
        SamePage(walkIn.ps, walkIn.page, walkOut.page, walkIn.offset, walkOut.offset);
      }
      walkIn.AheadFront(b);
      walkOut.AheadFront(b);
      SpansMeet(walkIn.data, walkOut.data, b, walkIn.Ahead(), walkOut.Ahead());
    }
  }

  lemma SpansMeet(x: nat, y: nat, b: nat, a: seq<nat>, c: seq<nat>)
    requires 0 < b <= |a| && b <= |c| && a[..b] == Span(x, b) && c[..b] == Span(y, b)
    requires NoClash(a, c, b)
    ensures (x == y && a[0] == c[0]) || x + b <= y || y + b <= x
  {
    assert a[0] == a[..b][0] && c[0] == c[..b][0];
    if x <= y < x + b {
      assert a[y - x] == a[..b][y - x];
    }
    if y <= x < y + b {
      assert c[x - y] == c[..b][x - y];
    }
  }

  ghost predicate Separate(mem: array<byte>, tmpSrc: array<byte>, tmpDst: array<byte>, iv: array?<byte>, b: nat) {
    && mem != tmpSrc && mem != tmpDst && tmpSrc != tmpDst && tmpSrc.Length == b && tmpDst.Length == b
    && (iv != null ==> iv != mem && iv != tmpSrc && iv != tmpDst && iv.Length == b)
  }

  /** Where the next block is read and written, and whether that is one and the same place. */
  method Choose(b: nat, walkIn: ScatterWalk, walkOut: ScatterWalk, mem: array<byte>, tmpSrc: array<byte>, tmpDst: array<byte>)
    returns (src: Ptr, dst: Ptr, inPlace: bool)
    requires 0 < b && Separate(mem, tmpSrc, tmpDst, null, b)
    requires walkIn != walkOut && walkIn.Valid() && walkOut.Valid() && walkIn.ps == walkOut.ps
    requires Named(walkIn, walkOut) || Elsewhere(walkIn.Ahead(), walkOut.Ahead(), b)
    requires b <= |walkIn.Ahead()| && b <= |walkOut.Ahead()| && NoClash(walkIn.Ahead(), walkOut.Ahead(), b)
    modifies walkIn`data, walkOut`data
    ensures walkIn.Mapped() && walkIn.Ahead() == old(walkIn.Ahead()) && Chosen(walkIn, src, mem, tmpSrc, b)
    ensures walkOut.Mapped() && walkOut.Ahead() == old(walkOut.Ahead()) && Chosen(walkOut, dst, mem, tmpDst, b)
    ensures if inPlace then dst == src else Apart(dst, src, b)
  {
    walkIn.Map();
    walkOut.Map();
    src := walkIn.WhichBuf(mem, b, tmpSrc);
    dst := walkOut.WhichBuf(mem, b, tmpDst);
    inPlace := SameBuf(walkIn, walkOut, src, dst, mem);
    InPlaceOrApart(walkIn, walkOut, src, dst, mem, tmpSrc, tmpDst, b);
  }

  /** Fetch the source block and run the mode on it. */
  method Transform(mode: Mode, fn: BlockFn, b: nat, walk: ScatterWalk, src: Ptr, dst: Ptr, mem: array<byte>,
                   tmpSrc: array<byte>, tmpDst: array<byte>, iv: array?<byte>, inPlace: bool, more: bool)
    returns (ghost o: seq<byte>)
    requires 0 < b && Sized(fn, b) && Separate(mem, tmpSrc, tmpDst, iv, b)
    requires walk.Mapped() && Within(walk.Ahead(), mem.Length) && b <= |walk.Ahead()| && (more ==> b < |walk.Ahead()|)
    requires Chosen(walk, src, mem, tmpSrc, b) && (dst == Ptr(tmpDst, 0) || (dst.buf == mem && dst.at + b <= mem.Length))
    requires if inPlace then dst == src else Apart(dst, src, b)
    modifies walk, mem, tmpSrc, tmpDst, iv
    ensures walk.Valid() && walk.Ahead() == old(walk.Ahead()[b..]) && |o| == b
    ensures dst.buf == mem ==> mem[..] == Put(old(mem[..]), dst.at, o)
    ensures dst.buf != mem ==> mem[..] == old(mem[..]) && tmpDst[..] == o
    ensures Active(mode, iv) ==>
      o == Out(mode, fn, old(Bytes(iv)), Gather(old(mem[..]), old(walk.Ahead()[..b])))
    ensures Active(mode, iv) ==>
      Bytes(iv) == NextIv(mode, fn, old(Bytes(iv)), Gather(old(mem[..]), old(walk.Ahead()[..b])))
  {
    CopyChunks(walk, src, mem, b, false);
    o := ProcessBlock(mode, dst, src, fn, iv, b, inPlace);
    walk.Done(more);
    assert dst.buf != mem ==> tmpDst[..] == o;
  }

  /** The loop body of `crypt`: one block of the mode from the next source addresses to the next
      destination addresses, whatever mixture of direct and scratch blocks it takes. */
  method CryptBlock(mode: Mode, fn: BlockFn, b: nat, walkIn: ScatterWalk, walkOut: ScatterWalk, mem: array<byte>,
                    tmpSrc: array<byte>, tmpDst: array<byte>, iv: array?<byte>, more: bool)
    returns (ghost o: seq<byte>)
    requires 0 < b && Sized(fn, b) && Separate(mem, tmpSrc, tmpDst, iv, b)
    requires walkIn != walkOut && walkIn.Valid() && walkOut.Valid() && walkIn.ps == walkOut.ps
    requires Named(walkIn, walkOut) || Elsewhere(walkIn.Ahead(), walkOut.Ahead(), b)
    requires Within(walkIn.Ahead(), mem.Length) && Within(walkOut.Ahead(), mem.Length)
    requires b <= |walkIn.Ahead()| && b <= |walkOut.Ahead()|
    requires more ==> b < |walkIn.Ahead()| && b < |walkOut.Ahead()|
    requires NoClash(walkIn.Ahead(), walkOut.Ahead(), b)
    modifies walkIn, walkOut, mem, tmpSrc, tmpDst, iv
    ensures walkIn.Valid() && walkIn.Ahead() == old(walkIn.Ahead()[b..])
    ensures walkOut.Valid() && walkOut.Ahead() == old(walkOut.Ahead()[b..])
    ensures |o| == b && mem[..] == Scatter(old(mem[..]), old(walkOut.Ahead()[..b]), o)
    ensures Active(mode, iv) ==>
      o == Out(mode, fn, old(Bytes(iv)), Gather(old(mem[..]), old(walkIn.Ahead()[..b])))
    ensures Active(mode, iv) ==>
      Bytes(iv) == NextIv(mode, fn, old(Bytes(iv)), Gather(old(mem[..]), old(walkIn.Ahead()[..b])))
  {
    var src, dst, inPlace := Choose(b, walkIn, walkOut, mem, tmpSrc, tmpDst);
    o := RunBlock(mode, fn, b, walkIn, walkOut, src, dst, mem, tmpSrc, tmpDst, iv, inPlace, more);
  }

  /** The block through the mode and to its addresses. */
  method RunBlock(mode: Mode, fn: BlockFn, b: nat, walkIn: ScatterWalk, walkOut: ScatterWalk, src: Ptr, dst: Ptr, mem: array<byte>,
                  tmpSrc: array<byte>, tmpDst: array<byte>, iv: array?<byte>, inPlace: bool, more: bool)
    returns (ghost o: seq<byte>)
    requires 0 < b && Sized(fn, b) && Separate(mem, tmpSrc, tmpDst, iv, b)
    requires walkIn != walkOut && walkIn.Mapped() && walkOut.Mapped()
    requires Within(walkIn.Ahead(), mem.Length) && Within(walkOut.Ahead(), mem.Length)
    requires b <= |walkIn.Ahead()| && b <= |walkOut.Ahead()|
    requires more ==> b < |walkIn.Ahead()| && b < |walkOut.Ahead()|
    requires Chosen(walkIn, src, mem, tmpSrc, b) && Chosen(walkOut, dst, mem, tmpDst, b)
    requires if inPlace then dst == src else Apart(dst, src, b)
    modifies walkIn, walkOut, mem, tmpSrc, tmpDst, iv
    ensures walkIn.Valid() && walkIn.Ahead() == old(walkIn.Ahead()[b..])
    ensures walkOut.Valid() && walkOut.Ahead() == old(walkOut.Ahead()[b..])
    ensures |o| == b && mem[..] == Scatter(old(mem[..]), old(walkOut.Ahead()[..b]), o)
    ensures Active(mode, iv) ==>
      o == Out(mode, fn, old(Bytes(iv)), Gather(old(mem[..]), old(walkIn.Ahead()[..b])))
    ensures Active(mode, iv) ==>
      Bytes(iv) == NextIv(mode, fn, old(Bytes(iv)), Gather(old(mem[..]), old(walkIn.Ahead()[..b])))
  {
    ghost var m := mem[..];
    if dst.buf == mem {
      DirectBlock(walkOut, mem, b);
    }
    o := Transform(mode, fn, b, walkIn, src, dst, mem, tmpSrc, tmpDst, iv, inPlace, more);
    WriteBack(walkOut, dst, mem, tmpDst, m, o, b, more);
  }

  method WriteBack(walk: ScatterWalk, dst: Ptr, mem: array<byte>, tmp: array<byte>, ghost m: seq<byte>, ghost o: seq<byte>,
                   b: nat, more: bool)
    requires walk.Mapped() && b <= |walk.Ahead()| && Within(walk.Ahead(), mem.Length)
    requires more ==> b < |walk.Ahead()|
    requires Chosen(walk, dst, mem, tmp, b) && tmp != mem && |o| == b > 0 && tmp.Length == b && |m| == mem.Length
    requires dst.buf == mem ==> walk.data + b <= |m| && mem[..] == Put(m, walk.data, o)
    requires dst.buf != mem ==> mem[..] == m && tmp[..] == o
    modifies walk, mem, tmp
    ensures walk.Valid() && walk.Ahead() == old(walk.Ahead()[b..])
    ensures mem[..] == Scatter(m, old(walk.Ahead()[..b]), o)
  {
    if dst.buf == mem {
      DirectBlock(walk, mem, b);
      ScatterSpan(m, walk.data, o);
    }
    CopyChunks(walk, dst, mem, b, true);
    walk.Done(more);
  }

  /** A destination byte may only lie on a source byte of an earlier block, or on its own. */
  ghost predicate Safe(ia: seq<nat>, oa: seq<nat>, b: nat, n: nat)
    requires 0 < b && n <= |ia| && n <= |oa|
  {
    forall i, j :: 0 <= i < n && 0 <= j < n && ia[i] == oa[j] ==> i == j || i / b < j / b
  }

  lemma BlockNumber(b: nat, k: nat, i: nat)
    requires 0 < b && k % b == 0
    ensures i < k ==> i / b < k / b
    ensures k <= i ==> k / b <= i / b
    ensures k <= i < k + b ==> i / b == k / b
  {
    var q, r := k / b, i / b;
    assert k == Base(b, q) && i == Base(b, r) + i % b;
    if r < q {
      PageOrder(b, r, q);
    } else if q < r {
      PageOrder(b, q, r);
    }
  }

  /** The source bytes of the next block have not been written yet. */
  lemma NextUntouched(ia: seq<nat>, oa: seq<nat>, b: nat, n: nat, done: nat)
    requires 0 < b && n <= |ia| && n <= |oa| && Safe(ia, oa, b, n) && done + b <= n && done % b == 0
    ensures forall i :: 0 <= i < b ==> ia[done..][..b][i] !in oa[..done]
    ensures NoClash(ia[done..], oa[done..], b)
  {
    forall i | 0 <= i < b ensures ia[done..][..b][i] !in oa[..done] {
      BlockNumber(b, done, done + i);
      assert ia[done..][..b][i] == ia[done + i];
      if ia[done + i] in oa[..done] {
        var j :| 0 <= j < done && oa[j] == ia[done + i];
        BlockNumber(b, done, j);
        assert false;
      }
    }
    forall i, j | 0 <= i < b && 0 <= j < b && ia[done..][i] == oa[done..][j] ensures i == j {
      BlockNumber(b, done, done + i);
      BlockNumber(b, done, done + j);
      assert ia[done + i] == oa[done + j];
    }
  }

  /** The memory after `done` bytes: the output so far at the first destination addresses. */
  ghost predicate Written(m: seq<byte>, m0: seq<byte>, oa: seq<nat>, outs: seq<byte>) {
    Within(oa, |m0|) && |outs| <= |oa| && m == Scatter(m0, oa[..|outs|], outs)
  }

  lemma WrittenStep(m: seq<byte>, m0: seq<byte>, oa: seq<nat>, outs: seq<byte>, o: seq<byte>)
    requires Written(m, m0, oa, outs) && |outs| + |o| <= |oa|
    ensures Within(oa[|outs|..][..|o|], |m|)
    ensures Written(Scatter(m, oa[|outs|..][..|o|], o), m0, oa, outs + o)
  {
    var a1, a2 := oa[..|outs|], oa[|outs|..][..|o|];
    Within2(oa, |outs|, |m0|);
    Within2(oa[|outs|..], |o|, |m0|);
    TakeTake(oa, |outs|, |o|);
    assert oa[..|outs + o|] == a1 + a2;
    ScatterAppend(m0, a1, outs, a2, o);
  }

  /** The next block reads the original source bytes. */
  lemma ReadsOriginal(m: seq<byte>, m0: seq<byte>, ia: seq<nat>, oa: seq<nat>, outs: seq<byte>, b: nat, n: nat)
    requires Written(m, m0, oa, outs) && Within(ia, |m0|)
    requires 0 < b && n <= |ia| && n <= |oa| && Safe(ia, oa, b, n) && |outs| + b <= n && |outs| % b == 0
    ensures Within(ia[|outs|..][..b], |m0|) && |m| == |m0|
    ensures Gather(m, ia[|outs|..][..b]) == Gather(m0, ia[|outs|..][..b])
  {
    Within2(oa, |outs|, |m0|);
    Within2(ia, |outs|, |m0|);
    Within2(ia[|outs|..], b, |m0|);
    NextUntouched(ia, oa, b, n, |outs|);
    GatherFrame(m0, oa[..|outs|], outs, ia[|outs|..][..b]);
  }

  /** The output and the IV so far are those of the flat mode on the source bytes so far. */
  ghost predicate Produced(mode: Mode, fn: BlockFn, b: nat, iv0: seq<byte>, m0: seq<byte>, ia: seq<nat>,
                           outs: seq<byte>, iv: seq<byte>)
  {
    && Ready(mode, fn, b, iv0) && Within(ia, |m0|) && |outs| <= |ia| && |outs| % b == 0
    && outs == Process(mode, fn, b, iv0, Gather(m0, ia[..|outs|]))
    && iv == EndIv(mode, fn, b, iv0, Gather(m0, ia[..|outs|]))
  }

  lemma ProducedStep(mode: Mode, fn: BlockFn, b: nat, iv0: seq<byte>, m0: seq<byte>, ia: seq<nat>,
                     outs: seq<byte>, iv: seq<byte>)
    requires Produced(mode, fn, b, iv0, m0, ia, outs, iv) && |outs| + b <= |ia|
    ensures Within(ia[|outs|..][..b], |m0|)
    ensures
      var x := Gather(m0, ia[|outs|..][..b]);
      Ready(mode, fn, b, iv) &&
      Produced(mode, fn, b, iv0, m0, ia, outs + Out(mode, fn, iv, x), NextIv(mode, fn, iv, x))
  {
    var done := |outs|;
    var a1, a2 := ia[..done], ia[done..][..b];
    var t, x := Gather(m0, a1), Gather(m0, a2);
    TakeTake(ia, done, b);
    GatherAppend(m0, a1, a2);
    OneMore(done, b);
    NextValues(mode, fn, b, iv0, t, x, outs, iv);
  }

  lemma GatherAppend(m: seq<byte>, a1: seq<nat>, a2: seq<nat>)
    requires Within(a1, |m|) && Within(a2, |m|)
    ensures Within(a1 + a2, |m|) && Gather(m, a1 + a2) == Gather(m, a1) + Gather(m, a2)
  {
  }

  lemma NextValues(mode: Mode, fn: BlockFn, b: nat, iv0: seq<byte>, t: seq<byte>, x: seq<byte>, outs: seq<byte>, iv: seq<byte>)
    requires Ready(mode, fn, b, iv0) && |t| % b == 0 && |x| == b
    requires outs == Process(mode, fn, b, iv0, t) && iv == EndIv(mode, fn, b, iv0, t)
    ensures Ready(mode, fn, b, iv) && |Out(mode, fn, iv, x)| == b
    ensures outs + Out(mode, fn, iv, x) == Process(mode, fn, b, iv0, t + x)
    ensures NextIv(mode, fn, iv, x) == EndIv(mode, fn, b, iv0, t + x)
  {
    ProcessAppend(mode, fn, b, iv0, t, x);
    OneBlock(mode, fn, b, iv, x);
  }

  lemma OneMore(n: nat, b: nat)
    requires 0 < b && n % b == 0
    ensures (n + b) % b == 0
  {
    var q := n / b;
    assert n + b == Base(b, q) + b;
    NextPage(b, q);
    Remainder(b, q + 1, 0);
  }

  lemma OneBlock(mode: Mode, fn: BlockFn, b: nat, iv: seq<byte>, x: seq<byte>)
    requires Ready(mode, fn, b, iv) && |x| == b
    ensures Process(mode, fn, b, iv, x) == Out(mode, fn, iv, x) && EndIv(mode, fn, b, iv, x) == NextIv(mode, fn, iv, x)
    ensures |Out(mode, fn, iv, x)| == b
  {
    assert x[..b] == x && x[b..] == [];
  }

  ghost predicate Underway(walkIn: ScatterWalk, walkOut: ScatterWalk, m: seq<byte>, left: nat, n: nat, b: nat,
                           ia: seq<nat>, oa: seq<nat>, m0: seq<byte>, outs: seq<byte>)
    requires 0 < b
    reads walkIn, walkOut
  {
    && walkIn.Valid() && walkOut.Valid() && walkIn.ps == walkOut.ps && (Named(walkIn, walkOut) || Elsewhere(ia, oa, n))
    && |outs| + left == n && left % b == 0 && |outs| % b == 0 && n <= |ia| && n <= |oa|
    && walkIn.Ahead() == ia[|outs|..] && walkOut.Ahead() == oa[|outs|..]
    && Written(m, m0, oa, outs)
  }

  lemma Begin(mode: Mode, fn: BlockFn, b: nat, iv0: seq<byte>, m0: seq<byte>, ia: seq<nat>, oa: seq<nat>, iv: array?<byte>)
    requires 0 < b && Sized(fn, b) && Within(ia, |m0|) && Within(oa, |m0|)
    requires Bytes(iv) == iv0 && (iv != null ==> iv.Length == b)
    ensures Written(m0, m0, oa, [])
    ensures Active(mode, iv) ==> Produced(mode, fn, b, iv0, m0, ia, [], iv0)
  {
    assert oa[..0] == [];
    assert ia[..0] == [];
    Remainder(b, 0, 0);
  }

  method CryptNext(mode: Mode, fn: BlockFn, b: nat, walkIn: ScatterWalk, walkOut: ScatterWalk, mem: array<byte>,
                   tmpSrc: array<byte>, tmpDst: array<byte>, iv: array?<byte>, left: nat,
                   ghost n: nat, ghost ia: seq<nat>, ghost oa: seq<nat>, ghost m0: seq<byte>, ghost iv0: seq<byte>,
                   ghost outs: seq<byte>)
    returns (left': nat, ghost outs': seq<byte>)
    requires 0 < b && Sized(fn, b) && Separate(mem, tmpSrc, tmpDst, iv, b) && walkIn != walkOut
    requires Underway(walkIn, walkOut, mem[..], left, n, b, ia, oa, m0, outs) && 0 < left
    requires Within(ia, |m0|) && Safe(ia, oa, b, n)
    requires Active(mode, iv) ==> Produced(mode, fn, b, iv0, m0, ia, outs, Bytes(iv))
    modifies walkIn, walkOut, mem, tmpSrc, tmpDst, iv
    ensures left' < left && Underway(walkIn, walkOut, mem[..], left', n, b, ia, oa, m0, outs')
    ensures Active(mode, iv) ==> Produced(mode, fn, b, iv0, m0, ia, outs', Bytes(iv))
  {
    ghost var done, m, v := |outs|, mem[..], Bytes(iv);
    LessOneBlock(left, b);
    NextUntouched(ia, oa, b, n, done);
    ReadsOriginal(m, m0, ia, oa, outs, b, n);
    Within2(ia, done, |m0|);
    Within2(oa, done, |m0|);
    if Elsewhere(ia, oa, n) {
      ElsewhereNext(ia, oa, n, done, b);
    }
    left' := left - b;
    ghost var o := CryptBlock(mode, fn, b, walkIn, walkOut, mem, tmpSrc, tmpDst, iv, left' != 0);
    outs' := outs + o;
    DropDrop(ia, done, b);
    DropDrop(oa, done, b);
    OneMore(done, b);
    WrittenStep(m, m0, oa, outs, o);
    if Active(mode, iv) {
      ProducedStep(mode, fn, b, iv0, m0, ia, outs, v);
    }
  }

  lemma ElsewhereNext(ia: seq<nat>, oa: seq<nat>, n: nat, done: nat, b: nat)
    requires Elsewhere(ia, oa, n) && done + b <= n <= |ia| && n <= |oa|
    ensures Elsewhere(ia[done..], oa[done..], b)
  {
  }

  /** crypt: the mode's output on the concatenated source bytes goes to the destination addresses,
      every other byte of memory keeps its value, and the IV ends where the flat mode leaves it. */
  method Crypt(mode: Mode, fn: BlockFn, b: nat, ps: nat, dst: seq<Segment>, src: seq<Segment>, mem: array<byte>,
               nbytes: nat, iv: array?<byte>) returns (err: int)
    requires 0 < b && Sized(fn, b) && ListOk(ps, dst) && ListOk(ps, src)
    requires (FirstPages(ps, dst) && FirstPages(ps, src)) || Elsewhere(Addrs(ps, src), Addrs(ps, dst), nbytes)
    requires Within(Addrs(ps, src), mem.Length) && Within(Addrs(ps, dst), mem.Length)
    requires nbytes <= |Addrs(ps, src)| && nbytes <= |Addrs(ps, dst)|
    requires Safe(Addrs(ps, src), Addrs(ps, dst), b, nbytes)
    requires iv != null ==> iv != mem && iv.Length == b
    modifies mem, iv
    ensures err == if nbytes % b != 0 then -EINVAL else 0
    ensures err != 0 ==> mem[..] == old(mem[..]) && Bytes(iv) == old(Bytes(iv))
    ensures err == 0 && Active(mode, iv) ==>
      var x := Gather(old(mem[..]), Addrs(ps, src)[..nbytes]);
      Ready(mode, fn, b, old(Bytes(iv))) && |Process(mode, fn, b, old(Bytes(iv)), x)| == nbytes &&
      mem[..] == Scatter(old(mem[..]), Addrs(ps, dst)[..nbytes], Process(mode, fn, b, old(Bytes(iv)), x)) &&
      Bytes(iv) == EndIv(mode, fn, b, old(Bytes(iv)), x)
    ensures err == 0 && Active(mode, iv) ==>
      var x := Gather(old(mem[..]), Addrs(ps, src)[..nbytes]);
      exists y: seq<byte> {:trigger Blockwise(mode, fn, b, old(Bytes(iv)), x, y)} ::
        Blockwise(mode, fn, b, old(Bytes(iv)), x, y) && mem[..] == Scatter(old(mem[..]), Addrs(ps, dst)[..nbytes], y)
    ensures err == 0 ==> exists o: seq<byte> {:trigger Scatter(old(mem[..]), Addrs(ps, dst)[..nbytes], o)} ::
      |o| == nbytes && mem[..] == Scatter(old(mem[..]), Addrs(ps, dst)[..nbytes], o)
  {
    ghost var ia, oa, m0, iv0 := Addrs(ps, src), Addrs(ps, dst), mem[..], Bytes(iv);
    if nbytes % b != 0 {
      return -EINVAL;
    }
    var tmpSrc, tmpDst := new byte[b], new byte[b];
    ghost var outs: seq<byte> := [];
    if nbytes != 0 {
      var walkIn := new ScatterWalk(ps, src);
      var walkOut := new ScatterWalk(ps, dst);
      var left := nbytes;
      assert ia[0..] == ia && oa[0..] == oa;
      Begin(mode, fn, b, iv0, m0, ia, oa, iv);
      while left != 0
        invariant Underway(walkIn, walkOut, mem[..], left, nbytes, b, ia, oa, m0, outs)
        invariant Active(mode, iv) ==> Produced(mode, fn, b, iv0, m0, ia, outs, Bytes(iv))
        decreases left
      {
        left, outs := CryptNext(mode, fn, b, walkIn, walkOut, mem, tmpSrc, tmpDst, iv, left, nbytes, ia, oa, m0, iv0, outs);
      }
    } else {
      Begin(mode, fn, b, iv0, m0, ia, oa, iv);
    }
    assert oa[..|outs|] == oa[..nbytes];
    if Active(mode, iv) {
      ProcessBlockwise(mode, fn, b, iv0, Gather(m0, ia[..nbytes]));
    }
    err := 0;
  }

  // ---------------------------------------------------------------- what callers get from Crypt

  /** One list for source and destination is safe when no address occurs twice in it. */
  lemma SafeInPlace(a: seq<nat>, b: nat, n: nat)
    requires 0 < b && n <= |a| && NoDup(a[..n])
    ensures Safe(a, a, b, n)
  {
    forall i, j | 0 <= i < n && 0 <= j < n && a[i] == a[j] ensures i == j {
      assert a[..n][i] == a[..n][j];
    }
  }

  lemma SafeDisjoint(a: seq<nat>, c: seq<nat>, b: nat, n: nat)
    requires 0 < b && n <= |a| && n <= |c| && forall x :: x in a[..n] ==> x !in c[..n]
    ensures Safe(a, c, b, n)
  {
    forall i, j | 0 <= i < n && 0 <= j < n ensures a[i] != c[j] {
      assert a[..n][i] in a[..n];
      assert c[..n][j] in c[..n];
    }
  }

  /** The destination bytes afterwards, and all others. */
  lemma CryptEffect(m: seq<byte>, oa: seq<nat>, o: seq<byte>)
    requires Within(oa, |m|) && |o| == |oa|
    ensures NoDup(oa) ==> Gather(Scatter(m, oa, o), oa) == o
    ensures forall x :: 0 <= x < |m| && x !in oa ==> Scatter(m, oa, o)[x] == m[x]
  {
    if NoDup(oa) {
      GatherScatter(m, oa, o);
    }
    var r := Scatter(m, oa, o);
    forall x | 0 <= x < |m| && x !in oa ensures r[x] == m[x] {
      ScatterFrame(m, oa, o, x);
    }
  }

  /** Encrypting into a list and decrypting what lies at the same addresses restores the message,
      however the two calls fragment those addresses and wherever the result goes. */
  lemma MemoryRoundTrip(enc: BlockFn, dec: BlockFn, b: nat, iv: seq<byte>, m0: seq<byte>,
                        plain: seq<nat>, cipher: seq<nat>, back: seq<nat>)
    requires Ready(CbcEncrypt, enc, b, iv) && Sized(dec, b) && Inverts(dec, enc, b)
    requires Within(plain, |m0|) && Within(cipher, |m0|) && Within(back, |m0|)
    requires |plain| == |cipher| == |back| && |plain| % b == 0 && NoDup(cipher) && NoDup(back)
    ensures
      var x := Gather(m0, plain);
      var y := Process(CbcEncrypt, enc, b, iv, x);
      |y| == |cipher| &&
      var m1 := Scatter(m0, cipher, y);
      var z := Process(CbcDecrypt, dec, b, iv, Gather(m1, cipher));
      |z| == |back| && Gather(Scatter(m1, back, z), back) == x
  {
    var x := Gather(m0, plain);
    var y := Process(CbcEncrypt, enc, b, iv, x);
    ProcessLength(CbcEncrypt, enc, b, iv, x);
    GatherScatter(m0, cipher, y);
    CbcRestores(enc, dec, b, iv, x);
    GatherScatter(Scatter(m0, cipher, y), back, x);
  }

  /** Two runs of addresses processed one after the other, the second with the IV that the first left. */
  lemma Consecutive(mode: Mode, fn: BlockFn, b: nat, iv: seq<byte>, m0: seq<byte>,
                    i1: seq<nat>, o1: seq<nat>, i2: seq<nat>, o2: seq<nat>, y1: seq<byte>, m1: seq<byte>)
    requires Ready(mode, fn, b, iv) && |i1| == |o1| && |i2| == |o2| && |i1| % b == 0 && |i2| % b == 0
    requires Within(i1, |m0|) && Within(o1, |m0|) && Within(i2, |m0|) && Within(o2, |m0|)
    requires forall k :: 0 <= k < |i2| ==> i2[k] !in o1
    requires y1 == Process(mode, fn, b, iv, Gather(m0, i1)) && |y1| == |o1| && m1 == Scatter(m0, o1, y1)
    ensures Within(i1 + i2, |m0|) && Within(o1 + o2, |m0|)
    ensures
      var iv1 := EndIv(mode, fn, b, iv, Gather(m0, i1));
      var y2 := Process(mode, fn, b, iv1, Gather(m1, i2));
      var y := Process(mode, fn, b, iv, Gather(m0, i1 + i2));
      && Ready(mode, fn, b, iv1) && |y2| == |o2| && |y| == |o1 + o2| && Scatter(m1, o2, y2) == Scatter(m0, o1 + o2, y)
      && EndIv(mode, fn, b, iv1, Gather(m1, i2)) == EndIv(mode, fn, b, iv, Gather(m0, i1 + i2))
  {
    var x1, x2 := Gather(m0, i1), Gather(m0, i2);
    var iv1 := EndIv(mode, fn, b, iv, x1);
    GatherFrame(m0, o1, y1, i2);
    GatherAppend(m0, i1, i2);
    ProcessAppend(mode, fn, b, iv, x1, x2);
    var y2 := Process(mode, fn, b, iv1, x2);
    ProcessLength(mode, fn, b, iv1, x2);
    ScatterAppend(m0, o1, y1, o2, y2);
  }

  /** Two calls in a row, the second with the IV that the first left, do what one call on the concatenated
      addresses would do, however each of them is fragmented. */
  method CryptTwice(mode: Mode, fn: BlockFn, b: nat, ps: nat, mem: array<byte>, iv: array?<byte>,
                    dst1: seq<Segment>, src1: seq<Segment>, n1: nat, dst2: seq<Segment>, src2: seq<Segment>, n2: nat)
    requires 0 < b && Sized(fn, b) && ListOk(ps, dst1) && ListOk(ps, src1) && ListOk(ps, dst2) && ListOk(ps, src2)
    requires (FirstPages(ps, dst1) && FirstPages(ps, src1)) || Elsewhere(Addrs(ps, src1), Addrs(ps, dst1), n1)
    requires (FirstPages(ps, dst2) && FirstPages(ps, src2)) || Elsewhere(Addrs(ps, src2), Addrs(ps, dst2), n2)
    requires Within(Addrs(ps, src1), mem.Length) && Within(Addrs(ps, dst1), mem.Length)
    requires Within(Addrs(ps, src2), mem.Length) && Within(Addrs(ps, dst2), mem.Length)
    requires n1 <= |Addrs(ps, src1)| && n1 <= |Addrs(ps, dst1)| && n2 <= |Addrs(ps, src2)| && n2 <= |Addrs(ps, dst2)|
    requires Safe(Addrs(ps, src1), Addrs(ps, dst1), b, n1) && Safe(Addrs(ps, src2), Addrs(ps, dst2), b, n2)
    requires forall k :: 0 <= k < n2 ==> Addrs(ps, src2)[k] !in Addrs(ps, dst1)[..n1]
    requires Active(mode, iv) && (iv != null ==> iv != mem && iv.Length == b) && n1 % b == 0 && n2 % b == 0
    modifies mem, iv
    ensures
      var ia := Addrs(ps, src1)[..n1] + Addrs(ps, src2)[..n2];
      var oa := Addrs(ps, dst1)[..n1] + Addrs(ps, dst2)[..n2];
      && Within(ia, mem.Length) && Within(oa, mem.Length) && Ready(mode, fn, b, old(Bytes(iv)))
      && var y := Process(mode, fn, b, old(Bytes(iv)), Gather(old(mem[..]), ia));
         && |y| == |oa| && mem[..] == Scatter(old(mem[..]), oa, y)
         && Bytes(iv) == EndIv(mode, fn, b, old(Bytes(iv)), Gather(old(mem[..]), ia))
  {
    ghost var m0, iv0 := mem[..], Bytes(iv);
    ghost var i1, o1 := Addrs(ps, src1)[..n1], Addrs(ps, dst1)[..n1];
    ghost var i2, o2 := Addrs(ps, src2)[..n2], Addrs(ps, dst2)[..n2];
    var err := Crypt(mode, fn, b, ps, dst1, src1, mem, n1, iv);
    ghost var m1 := mem[..];
    Consecutive(mode, fn, b, iv0, m0, i1, o1, i2, o2, Process(mode, fn, b, iv0, Gather(m0, i1)), m1);
    err := Crypt(mode, fn, b, ps, dst2, src2, mem, n2, iv);
  }
}
