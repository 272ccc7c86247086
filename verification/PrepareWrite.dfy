/**
 * Prepare and commit of a buffered write.  A page holds equal-sized blocks, each with a buffer head.
 * The file's bytes under the page are what a read of the page returns: the cached bytes of an
 * uptodate buffer, the bytes on disk of a block that the file owns, zero over a hole.
 */
module PrepareWrite {
  import opened Octets

  const EIO: int := 5

  datatype Buffer = Buffer(mapped: bool, uptodate: bool, isNew: bool, dirty: bool)

  /** What `get_block(create)` answers for a block: an error, an existing block, or a new one. */
  datatype GetBlock = Failed(err: int) | Existing | Allocated

  function Start(bs: nat, i: nat): nat { i * bs }

  lemma StartNext(bs: nat, i: nat)
    ensures Start(bs, i + 1) == Start(bs, i) + bs
  {
  }

  lemma {:induction false} StartOrder(bs: nat, i: nat, j: nat)
    requires i <= j
    ensures Start(bs, i) <= Start(bs, j)
    decreases j - i
  {
    if i < j {
      StartNext(bs, i);
      StartOrder(bs, i + 1, j);
    }
  }

  ghost predicate Same(d: seq<byte>, f: seq<byte>, lo: nat, hi: nat) {
    hi <= |d| && hi <= |f| && forall k :: lo <= k < hi ==> d[k] == f[k]
  }

  /** The bytes the write will not supply are already the file's. */
  ghost predicate Ready(d: seq<byte>, f: seq<byte>, lo: nat, hi: nat, from: nat, to: nat) {
    hi <= |d| && hi <= |f| && forall k :: lo <= k < hi && !(from <= k < to) ==> d[k] == f[k]
  }

  ghost predicate ZeroIn(f: seq<byte>, lo: nat, hi: nat) {
    hi <= |f| && forall k :: lo <= k < hi ==> f[k] == 0
  }

  /** The file after the bytes from `from` on have been replaced. */
  function Updated(f: seq<byte>, from: nat, bytes: seq<byte>): (r: seq<byte>)
    requires from + |bytes| <= |f|
    ensures |r| == |f|
  {
    f[..from] + bytes + f[from + |bytes|..]
  }

  ghost predicate BufOk(bs: nat, d: seq<byte>, bufs: seq<Buffer>, f: seq<byte>, i: nat) {
    i < |bufs| && (bufs[i].uptodate ==> Same(d, f, Start(bs, i), Start(bs, i + 1)))
  }

  /** The cache agrees with the file `f`. */
  ghost predicate Agree(bs: nat, d: seq<byte>, bufs: seq<Buffer>, up: bool, f: seq<byte>) {
    && 0 < bs && |d| == |f| == Start(bs, |bufs|)
    && (forall i: nat {:trigger BufOk(bs, d, bufs, f, i)} :: i < |bufs| ==> BufOk(bs, d, bufs, f, i))
    && (up ==> d == f)
  }

  /** `d` and `e` differ only inside the block `[lo, hi)`. */
  ghost predicate OnlyIn(d: seq<byte>, e: seq<byte>, lo: nat, hi: nat) {
    |d| == |e| && forall k :: 0 <= k < |d| && !(lo <= k < hi) ==> d[k] == e[k]
  }

  lemma BlockWithin(bs: nat, n: nat, i: nat)
    requires i < n
    ensures Start(bs, i + 1) == Start(bs, i) + bs && Start(bs, i + 1) <= Start(bs, n)
  {
    StartNext(bs, i);
    StartOrder(bs, i + 1, n);
  }

  /** Changing one buffer and the bytes of its block keeps the agreement if that buffer is right. */
  lemma AgreeStep(bs: nat, d: seq<byte>, bufs: seq<Buffer>, up: bool, f: seq<byte>, i: nat, e: seq<byte>, b: Buffer)
    requires Agree(bs, d, bufs, up, f) && i < |bufs|
    requires OnlyIn(d, e, Start(bs, i), Start(bs, i + 1))
    requires b.uptodate ==> Same(e, f, Start(bs, i), Start(bs, i + 1))
    requires up ==> e == f
    ensures Agree(bs, e, bufs[i := b], up, f)
  {
    var bufs' := bufs[i := b];
    forall j: nat | j < |bufs| ensures BufOk(bs, e, bufs', f, j) {
      assert BufOk(bs, d, bufs, f, j);
      BlockWithin(bs, |bufs|, j);
      if j < i {
        StartOrder(bs, j + 1, i);
      } else if j > i {
        StartOrder(bs, i + 1, j);
      }
    }
  }

  /** Does block `i` meet the range of the write, as the loops test it? */
  predicate Meets(bs: nat, i: nat, from: nat, to: nat) {
    !(Start(bs, i + 1) <= from) && !(Start(bs, i) >= to)
  }

  /** Is block `i` cut by one of the ends of the write? */
  predicate Cut(bs: nat, i: nat, from: nat, to: nat) {
    Start(bs, i) < from < Start(bs, i + 1) || Start(bs, i) < to < Start(bs, i + 1)
  }

  // ---------------------------------------------------------------- what becomes of the buffers

  /** What the loop makes of a buffer that meets the write. */
  function Prepared(b: Buffer, g: GetBlock, up: bool): Buffer {
    if !b.mapped && g.Failed? then b.(isNew := false)
    else b.(isNew := !b.mapped && g.Allocated?, mapped := true, uptodate := b.uptodate || up)
  }

  /** The loop stops at this block. */
  predicate Fails(bs: nat, b: Buffer, g: GetBlock, i: nat, from: nat, to: nat) {
    Meets(bs, i, from, to) && !b.mapped && g.Failed?
  }

  /** The first block at which the loop stops. */
  ghost predicate StopsAt(bs: nat, bufs: seq<Buffer>, gb: seq<GetBlock>, from: nat, to: nat, i: nat) {
    i < |bufs| && i < |gb| && Fails(bs, bufs[i], gb[i], i, from, to) && Allowed(bs, gb, bufs, from, to, i)
  }

  /** The block has bytes that the write does not supply and only the disk knows. */
  predicate Reads(bs: nat, b: Buffer, g: GetBlock, up: bool, i: nat, from: nat, to: nat) {
    && Meets(bs, i, from, to) && (Start(bs, i) < from || Start(bs, i + 1) > to)
    && !up && !b.uptodate && (b.mapped || g.Existing?)
  }

  /** What the fix-up pass makes of a buffer. */
  function Settled(b: Buffer): Buffer {
    if b.isNew && !b.uptodate then b.(uptodate := true, dirty := true) else b
  }

  /** The loop has come to block `i`. */
  ghost predicate Reached(bs: nat, was: seq<Buffer>, bufs: seq<Buffer>, gb: seq<GetBlock>, up: bool, from: nat, to: nat, i: nat) {
    && |bufs| == |was| == |gb|
    && forall j: nat {:trigger bufs[j]} {:trigger was[j]} :: j < |was| ==>
         bufs[j] == if j < i && Meets(bs, j, from, to) then Prepared(was[j], gb[j], up) else was[j]
  }

  /** The reads queued below block `i` are those that are needed. */
  ghost predicate Needed(bs: nat, was: seq<Buffer>, gb: seq<GetBlock>, up: bool, from: nat, to: nat, wait: seq<nat>, i: nat) {
    && |was| == |gb|
    && forall j: nat {:trigger j in wait} {:trigger was[j]} ::
         j in wait <==> j < i && j < |was| && Reads(bs, was[j], gb[j], up, j, from, to)
  }

  ghost predicate FixedUp(bs: nat, was: seq<Buffer>, bufs: seq<Buffer>, from: nat, to: nat, stop: nat) {
    && |bufs| == |was|
    && forall j: nat {:trigger bufs[j]} {:trigger was[j]} :: j < |was| ==>
         bufs[j] == if j < stop && Meets(bs, j, from, to) then Settled(was[j]) else was[j]
  }

  /** After the failure at `stop`: the blocks before it are prepared and settled, it is only no longer new. */
  ghost predicate Undone(bs: nat, was: seq<Buffer>, bufs: seq<Buffer>, gb: seq<GetBlock>, up: bool, from: nat, to: nat, stop: nat) {
    && |bufs| == |was| == |gb| && StopsAt(bs, was, gb, from, to, stop)
    && forall j: nat {:trigger bufs[j]} {:trigger was[j]} :: j < |was| ==>
         bufs[j] == if j < stop && Meets(bs, j, from, to) then Settled(Prepared(was[j], gb[j], up))
                    else if j == stop then was[j].(isNew := false) else was[j]
  }

  /** After the loop and some of its reads. */
  ghost predicate ReadInto(bs: nat, was: seq<Buffer>, bufs: seq<Buffer>, gb: seq<GetBlock>, up: bool, from: nat, to: nat) {
    && |bufs| == |was| == |gb|
    && forall j: nat {:trigger bufs[j]} {:trigger was[j]} :: j < |was| ==>
         var b := if Meets(bs, j, from, to) then Prepared(was[j], gb[j], up) else was[j];
         bufs[j] == if Reads(bs, was[j], gb[j], up, j, from, to) then b.(uptodate := bufs[j].uptodate) else b
  }

  lemma ReachedNext(bs: nat, was: seq<Buffer>, bufs: seq<Buffer>, gb: seq<GetBlock>, up: bool, from: nat, to: nat,
                    wait: seq<nat>, i: nat, bufs': seq<Buffer>, wait': seq<nat>)
    requires Reached(bs, was, bufs, gb, up, from, to, i) && Needed(bs, was, gb, up, from, to, wait, i) && i < |was|
    requires Meets(bs, i, from, to) && bufs' == bufs[i := Prepared(bufs[i], gb[i], up)]
    requires wait' == if Reads(bs, bufs[i], gb[i], up, i, from, to) then wait + [i] else wait
    ensures Reached(bs, was, bufs', gb, up, from, to, i + 1) && Needed(bs, was, gb, up, from, to, wait', i + 1)
  {
    forall j: nat ensures j in wait' <==> j < i + 1 && j < |was| && Reads(bs, was[j], gb[j], up, j, from, to) {
      assert j in wait' <==> j in wait || (j == i && Reads(bs, was[i], gb[i], up, i, from, to));
    }
  }

  /** Blocks that do not meet the write do not matter. */
  lemma ReachedPast(bs: nat, was: seq<Buffer>, bufs: seq<Buffer>, gb: seq<GetBlock>, up: bool, from: nat, to: nat,
                    wait: seq<nat>, i: nat, n: nat)
    requires Reached(bs, was, bufs, gb, up, from, to, i) && Needed(bs, was, gb, up, from, to, wait, i)
    requires i <= n && forall j: nat :: i <= j < n ==> !Meets(bs, j, from, to)
    ensures Reached(bs, was, bufs, gb, up, from, to, n) && Needed(bs, was, gb, up, from, to, wait, n)
  {
    forall j: nat ensures j in wait <==> j < n && j < |was| && Reads(bs, was[j], gb[j], up, j, from, to) {
    }
  }

  lemma UndoneAt(bs: nat, was: seq<Buffer>, bufs: seq<Buffer>, gb: seq<GetBlock>, up: bool, from: nat, to: nat, i: nat, bufs': seq<Buffer>)
    requires Reached(bs, was, bufs, gb, up, from, to, i) && i < |was| && Fails(bs, was[i], gb[i], i, from, to)
    requires Allowed(bs, gb, was, from, to, i)
    requires FixedUp(bs, bufs[i := bufs[i].(isNew := false)], bufs', from, to, i)
    ensures Undone(bs, was, bufs', gb, up, from, to, i)
  {
  }

  /** A visited block: its outside bytes are in place or being read, and it is new only over a hole. */
  ghost predicate Visited(bs: nat, d: seq<byte>, bufs: seq<Buffer>, f: seq<byte>, from: nat, to: nat, wait: seq<nat>, j: nat) {
    j < |bufs| && (Meets(bs, j, from, to) ==>
      && (Ready(d, f, Start(bs, j), Start(bs, j + 1), from, to) || (j in wait && !bufs[j].uptodate))
      && bufs[j].mapped && (bufs[j].isNew ==> ZeroIn(f, Start(bs, j), Start(bs, j + 1))))
  }

  /** Blocks below `i` have been visited. */
  ghost predicate Progress(bs: nat, d: seq<byte>, bufs: seq<Buffer>, f: seq<byte>, from: nat, to: nat, wait: seq<nat>, i: nat) {
    && (forall j: nat {:trigger Visited(bs, d, bufs, f, from, to, wait, j)} :: j < i ==> Visited(bs, d, bufs, f, from, to, wait, j))
    && (forall j :: j in wait ==> j < i)
  }

  /** One more block: its own facts, and nothing else touched. */
  lemma ProgressStep(bs: nat, d: seq<byte>, bufs: seq<Buffer>, f: seq<byte>, from: nat, to: nat, wait: seq<nat>, i: nat,
                     e: seq<byte>, b: Buffer, wait': seq<nat>)
    requires Progress(bs, d, bufs, f, from, to, wait, i) && i < |bufs| && |d| == Start(bs, |bufs|)
    requires OnlyIn(d, e, Start(bs, i), Start(bs, i + 1)) && (wait' == wait || wait' == wait + [i])
    requires Visited(bs, e, bufs[i := b], f, from, to, wait', i)
    ensures Progress(bs, e, bufs[i := b], f, from, to, wait', i + 1)
  {
    var bufs' := bufs[i := b];
    forall j: nat | j < i + 1 ensures Visited(bs, e, bufs', f, from, to, wait', j) {
      if j < i {
        assert Visited(bs, d, bufs, f, from, to, wait, j);
        BlockWithin(bs, |bufs|, j);
        StartOrder(bs, j + 1, i);
      }
    }
  }

  /** The room left in `wait[2]` when the loop reaches block `i`. */
  function Queued(bs: nat, i: nat, from: nat, to: nat): nat {
    (if Start(bs, i) > from then 1 else 0) + (if Start(bs, i) > to then 1 else 0)
  }

  class CachedPage {
    const bs: nat
    const data: array<byte>
    var bufs: seq<Buffer>
    var uptodate: bool

    ghost predicate Agrees(f: seq<byte>)
      reads this, data
    {
      Agree(bs, data[..], bufs, uptodate, f)
    }

    method Memset(lo: nat, hi: nat)
      requires lo <= hi <= data.Length
      modifies data
      ensures forall k :: 0 <= k < data.Length ==> data[k] == if lo <= k < hi then 0 else old(data[k])
    {
      forall k | lo <= k < hi {
        data[k] := 0;
      }
    }

    method SetBuffer(i: nat, b: Buffer, ghost f: seq<byte>)
      requires Agrees(f) && i < |bufs| && (b.uptodate && !bufs[i].uptodate ==> uptodate)
      modifies this`bufs
      ensures Agrees(f) && bufs == old(bufs)[i := b]
    {
      BlockWithin(bs, |bufs|, i);
      assert BufOk(bs, data[..], bufs, f, i);
      AgreeStep(bs, data[..], bufs, uptodate, f, i, data[..], b);
      bufs := bufs[i := b];
    }

    /** The parts of a new block that the write will not cover become zero. */
    method ZeroEdges(i: nat, from: nat, to: nat, ghost f: seq<byte>)
      requires Agrees(f) && i < |bufs| && !uptodate && from <= to
      requires Start(bs, i) < to && from < Start(bs, i + 1) && ZeroIn(f, Start(bs, i), Start(bs, i + 1))
      modifies data
      ensures Agrees(f) && OnlyIn(old(data[..]), data[..], Start(bs, i), Start(bs, i + 1))
      ensures Ready(data[..], f, Start(bs, i), Start(bs, i + 1), from, to)
    {
      var lo, hi := Start(bs, i), Start(bs, i + 1);
      BlockWithin(bs, |bufs|, i);
      ghost var d := data[..];
      assert BufOk(bs, d, bufs, f, i);
      if hi > to {
        Memset(to, hi);
      }
      if lo < from {
        Memset(lo, from);
      }
      AgreeStep(bs, d, bufs, uptodate, f, i, data[..], bufs[i]);
      assert bufs[i := bufs[i]] == bufs;
    }
  
    /** The loop body of __block_prepare_write for a block that meets the write. */
    method PrepareBlock(i: nat, from: nat, to: nat, gb: GetBlock, ghost f: seq<byte>, ghost wait: seq<nat>)
      returns (err: int, queue: bool)
      requires Agrees(f) && i < |bufs| && from <= to && Meets(bs, i, from, to)
      requires gb.Failed? ==> gb.err != 0
      requires gb.Allocated? && !bufs[i].mapped ==> ZeroIn(f, Start(bs, i), Start(bs, i + 1))
      modifies this`bufs, data
      ensures Agrees(f) && |bufs| == old(|bufs|) && bufs == old(bufs)[i := bufs[i]]
      ensures OnlyIn(old(data[..]), data[..], Start(bs, i), Start(bs, i + 1))
      ensures err != 0 <==> !old(bufs[i].mapped) && gb.Failed?
      ensures err != 0 ==> err == gb.err && data[..] == old(data[..])
      ensures bufs[i] == Prepared(old(bufs)[i], gb, uptodate)
      ensures queue <==> Reads(bs, old(bufs)[i], gb, uptodate, i, from, to)
      ensures queue ==> err == 0 && !uptodate && Cut(bs, i, from, to)
      ensures err == 0 ==> Visited(bs, data[..], bufs, f, from, to, if queue then wait + [i] else wait, i)
    {
      var lo, hi := Start(bs, i), Start(bs, i + 1);
      BlockWithin(bs, |bufs|, i);
      assert BufOk(bs, data[..], bufs, f, i);
      SetBuffer(i, bufs[i].(isNew := false), f);
      err, queue := 0, false;
      if !bufs[i].mapped {
        if gb.Failed? {
          err := gb.err;
          return;
        }
        SetBuffer(i, bufs[i].(mapped := true, isNew := gb.Allocated?), f);
        if bufs[i].isNew {
          if uptodate {
            SetBuffer(i, bufs[i].(uptodate := true), f);
            return;
          }
          ZeroEdges(i, from, to, f);
          return;
        }
      }
      if uptodate {
        SetBuffer(i, bufs[i].(uptodate := true), f);
        return;
      }
      assert BufOk(bs, data[..], bufs, f, i);
      if !bufs[i].uptodate && (lo < from || hi > to) {
        queue := true;
      }
    }
  
    /** A block becomes zero over a hole, or takes the bytes that a read brought. */
    method FillBlock(i: nat, bytes: seq<byte>, b: Buffer, ghost f: seq<byte>)
      requires Agrees(f) && i < |bufs| && |bytes| == bs
      requires uptodate || b.uptodate ==> Start(bs, i) + bs <= |f| && bytes == f[Start(bs, i)..Start(bs, i) + bs]
      modifies this`bufs, data
      ensures Agrees(f) && bufs == old(bufs)[i := b]
      ensures OnlyIn(old(data[..]), data[..], Start(bs, i), Start(bs, i + 1))
      ensures b.uptodate ==> Same(data[..], f, Start(bs, i), Start(bs, i + 1))
    {
      ghost var d := data[..];
      BlockWithin(bs, |bufs|, i);
      var lo := Start(bs, i);
      forall k | 0 <= k < bs {
        data[lo + k] := bytes[k];
      }
      assert forall k :: lo <= k < lo + bs ==> data[k] == bytes[k - lo];
      AgreeStep(bs, d, bufs, uptodate, f, i, data[..], b);
      bufs := bufs[i := b];
    }

    /** The fix-up pass after a failed `get_block` at block `stop`: new blocks are zeroed and marked. */
    method FixUp(from: nat, ghost to: nat, stop: nat, ghost f: seq<byte>, ghost wait: seq<nat>)
      requires Agrees(f) && stop < |bufs| && Start(bs, stop) < to
      requires Progress(bs, data[..], bufs, f, from, to, wait, stop)
      modifies this`bufs, data
      ensures Agrees(f) && FixedUp(bs, old(bufs), bufs, from, to, stop)
      ensures forall j: nat :: j < stop && Meets(bs, j, from, to) && old(bufs)[j].isNew ==>
        ZeroIn(data[..], Start(bs, j), Start(bs, j + 1))
    {
      var i := 0;
      while i < |bufs|
        invariant 0 <= i <= |bufs| && |bufs| == old(|bufs|) && Agrees(f)
        invariant forall j: nat :: j < i ==>
          bufs[j] == if j < stop && Meets(bs, j, from, to) then Settled(old(bufs)[j]) else old(bufs)[j]
        invariant forall j: nat :: i <= j < |bufs| ==> bufs[j] == old(bufs)[j]
      {
        StartNext(bs, i);
        if Start(bs, i + 1) <= from {
          i := i + 1;
          continue;
        }
        if Start(bs, i) >= Start(bs, stop) {
          assert stop <= i by {
            if i < stop {
              StartOrder(bs, i + 1, stop);
            }
          }
          break;
        }
        assert i < stop by {
          if stop <= i {
            StartOrder(bs, stop, i);
          }
        }
        if bufs[i].isNew && !bufs[i].uptodate {
          assert Visited(bs, old(data[..]), old(bufs), f, from, to, wait, i);
          var zeros := seq(bs, k => 0 as byte);
          BlockWithin(bs, |bufs|, i);
          FillBlock(i, zeros, bufs[i].(uptodate := true, dirty := true), f);
        }
        i := i + 1;
      }
      forall j: nat | j < stop && Meets(bs, j, from, to) && old(bufs)[j].isNew
        ensures ZeroIn(data[..], Start(bs, j), Start(bs, j + 1))
      {
        assert Visited(bs, old(data[..]), old(bufs), f, from, to, wait, j) && BufOk(bs, data[..], bufs, f, j);
      }
    }

    /** wait_on_buffer for the queued reads, last first. */
    method AwaitReads(queue: seq<nat>, from: nat, to: nat, disk: seq<byte>, readOk: seq<bool>, junk: seq<byte>, ghost f: seq<byte>)
      returns (err: int)
      requires Agrees(f) && |readOk| == |bufs| && |junk| == bs && (queue != [] ==> !uptodate)
      requires forall j: nat :: j in queue ==> Same(disk, f, Start(bs, j), Start(bs, j + 1))
      requires Progress(bs, data[..], bufs, f, from, to, queue, |bufs|)
      modifies this`bufs, data
      ensures Agrees(f) && |bufs| == old(|bufs|)
      ensures err == if forall j :: j in queue ==> readOk[j] then 0 else -EIO
      ensures err == 0 ==> Progress(bs, data[..], bufs, f, from, to, [], |bufs|)
      ensures OnlyRead(old(bufs), bufs, queue)
    {
      var wait := queue;
      while wait != []
        invariant |wait| <= |queue| && wait == queue[..|wait|] && Agrees(f) && |bufs| == old(|bufs|)
        invariant Progress(bs, data[..], bufs, f, from, to, wait, |bufs|)
        invariant forall m :: 0 <= m < |queue| ==> queue[m] in queue && queue[m] < |readOk|
        invariant forall m :: |wait| <= m < |queue| ==> readOk[queue[m]]
        invariant OnlyRead(old(bufs), bufs, queue)
        decreases |wait|
      {
        var j := wait[|wait| - 1];
        assert j in wait && j == queue[|wait| - 1] && j in queue;
        BlockWithin(bs, |bufs|, j);
        ghost var d, was := data[..], bufs;
        assert Visited(bs, d, was, f, from, to, wait, j);
        if !readOk[j] {
          FillBlock(j, junk, bufs[j].(uptodate := false), f);
          return -EIO;
        }
        assert disk[Start(bs, j)..Start(bs, j) + bs] == f[Start(bs, j)..Start(bs, j) + bs];
        FillBlock(j, disk[Start(bs, j)..Start(bs, j) + bs], bufs[j].(uptodate := true), f);
        AwaitStep(bs, d, was, f, from, to, wait, j, data[..], bufs[j]);
        wait := wait[..|wait| - 1];
      }
      err := 0;
    }

    /** One round of the loop of __block_prepare_write. */
    method VisitBlock(i: nat, from: nat, to: nat, gb: GetBlock, ghost f: seq<byte>, wait: seq<nat>)
      returns (err: int, wait': seq<nat>)
      requires Agrees(f) && i < |bufs| && from <= to && Meets(bs, i, from, to)
      requires gb.Failed? ==> gb.err != 0
      requires gb.Allocated? && !bufs[i].mapped ==> ZeroIn(f, Start(bs, i), Start(bs, i + 1))
      requires Progress(bs, data[..], bufs, f, from, to, wait, i)
      requires |wait| <= Queued(bs, i, from, to) && (wait != [] ==> !uptodate)
      modifies this`bufs, data
      ensures Agrees(f) && |bufs| == old(|bufs|)
      ensures err != 0 <==> !old(bufs[i].mapped) && gb.Failed?
      ensures err != 0 ==> err == gb.err && wait' == wait
      ensures err != 0 ==> FixedUp(bs, old(bufs)[i := old(bufs)[i].(isNew := false)], bufs, from, to, i)
      ensures err == 0 ==> bufs == old(bufs)[i := Prepared(old(bufs)[i], gb, uptodate)]
      ensures err == 0 ==> wait' == if Reads(bs, old(bufs)[i], gb, uptodate, i, from, to) then wait + [i] else wait
      ensures err == 0 ==> Progress(bs, data[..], bufs, f, from, to, wait', i + 1)
      ensures err == 0 ==> |wait'| <= Queued(bs, i + 1, from, to) && (wait' != [] ==> !uptodate)
    {
      BlockWithin(bs, |bufs|, i);
      ghost var d, was := data[..], bufs;
      var queue;
      err, queue := PrepareBlock(i, from, to, gb, f, wait);
      wait' := wait;
      if err != 0 {
        StillVisited(bs, d, was, f, from, to, wait, i, bufs[i]);
        FixUp(from, to, i, f, wait);
        return;
      }
      if queue {
        assert |wait| < 2;
        wait' := wait + [i];
      }
      ProgressStep(bs, d, was, f, from, to, wait, i, data[..], bufs[i], wait');
    }

    /** The loop of __block_prepare_write; on success the queued reads are returned. */
    method PrepareLoop(from: nat, to: nat, gb: seq<GetBlock>, ghost f: seq<byte>)
      returns (err: int, wait: seq<nat>, ghost stop: nat)
      requires Agrees(f) && from <= to <= |f| && |gb| == |bufs|
      requires forall i: nat {:trigger gb[i]} :: i < |gb| && gb[i].Failed? ==> gb[i].err != 0
      requires Holes(bs, gb, bufs, f)
      modifies this`bufs, data
      ensures Agrees(f) && |bufs| == old(|bufs|) && |wait| <= 2 && (wait != [] ==> !uptodate)
      ensures err == 0 ==> Progress(bs, data[..], bufs, f, from, to, wait, |bufs|)
      ensures err == 0 ==> Allowed(bs, gb, old(bufs), from, to, |gb|)
      ensures err == 0 ==> Reached(bs, old(bufs), bufs, gb, uptodate, from, to, |bufs|)
      ensures err == 0 ==> Needed(bs, old(bufs), gb, uptodate, from, to, wait, |bufs|)
      ensures err != 0 ==> Undone(bs, old(bufs), bufs, gb, uptodate, from, to, stop) && err == gb[stop].err
    {
      err, wait, stop := 0, [], 0;
      var i: nat := 0;
      while i < |bufs|
        invariant err == 0 && 0 <= i <= |bufs| == old(|bufs|) && Agrees(f) && (wait != [] ==> !uptodate)
        invariant Progress(bs, data[..], bufs, f, from, to, wait, i)
        invariant |wait| <= Queued(bs, i, from, to)
        invariant Reached(bs, old(bufs), bufs, gb, uptodate, from, to, i)
        invariant Needed(bs, old(bufs), gb, uptodate, from, to, wait, i)
        invariant Allowed(bs, gb, old(bufs), from, to, i)
      {
        ghost var was, before := bufs, wait;
        if Start(bs, i + 1) <= from {
          Skip(bs, data[..], bufs, f, from, to, wait, i);
          ReachedPast(bs, old(bufs), bufs, gb, uptodate, from, to, wait, i, i + 1);
          i := i + 1;
          continue;
        }
        if Start(bs, i) >= to {
          break;
        }
        assert HoleAt(bs, gb, old(bufs), f, i) && bufs[i] == old(bufs)[i];
        err, wait := VisitBlock(i, from, to, gb[i], f, wait);
        if err != 0 {
          stop := i;
          UndoneAt(bs, old(bufs), was, gb, uptodate, from, to, i, bufs);
          return;
        }
        ReachedNext(bs, old(bufs), was, gb, uptodate, from, to, before, i, bufs, wait);
        i := i + 1;
      }
      NoneMeets(bs, i, |bufs|, to);
      ReachedPast(bs, old(bufs), bufs, gb, uptodate, from, to, wait, i, |bufs|);
      PassedEnd(bs, data[..], bufs, f, from, to, wait, i);
      AllowedEnd(bs, gb, old(bufs), from, to, i);
    }

    /** __block_prepare_write: the get_block and read results are the environment's. */
    method Prepare(from: nat, to: nat, gb: seq<GetBlock>, disk: seq<byte>, readOk: seq<bool>, junk: seq<byte>,
                   ghost alloc: seq<bool>, ghost f: seq<byte>)
      returns (err: int, wait: seq<nat>, ghost stop: nat)
      requires Agrees(f) && from <= to <= |f| && |gb| == |readOk| == |bufs| && |junk| == bs
      requires Stored(bs, bufs, alloc, disk, f) && Answers(gb, bufs, alloc)
      modifies this`bufs, data
      ensures Agrees(f) && |bufs| == old(|bufs|) && |wait| <= 2
      ensures err == 0 ==> Progress(bs, data[..], bufs, f, from, to, [], |bufs|)
      ensures err == 0 <==>
        Allowed(bs, gb, old(bufs), from, to, |gb|) && AllRead(bs, old(bufs), gb, uptodate, from, to, readOk)
      ensures Allowed(bs, gb, old(bufs), from, to, |gb|) ==>
        ReadInto(bs, old(bufs), bufs, gb, uptodate, from, to) && (err == 0 || err == -EIO)
      ensures !Allowed(bs, gb, old(bufs), from, to, |gb|) ==>
        Undone(bs, old(bufs), bufs, gb, uptodate, from, to, stop) && err == gb[stop].err
    {
      HolesStored(bs, bufs, alloc, disk, f, gb);
      err, wait, stop := PrepareLoop(from, to, gb, f);
      if err != 0 {
        NotAllowed(bs, old(bufs), bufs, gb, uptodate, from, to, stop);
        return;
      }
      ghost var mid := bufs;
      ReadsStored(bs, old(bufs), alloc, disk, f, gb, uptodate, from, to, wait);
      err := AwaitReads(wait, from, to, disk, readOk, junk, f);
      ReadIntoAfter(bs, old(bufs), mid, bufs, gb, uptodate, from, to, wait);
    }

    /** The caller's copy into the prepared page. */
    method Store(from: nat, bytes: seq<byte>)
      requires from + |bytes| <= data.Length
      modifies data
      ensures data[..] == Updated(old(data[..]), from, bytes)
    {
      forall k | 0 <= k < |bytes| {
        data[from + k] := bytes[k];
      }
    }

    /** __block_commit_write */
    method Commit(from: nat, to: nat)
      modifies this`bufs, this`uptodate
      ensures |bufs| == old(|bufs|)
      ensures forall i: nat :: i < |bufs| ==> bufs[i] == Committed(bs, old(bufs)[i], i, from, to)
      ensures uptodate <==> old(uptodate) || forall i: nat :: i < |bufs| ==> bufs[i].uptodate
    {
      var partial := false;
      var i := 0;
      while i < |bufs|
        invariant 0 <= i <= |bufs| == old(|bufs|) && uptodate == old(uptodate)
        invariant forall j: nat :: j < i ==> bufs[j] == Committed(bs, old(bufs)[j], j, from, to)
        invariant forall j: nat :: i <= j < |bufs| ==> bufs[j] == old(bufs)[j]
        invariant partial <==> exists j: nat :: j < i && !bufs[j].uptodate
      {
        if Start(bs, i + 1) <= from || Start(bs, i) >= to {
          if !bufs[i].uptodate {
            partial := true;
          }
        } else {
          bufs := bufs[i := bufs[i].(uptodate := true, dirty := true)];
        }
        i := i + 1;
      }
      if !partial {
        uptodate := true;
      }
    }

    /** What a read of the page returns now. */
    ghost function Content(alloc: seq<bool>, disk: seq<byte>): seq<byte>
      requires |alloc| == |bufs| && |disk| == data.Length == Start(bs, |bufs|)
      reads this, data
    {
      ReadPage(bs, data[..], bufs, uptodate, alloc, disk)
    }

    /** The second half of a write, on a prepared page. */
    method StoreAndCommit(from: nat, bytes: seq<byte>, ghost was: seq<Buffer>, ghost gb: seq<GetBlock>, ghost alloc: seq<bool>,
                          ghost disk: seq<byte>, ghost f: seq<byte>)
      requires Agrees(f) && from + |bytes| <= |f| && |bufs| == |was| && Stored(bs, was, alloc, disk, f)
      requires Progress(bs, data[..], bufs, f, from, from + |bytes|, [], |bufs|)
      requires ReadInto(bs, was, bufs, gb, uptodate, from, from + |bytes|)
      modifies this`bufs, this`uptodate, data
      ensures |bufs| == |was| && Agrees(Updated(f, from, bytes)) && Stored(bs, bufs, alloc, disk, Updated(f, from, bytes))
      ensures Content(alloc, disk) == Updated(f, from, bytes)
      ensures forall i: nat :: i < |bufs| && Meets(bs, i, from, from + |bytes|) ==> bufs[i].uptodate && bufs[i].dirty
      ensures KeptNew(bs, data[..], was, bufs, alloc, disk, f, Updated(f, from, bytes))
    {
      ghost var d, mid, up := data[..], bufs, uptodate;
      Store(from, bytes);
      Commit(from, from + |bytes|);
      WrittenAgrees(bs, d, mid, up, f, from, bytes, bufs, uptodate);
      WrittenStored(bs, was, mid, bufs, d, gb, up, alloc, disk, f, from, bytes);
      ReadsFile(bs, data[..], bufs, uptodate, alloc, disk, Updated(f, from, bytes));
      WrittenKept(bs, was, mid, bufs, d, data[..], gb, up, uptodate, alloc, disk, f, from, bytes);
    }

    /** A whole buffered write: the page then reads as the updated file, now and after it has been written
        back and dropped.  On an error it still reads as the old one unless a block is left that was
        allocated and not written, which only a failed read can do; and so it does once dropped,
        unless a block is left that was allocated and will not be written. */
    method Write(from: nat, bytes: seq<byte>, gb: seq<GetBlock>, disk: seq<byte>, readOk: seq<bool>, junk: seq<byte>,
                 ghost alloc: seq<bool>, ghost f: seq<byte>)
      returns (err: int)
      requires Agrees(f) && from + |bytes| <= |f| && |gb| == |readOk| == |bufs| && |junk| == bs
      requires Stored(bs, bufs, alloc, disk, f) && Answers(gb, bufs, alloc)
      modifies this`bufs, this`uptodate, data
      ensures |bufs| == old(|bufs|)
      ensures err == 0 <==>
        && Allowed(bs, gb, old(bufs), from, from + |bytes|, |gb|)
        && AllRead(bs, old(bufs), gb, old(uptodate), from, from + |bytes|, readOk)
      ensures Allowed(bs, gb, old(bufs), from, from + |bytes|, |gb|) ==> err == 0 || err == -EIO
      ensures !Allowed(bs, gb, old(bufs), from, from + |bytes|, |gb|) ==>
        exists i: nat :: i < |gb| && StopsAt(bs, old(bufs), gb, from, from + |bytes|, i) && err == gb[i].err
      ensures err == 0 ==> Agrees(Updated(f, from, bytes)) && Stored(bs, bufs, alloc, disk, Updated(f, from, bytes))
      ensures err == 0 ==> Content(alloc, disk) == Updated(f, from, bytes)
      ensures err == 0 ==> forall i: nat :: i < |bufs| && Meets(bs, i, from, from + |bytes|) ==> bufs[i].uptodate && bufs[i].dirty
      ensures err != 0 ==> Agrees(f) && (Content(alloc, disk) == f <==> NoStale(bs, old(bufs), bufs, disk))
      ensures err != 0 ==> forall i: nat :: i < |bufs| ==>
        (LeftNew(old(bufs)[i], bufs[i]) <==>
          && Allowed(bs, gb, old(bufs), from, from + |bytes|, |gb|)
          && NewOver(bs, old(bufs)[i], gb[i], old(uptodate), i, from, from + |bytes|))
      ensures err == 0 ==> KeptNew(bs, data[..], old(bufs), bufs, alloc, disk, f, Updated(f, from, bytes))
      ensures err != 0 ==> KeptOld(bs, data[..], old(bufs), bufs, alloc, disk, f, gb, old(uptodate), from, from + |bytes|)
    {
      var wait;
      ghost var stop;
      err, wait, stop := Prepare(from, from + |bytes|, gb, disk, readOk, junk, alloc, f);
      if err != 0 {
        ErrorLeaves(bs, data[..], old(bufs), bufs, uptodate, alloc, disk, f, gb, from, from + |bytes|, stop);
        ErrorLoses(bs, data[..], old(bufs), bufs, uptodate, alloc, disk, f, gb, from, from + |bytes|, stop);
        return;
      }
      StoreAndCommit(from, bytes, old(bufs), gb, alloc, disk, f);
    }
  }

  function Committed(bs: nat, b: Buffer, i: nat, from: nat, to: nat): Buffer {
    if Meets(bs, i, from, to) then b.(uptodate := true, dirty := true) else b
  }

  lemma {:induction false} BlocksCover(bs: nat, d: seq<byte>, bufs: seq<Buffer>, f: seq<byte>, n: nat)
    requires n <= |bufs| && |d| == |f| == Start(bs, |bufs|)
    requires forall i: nat :: i < n ==> bufs[i].uptodate && BufOk(bs, d, bufs, f, i)
    ensures Same(d, f, 0, Start(bs, n))
    decreases n
  {
    StartOrder(bs, n, |bufs|);
    if n > 0 {
      BlocksCover(bs, d, bufs, f, n - 1);
      assert BufOk(bs, d, bufs, f, n - 1);
    }
  }

  lemma WrittenAgrees(bs: nat, d: seq<byte>, bufs: seq<Buffer>, up: bool, f: seq<byte>, from: nat, bytes: seq<byte>,
                      bufs': seq<Buffer>, up': bool)
    requires Agree(bs, d, bufs, up, f) && from + |bytes| <= |f| && |bufs'| == |bufs|
    requires Progress(bs, d, bufs, f, from, from + |bytes|, [], |bufs|)
    requires forall i: nat :: i < |bufs| ==> bufs'[i] == Committed(bs, bufs[i], i, from, from + |bytes|)
    requires up' ==> up || forall i: nat :: i < |bufs| ==> bufs'[i].uptodate
    ensures Agree(bs, Updated(d, from, bytes), bufs', up', Updated(f, from, bytes))
  {
    var d', f' := Updated(d, from, bytes), Updated(f, from, bytes);
    forall i: nat | i < |bufs| ensures BufOk(bs, d', bufs', f', i) {
      StoredAgree(bs, d, bufs, up, f, from, bytes, bufs', i);
    }
    if up' && !up {
      BlocksCover(bs, d', bufs', f', |bufs|);
      assert d' == f';
    }
  }

  /** Nothing changed but whether the blocks of the queue are uptodate. */
  ghost predicate OnlyRead(was: seq<Buffer>, bufs: seq<Buffer>, queue: seq<nat>) {
    && |bufs| == |was|
    && forall j: nat {:trigger bufs[j]} {:trigger was[j]} :: j < |was| ==>
         bufs[j] == if j in queue then was[j].(uptodate := bufs[j].uptodate) else was[j]
  }

  /** Every read that is needed succeeds. */
  ghost predicate AllRead(bs: nat, bufs: seq<Buffer>, gb: seq<GetBlock>, up: bool, from: nat, to: nat, readOk: seq<bool>) {
    forall j: nat {:trigger bufs[j]} ::
      j < |bufs| && j < |gb| && j < |readOk| && Reads(bs, bufs[j], gb[j], up, j, from, to) ==> readOk[j]
  }

  lemma NoneMeets(bs: nat, i: nat, n: nat, to: nat)
    requires i < n ==> Start(bs, i) >= to
    ensures forall j: nat, from: nat :: i <= j < n ==> !Meets(bs, j, from, to)
  {
    forall j: nat | i <= j < n ensures Start(bs, j) >= to {
      StartOrder(bs, i, j);
    }
  }

  /** No failing `get_block` was needed below block `i`. */
  ghost predicate Allowed(bs: nat, gb: seq<GetBlock>, bufs: seq<Buffer>, from: nat, to: nat, i: nat) {
    forall j: nat :: j < i && j < |gb| && j < |bufs| && Meets(bs, j, from, to) && gb[j].Failed? ==> bufs[j].mapped
  }

  lemma AllowedEnd(bs: nat, gb: seq<GetBlock>, bufs: seq<Buffer>, from: nat, to: nat, i: nat)
    requires Allowed(bs, gb, bufs, from, to, i) && (i < |bufs| ==> Start(bs, i) >= to)
    ensures Allowed(bs, gb, bufs, from, to, |gb|)
  {
    forall j: nat | j < |gb| && j < |bufs| && Meets(bs, j, from, to) && gb[j].Failed? ensures bufs[j].mapped {
      if j >= i {
        StartOrder(bs, i, j);
      }
    }
  }

  lemma Skip(bs: nat, d: seq<byte>, bufs: seq<Buffer>, f: seq<byte>, from: nat, to: nat, wait: seq<nat>, i: nat)
    requires Progress(bs, d, bufs, f, from, to, wait, i) && i < |bufs| && Start(bs, i + 1) <= from
    ensures Progress(bs, d, bufs, f, from, to, wait, i + 1) && Queued(bs, i, from, to) <= Queued(bs, i + 1, from, to)
  {
    StartNext(bs, i);
    forall j: nat | j < i + 1 ensures Visited(bs, d, bufs, f, from, to, wait, j) {
    }
  }

  /** A block that `get_block` allocates was a hole: the file reads as zero there. */
  ghost predicate HoleAt(bs: nat, gb: seq<GetBlock>, bufs: seq<Buffer>, f: seq<byte>, i: nat) {
    i < |gb| && i < |bufs| && (gb[i].Allocated? && !bufs[i].mapped ==> ZeroIn(f, Start(bs, i), Start(bs, i + 1)))
  }

  ghost predicate Holes(bs: nat, gb: seq<GetBlock>, bufs: seq<Buffer>, f: seq<byte>) {
    forall i: nat {:trigger HoleAt(bs, gb, bufs, f, i)} :: i < |bufs| ==> HoleAt(bs, gb, bufs, f, i)
  }

  lemma StillVisited(bs: nat, d: seq<byte>, bufs: seq<Buffer>, f: seq<byte>, from: nat, to: nat, wait: seq<nat>, i: nat, b: Buffer)
    requires Progress(bs, d, bufs, f, from, to, wait, i) && i < |bufs|
    ensures Progress(bs, d, bufs[i := b], f, from, to, wait, i)
  {
    var bufs' := bufs[i := b];
    forall j: nat | j < i ensures Visited(bs, d, bufs', f, from, to, wait, j) {
      assert Visited(bs, d, bufs, f, from, to, wait, j);
    }
  }

  lemma PassedEnd(bs: nat, d: seq<byte>, bufs: seq<Buffer>, f: seq<byte>, from: nat, to: nat, wait: seq<nat>, i: nat)
    requires Progress(bs, d, bufs, f, from, to, wait, i) && i <= |bufs| && (i < |bufs| ==> Start(bs, i) >= to)
    ensures Progress(bs, d, bufs, f, from, to, wait, |bufs|)
  {
    forall j: nat | j < |bufs| ensures Visited(bs, d, bufs, f, from, to, wait, j) {
      if j >= i {
        StartOrder(bs, i, j);
      }
    }
  }

  lemma AwaitStep(bs: nat, d: seq<byte>, bufs: seq<Buffer>, f: seq<byte>, from: nat, to: nat, wait: seq<nat>, j: nat,
                  e: seq<byte>, b: Buffer)
    requires Progress(bs, d, bufs, f, from, to, wait, |bufs|) && wait != [] && j == wait[|wait| - 1] && j < |bufs|
    requires OnlyIn(d, e, Start(bs, j), Start(bs, j + 1)) && Same(e, f, Start(bs, j), Start(bs, j + 1))
    requires b.mapped == bufs[j].mapped && b.isNew == bufs[j].isNew && |d| == Start(bs, |bufs|)
    ensures Progress(bs, e, bufs[j := b], f, from, to, wait[..|wait| - 1], |bufs|)
  {
    var bufs', wait' := bufs[j := b], wait[..|wait| - 1];
    assert wait == wait' + [j];
    assert forall m :: m in wait' ==> m in wait;
    forall m: nat | m < |bufs| ensures Visited(bs, e, bufs', f, from, to, wait', m) {
      assert Visited(bs, d, bufs, f, from, to, wait, m);
      BlocksApart(bs, |bufs|, m, j);
    }
  }

  /** Different blocks do not meet. */
  lemma BlocksApart(bs: nat, n: nat, i: nat, j: nat)
    requires i < n && j < n
    ensures Start(bs, i) <= Start(bs, i + 1) <= Start(bs, n)
    ensures i < j ==> Start(bs, i + 1) <= Start(bs, j)
    ensures j < i ==> Start(bs, j + 1) <= Start(bs, i)
  {
    BlockWithin(bs, n, i);
    if i < j {
      StartOrder(bs, i + 1, j);
    } else if j < i {
      StartOrder(bs, j + 1, i);
    }
  }

  // ---------------------------------------------------------------- store and commit

  /** Each block afterwards holds the bytes of the updated file where its buffer says so. */
  lemma StoredAgree(bs: nat, d: seq<byte>, bufs: seq<Buffer>, up: bool, f: seq<byte>, from: nat, bytes: seq<byte>, bufs': seq<Buffer>, i: nat)
    requires Agree(bs, d, bufs, up, f) && from + |bytes| <= |f| && |bufs'| == |bufs| && i < |bufs|
    requires Progress(bs, d, bufs, f, from, from + |bytes|, [], |bufs|)
    requires bufs'[i].uptodate ==> bufs[i].uptodate || Meets(bs, i, from, from + |bytes|)
    ensures BufOk(bs, Updated(d, from, bytes), bufs', Updated(f, from, bytes), i)
  {
    BlockWithin(bs, |bufs|, i);
    assert BufOk(bs, d, bufs, f, i);
    assert Visited(bs, d, bufs, f, from, from + |bytes|, [], i);
  }

  // ---------------------------------------------------------------- the disk

  /** A block that is not cached is on disk, or is a hole if the file does not own one. */
  ghost predicate StoredAt(bs: nat, bufs: seq<Buffer>, alloc: seq<bool>, disk: seq<byte>, f: seq<byte>, i: nat) {
    && i < |bufs| && i < |alloc|
    && if alloc[i] || bufs[i].mapped then bufs[i].uptodate || Same(disk, f, Start(bs, i), Start(bs, i + 1))
       else ZeroIn(f, Start(bs, i), Start(bs, i + 1))
  }

  /** `alloc` says which blocks the file owned before this call, `disk` what they hold or will hold when allocated. */
  ghost predicate Stored(bs: nat, bufs: seq<Buffer>, alloc: seq<bool>, disk: seq<byte>, f: seq<byte>) {
    && |alloc| == |bufs| && |disk| == |f|
    && forall i: nat {:trigger StoredAt(bs, bufs, alloc, disk, f, i)} :: i < |bufs| ==> StoredAt(bs, bufs, alloc, disk, f, i)
  }

  /** `get_block` finds the blocks that the file owns and allocates the others. */
  ghost predicate Answers(gb: seq<GetBlock>, bufs: seq<Buffer>, alloc: seq<bool>) {
    && |gb| == |bufs| == |alloc|
    && forall i: nat {:trigger gb[i]} :: i < |gb| ==>
         && (gb[i].Failed? ==> gb[i].err != 0)
         && (!bufs[i].mapped && !gb[i].Failed? ==> (gb[i].Existing? <==> alloc[i]))
  }

  lemma HolesStored(bs: nat, bufs: seq<Buffer>, alloc: seq<bool>, disk: seq<byte>, f: seq<byte>, gb: seq<GetBlock>)
    requires Stored(bs, bufs, alloc, disk, f) && Answers(gb, bufs, alloc)
    ensures Holes(bs, gb, bufs, f)
  {
    forall i: nat | i < |bufs| ensures HoleAt(bs, gb, bufs, f, i) {
      assert StoredAt(bs, bufs, alloc, disk, f, i);
    }
  }

  lemma ReadsStored(bs: nat, bufs: seq<Buffer>, alloc: seq<bool>, disk: seq<byte>, f: seq<byte>, gb: seq<GetBlock>,
                    up: bool, from: nat, to: nat, wait: seq<nat>)
    requires Stored(bs, bufs, alloc, disk, f) && Answers(gb, bufs, alloc)
    requires Needed(bs, bufs, gb, up, from, to, wait, |bufs|)
    ensures forall j: nat :: j in wait ==> Same(disk, f, Start(bs, j), Start(bs, j + 1))
  {
    forall j: nat | j in wait ensures Same(disk, f, Start(bs, j), Start(bs, j + 1)) {
      assert StoredAt(bs, bufs, alloc, disk, f, j);
      assert gb[j] == gb[j];
    }
  }

  lemma NotAllowed(bs: nat, was: seq<Buffer>, bufs: seq<Buffer>, gb: seq<GetBlock>, up: bool, from: nat, to: nat, stop: nat)
    requires Undone(bs, was, bufs, gb, up, from, to, stop)
    ensures !Allowed(bs, gb, was, from, to, |gb|)
  {
  }

  lemma ReadIntoAfter(bs: nat, was: seq<Buffer>, mid: seq<Buffer>, bufs: seq<Buffer>, gb: seq<GetBlock>, up: bool,
                      from: nat, to: nat, wait: seq<nat>)
    requires Reached(bs, was, mid, gb, up, from, to, |was|) && Needed(bs, was, gb, up, from, to, wait, |was|)
    requires OnlyRead(mid, bufs, wait)
    ensures ReadInto(bs, was, bufs, gb, up, from, to)
  {
    forall j: nat | j < |was|
      ensures var b := if Meets(bs, j, from, to) then Prepared(was[j], gb[j], up) else was[j];
              bufs[j] == if Reads(bs, was[j], gb[j], up, j, from, to) then b.(uptodate := bufs[j].uptodate) else b
    {
      assert mid[j] == mid[j] && (j in wait <==> Reads(bs, was[j], gb[j], up, j, from, to));
    }
  }

  function ReadBlock(bs: nat, d: seq<byte>, b: Buffer, owned: bool, disk: seq<byte>, i: nat): (r: seq<byte>)
    requires Start(bs, i) + bs <= |d| && Start(bs, i) + bs <= |disk|
    ensures |r| == bs
  {
    if b.uptodate then d[Start(bs, i)..Start(bs, i) + bs]
    else if owned || b.mapped then disk[Start(bs, i)..Start(bs, i) + bs]
    else seq(bs, k => 0)
  }

  function ReadBlocks(bs: nat, d: seq<byte>, bufs: seq<Buffer>, alloc: seq<bool>, disk: seq<byte>, n: nat): seq<byte>
    requires n <= |bufs| == |alloc| && |d| == |disk| == Start(bs, |bufs|)
  {
    if n == 0 then [] else
    BlockWithin(bs, |bufs|, n - 1);
    ReadBlocks(bs, d, bufs, alloc, disk, n - 1) + ReadBlock(bs, d, bufs[n - 1], alloc[n - 1], disk, n - 1)
  }

  /** What a read of the page returns: all of an uptodate page, and block by block of another. */
  function ReadPage(bs: nat, d: seq<byte>, bufs: seq<Buffer>, up: bool, alloc: seq<bool>, disk: seq<byte>): seq<byte>
    requires |bufs| == |alloc| && |d| == |disk| == Start(bs, |bufs|)
  {
    if up then d else ReadBlocks(bs, d, bufs, alloc, disk, |bufs|)
  }

  /** Block `i` reads as the file has it. */
  ghost predicate Right(bs: nat, d: seq<byte>, bufs: seq<Buffer>, alloc: seq<bool>, disk: seq<byte>, f: seq<byte>, i: nat)
    requires i < |bufs| == |alloc| && |d| == |disk| == |f| == Start(bs, |bufs|)
  {
    BlockWithin(bs, |bufs|, i);
    ReadBlock(bs, d, bufs[i], alloc[i], disk, i) == f[Start(bs, i)..Start(bs, i) + bs]
  }

  /** The blocks read as the file exactly if each does. */
  lemma {:induction false} BlocksRight(bs: nat, d: seq<byte>, bufs: seq<Buffer>, alloc: seq<bool>, disk: seq<byte>, f: seq<byte>, n: nat)
    requires n <= |bufs| == |alloc| && |d| == |disk| == |f| == Start(bs, |bufs|)
    ensures Start(bs, n) <= |f|
    ensures ReadBlocks(bs, d, bufs, alloc, disk, n) == f[..Start(bs, n)] <==>
      forall i: nat {:trigger Right(bs, d, bufs, alloc, disk, f, i)} :: i < n ==> Right(bs, d, bufs, alloc, disk, f, i)
    ensures |ReadBlocks(bs, d, bufs, alloc, disk, n)| == Start(bs, n)
    decreases n
  {
    StartOrder(bs, n, |bufs|);
    if n > 0 {
      var i := n - 1;
      BlockWithin(bs, |bufs|, i);
      BlocksRight(bs, d, bufs, alloc, disk, f, i);
      var a, b := ReadBlocks(bs, d, bufs, alloc, disk, i), ReadBlock(bs, d, bufs[i], alloc[i], disk, i);
      var u, v := f[..Start(bs, i)], f[Start(bs, i)..Start(bs, i) + bs];
      assert f[..Start(bs, n)] == u + v;
      if a + b == u + v {
        assert a == (a + b)[..|a|] && b == (a + b)[|a|..];
      }
      assert Right(bs, d, bufs, alloc, disk, f, i) <==> b == v;
    }
  }

  lemma StoredRight(bs: nat, d: seq<byte>, bufs: seq<Buffer>, up: bool, alloc: seq<bool>, disk: seq<byte>, f: seq<byte>, i: nat)
    requires Agree(bs, d, bufs, up, f) && |alloc| == |bufs| && |disk| == |f| && StoredAt(bs, bufs, alloc, disk, f, i)
    ensures Right(bs, d, bufs, alloc, disk, f, i)
  {
    BlockWithin(bs, |bufs|, i);
    assert BufOk(bs, d, bufs, f, i);
  }

  lemma ReadsFile(bs: nat, d: seq<byte>, bufs: seq<Buffer>, up: bool, alloc: seq<bool>, disk: seq<byte>, f: seq<byte>)
    requires Agree(bs, d, bufs, up, f) && Stored(bs, bufs, alloc, disk, f)
    ensures ReadPage(bs, d, bufs, up, alloc, disk) == f
  {
    forall i: nat | i < |bufs| ensures Right(bs, d, bufs, alloc, disk, f, i) {
      assert StoredAt(bs, bufs, alloc, disk, f, i);
      StoredRight(bs, d, bufs, up, alloc, disk, f, i);
    }
    BlocksRight(bs, d, bufs, alloc, disk, f, |bufs|);
    assert f[..|f|] == f;
  }

  // ---------------------------------------------------------------- after an error

  /** Allocated by the call, and neither cached nor written. */
  predicate LeftNew(was: Buffer, b: Buffer) {
    !was.mapped && b.mapped && b.isNew && !b.uptodate
  }

  /** The call will allocate this block and leave it to the write to fill it. */
  predicate NewOver(bs: nat, b: Buffer, g: GetBlock, up: bool, i: nat, from: nat, to: nat) {
    Meets(bs, i, from, to) && !b.mapped && !b.uptodate && g.Allocated? && !up
  }

  /** Block `i` is left behind and does not happen to be zero on disk. */
  ghost predicate Stale(bs: nat, was: seq<Buffer>, bufs: seq<Buffer>, disk: seq<byte>, i: nat) {
    i < |bufs| && i < |was| && LeftNew(was[i], bufs[i]) && !ZeroIn(disk, Start(bs, i), Start(bs, i + 1))
  }

  ghost predicate NoStale(bs: nat, was: seq<Buffer>, bufs: seq<Buffer>, disk: seq<byte>) {
    forall i: nat {:trigger Stale(bs, was, bufs, disk, i)} :: !Stale(bs, was, bufs, disk, i)
  }

  /** What the call may do to one buffer: it keeps what is mapped or uptodate, and says which blocks are new. */
  ghost predicate Follows(was: Buffer, b: Buffer, g: GetBlock) {
    && (was.mapped ==> b.mapped) && (was.uptodate ==> b.uptodate) && (b.uptodate && !was.uptodate ==> b.mapped)
    && (b.mapped && !was.mapped ==> !g.Failed? && (g.Allocated? <==> b.isNew))
  }

  lemma UndoneLeaves(bs: nat, was: seq<Buffer>, bufs: seq<Buffer>, gb: seq<GetBlock>, up: bool, from: nat, to: nat, stop: nat, i: nat)
    requires Undone(bs, was, bufs, gb, up, from, to, stop) && i < |bufs|
    ensures Follows(was[i], bufs[i], gb[i]) && !LeftNew(was[i], bufs[i])
  {
  }

  lemma ReadLeaves(bs: nat, was: seq<Buffer>, bufs: seq<Buffer>, gb: seq<GetBlock>, up: bool, from: nat, to: nat, i: nat)
    requires ReadInto(bs, was, bufs, gb, up, from, to) && Allowed(bs, gb, was, from, to, |gb|) && i < |bufs|
    ensures Follows(was[i], bufs[i], gb[i])
    ensures LeftNew(was[i], bufs[i]) <==> NewOver(bs, was[i], gb[i], up, i, from, to)
  {
  }

  /** A block either is left new over a hole, or is still where it can be read. */
  lemma StillStored(bs: nat, was: seq<Buffer>, bufs: seq<Buffer>, alloc: seq<bool>, disk: seq<byte>, f: seq<byte>, gb: seq<GetBlock>, i: nat)
    requires StoredAt(bs, was, alloc, disk, f, i) && Answers(gb, was, alloc) && |bufs| == |was| && Follows(was[i], bufs[i], gb[i])
    ensures if LeftNew(was[i], bufs[i]) then ZeroIn(f, Start(bs, i), Start(bs, i + 1)) else StoredAt(bs, bufs, alloc, disk, f, i)
  {
    assert gb[i] == gb[i];
  }

  lemma RightExact(bs: nat, d: seq<byte>, was: seq<Buffer>, bufs: seq<Buffer>, up: bool, alloc: seq<bool>, disk: seq<byte>,
                   f: seq<byte>, gb: seq<GetBlock>, i: nat)
    requires Agree(bs, d, bufs, up, f) && |bufs| == |was| && Stored(bs, was, alloc, disk, f) && Answers(gb, was, alloc)
    requires i < |bufs| && Follows(was[i], bufs[i], gb[i])
    ensures Right(bs, d, bufs, alloc, disk, f, i) <==> !Stale(bs, was, bufs, disk, i)
  {
    BlockWithin(bs, |bufs|, i);
    assert StoredAt(bs, was, alloc, disk, f, i);
    StillStored(bs, was, bufs, alloc, disk, f, gb, i);
    if LeftNew(was[i], bufs[i]) {
      var lo := Start(bs, i);
      var a, b := disk[lo..lo + bs], f[lo..lo + bs];
      assert forall k :: 0 <= k < bs ==> a[k] == disk[lo + k] && b[k] == f[lo + k];
      assert a == b <==> forall k :: lo <= k < lo + bs ==> disk[k] == 0 by {
        if a == b {
          forall k | lo <= k < lo + bs ensures disk[k] == 0 {
            assert a[k - lo] == b[k - lo];
          }
        }
      }
    } else {
      StoredRight(bs, d, bufs, up, alloc, disk, f, i);
    }
  }

  /** After a failed call the page reads as before exactly if nothing stale is left behind. */
  lemma StaleExact(bs: nat, d: seq<byte>, was: seq<Buffer>, bufs: seq<Buffer>, up: bool, alloc: seq<bool>, disk: seq<byte>,
                   f: seq<byte>, gb: seq<GetBlock>)
    requires Agree(bs, d, bufs, up, f) && |bufs| == |was| && Stored(bs, was, alloc, disk, f) && Answers(gb, was, alloc)
    requires forall i: nat {:trigger bufs[i]} :: i < |bufs| ==> Follows(was[i], bufs[i], gb[i]) && (LeftNew(was[i], bufs[i]) ==> !up)
    ensures ReadPage(bs, d, bufs, up, alloc, disk) == f <==> NoStale(bs, was, bufs, disk)
  {
    forall i: nat | i < |bufs| ensures Right(bs, d, bufs, alloc, disk, f, i) <==> !Stale(bs, was, bufs, disk, i) {
      assert bufs[i] == bufs[i];
      RightExact(bs, d, was, bufs, up, alloc, disk, f, gb, i);
    }
    if up {
      forall i: nat ensures !Stale(bs, was, bufs, disk, i) {
        assert i < |bufs| ==> bufs[i] == bufs[i];
      }
    } else {
      AllRight(bs, d, was, bufs, alloc, disk, f);
    }
  }

  lemma AllRight(bs: nat, d: seq<byte>, was: seq<Buffer>, bufs: seq<Buffer>, alloc: seq<bool>, disk: seq<byte>, f: seq<byte>)
    requires |was| == |bufs| == |alloc| && |d| == |disk| == |f| == Start(bs, |bufs|)
    requires forall i: nat {:trigger Right(bs, d, bufs, alloc, disk, f, i)} {:trigger Stale(bs, was, bufs, disk, i)} ::
      i < |bufs| ==> (Right(bs, d, bufs, alloc, disk, f, i) <==> !Stale(bs, was, bufs, disk, i))
    ensures ReadBlocks(bs, d, bufs, alloc, disk, |bufs|) == f <==> NoStale(bs, was, bufs, disk)
  {
    BlocksRight(bs, d, bufs, alloc, disk, f, |bufs|);
    assert f[..|f|] == f;
  }

  lemma ErrorLeaves(bs: nat, d: seq<byte>, was: seq<Buffer>, bufs: seq<Buffer>, up: bool, alloc: seq<bool>, disk: seq<byte>,
                    f: seq<byte>, gb: seq<GetBlock>, from: nat, to: nat, stop: nat)
    requires Agree(bs, d, bufs, up, f) && |bufs| == |was| && Stored(bs, was, alloc, disk, f) && Answers(gb, was, alloc)
    requires if Allowed(bs, gb, was, from, to, |gb|) then ReadInto(bs, was, bufs, gb, up, from, to)
             else Undone(bs, was, bufs, gb, up, from, to, stop)
    ensures forall i: nat :: i < |bufs| ==>
      (LeftNew(was[i], bufs[i]) <==> Allowed(bs, gb, was, from, to, |gb|) && NewOver(bs, was[i], gb[i], up, i, from, to))
    ensures ReadPage(bs, d, bufs, up, alloc, disk) == f <==> NoStale(bs, was, bufs, disk)
  {
    forall i: nat | i < |bufs|
      ensures Follows(was[i], bufs[i], gb[i])
      ensures LeftNew(was[i], bufs[i]) <==> Allowed(bs, gb, was, from, to, |gb|) && NewOver(bs, was[i], gb[i], up, i, from, to)
    {
      if Allowed(bs, gb, was, from, to, |gb|) {
        ReadLeaves(bs, was, bufs, gb, up, from, to, i);
      } else {
        UndoneLeaves(bs, was, bufs, gb, up, from, to, stop, i);
      }
    }
    StaleExact(bs, d, was, bufs, up, alloc, disk, f, gb);
  }

  /** After a successful write every block can be read back. */
  lemma WrittenStored(bs: nat, was: seq<Buffer>, mid: seq<Buffer>, bufs: seq<Buffer>, d: seq<byte>, gb: seq<GetBlock>, up: bool,
                      alloc: seq<bool>, disk: seq<byte>, f: seq<byte>, from: nat, bytes: seq<byte>)
    requires Stored(bs, was, alloc, disk, f) && from + |bytes| <= |f| == Start(bs, |was|) && |bufs| == |was|
    requires ReadInto(bs, was, mid, gb, up, from, from + |bytes|) && Progress(bs, d, mid, f, from, from + |bytes|, [], |mid|)
    requires forall i: nat :: i < |mid| ==> bufs[i] == Committed(bs, mid[i], i, from, from + |bytes|)
    ensures Stored(bs, bufs, alloc, disk, Updated(f, from, bytes))
  {
    forall i: nat | i < |bufs| ensures StoredAt(bs, bufs, alloc, disk, Updated(f, from, bytes), i) {
      BlockWithin(bs, |bufs|, i);
      assert StoredAt(bs, was, alloc, disk, f, i) && Visited(bs, d, mid, f, from, from + |bytes|, [], i);
    }
  }

  // ---------------------------------------------------------------- after writeback

  /** What is left of the buffers once the dirty ones have been written back and the page is dropped:
      as if only the dirty ones were uptodate. */
  function Evict(bufs: seq<Buffer>): (r: seq<Buffer>)
    ensures |r| == |bufs|
    ensures forall i :: 0 <= i < |bufs| ==> r[i] == bufs[i].(uptodate := bufs[i].uptodate && bufs[i].dirty)
  {
    seq(|bufs|, i requires 0 <= i < |bufs| => bufs[i].(uptodate := bufs[i].uptodate && bufs[i].dirty))
  }

  lemma EvictAgrees(bs: nat, d: seq<byte>, bufs: seq<Buffer>, up: bool, f: seq<byte>)
    requires Agree(bs, d, bufs, up, f)
    ensures Agree(bs, d, Evict(bufs), false, f)
  {
    forall i: nat | i < |bufs| ensures BufOk(bs, d, Evict(bufs), f, i) {
      assert BufOk(bs, d, bufs, f, i);
    }
  }

  /** What a read returns once the dirty buffers have been written back and the page is dropped. */
  function KeptPage(bs: nat, d: seq<byte>, bufs: seq<Buffer>, alloc: seq<bool>, disk: seq<byte>): seq<byte>
    requires |bufs| == |alloc| && |d| == |disk| == Start(bs, |bufs|)
  {
    ReadPage(bs, d, Evict(bufs), false, alloc, disk)
  }

  /** If the file outlived the page before the write, the new one does so after it. */
  ghost predicate KeptNew(bs: nat, d: seq<byte>, was: seq<Buffer>, bufs: seq<Buffer>, alloc: seq<bool>, disk: seq<byte>,
                          f: seq<byte>, f': seq<byte>) {
    Stored(bs, Evict(was), alloc, disk, f) ==>
      && Stored(bs, Evict(bufs), alloc, disk, f') && |d| == |disk| == Start(bs, |bufs|)
      && KeptPage(bs, d, bufs, alloc, disk) == f'
  }

  /** If it did so before a failed write, it still does exactly if no block is lost. */
  ghost predicate KeptOld(bs: nat, d: seq<byte>, was: seq<Buffer>, bufs: seq<Buffer>, alloc: seq<bool>, disk: seq<byte>,
                          f: seq<byte>, gb: seq<GetBlock>, up: bool, from: nat, to: nat) {
    Stored(bs, Evict(was), alloc, disk, f) ==>
      && |bufs| == |alloc| && |d| == |disk| == Start(bs, |bufs|)
      && (KeptPage(bs, d, bufs, alloc, disk) == f <==> NoneLost(bs, was, gb, up, from, to, disk))
  }

  /** A successful write outlives the page. */
  lemma WrittenKept(bs: nat, was: seq<Buffer>, mid: seq<Buffer>, bufs: seq<Buffer>, d: seq<byte>, d': seq<byte>, gb: seq<GetBlock>,
                    up: bool, up': bool, alloc: seq<bool>, disk: seq<byte>, f: seq<byte>, from: nat, bytes: seq<byte>)
    requires from + |bytes| <= |f| == Start(bs, |was|) && |bufs| == |was|
    requires ReadInto(bs, was, mid, gb, up, from, from + |bytes|) && Progress(bs, d, mid, f, from, from + |bytes|, [], |mid|)
    requires forall i: nat :: i < |mid| ==> bufs[i] == Committed(bs, mid[i], i, from, from + |bytes|)
    requires Agree(bs, d', bufs, up', Updated(f, from, bytes))
    ensures KeptNew(bs, d', was, bufs, alloc, disk, f, Updated(f, from, bytes))
  {
    if Stored(bs, Evict(was), alloc, disk, f) {
      forall i: nat | i < |bufs| ensures StoredAt(bs, Evict(bufs), alloc, disk, Updated(f, from, bytes), i) {
        BlockWithin(bs, |bufs|, i);
        assert StoredAt(bs, Evict(was), alloc, disk, f, i) && Visited(bs, d, mid, f, from, from + |bytes|, [], i);
      }
      EvictAgrees(bs, d', bufs, up', Updated(f, from, bytes));
      ReadsFile(bs, d', Evict(bufs), false, alloc, disk, Updated(f, from, bytes));
    }
  }

  /** The failed call allocates this block and leaves it clean: without caching it before a failed
      read, with it cached and so passed over by the fix-up after a failed `get_block`. */
  ghost predicate Lost(bs: nat, bufs: seq<Buffer>, gb: seq<GetBlock>, up: bool, from: nat, to: nat, i: nat) {
    && i < |bufs| && i < |gb| && Meets(bs, i, from, to) && !bufs[i].mapped && gb[i].Allocated?
    && if Allowed(bs, gb, bufs, from, to, |gb|) then !((bufs[i].uptodate || up) && bufs[i].dirty)
       else Allowed(bs, gb, bufs, from, to, i) && (bufs[i].uptodate || up) && !bufs[i].dirty
  }

  /** No such block holds anything but zero on disk. */
  ghost predicate NoneLost(bs: nat, bufs: seq<Buffer>, gb: seq<GetBlock>, up: bool, from: nat, to: nat, disk: seq<byte>) {
    forall i: nat {:trigger Lost(bs, bufs, gb, up, from, to, i)} ::
      Lost(bs, bufs, gb, up, from, to, i) ==> ZeroIn(disk, Start(bs, i), Start(bs, i + 1))
  }

  lemma UndoneLoses(bs: nat, was: seq<Buffer>, bufs: seq<Buffer>, gb: seq<GetBlock>, up: bool, from: nat, to: nat, stop: nat, i: nat)
    requires Undone(bs, was, bufs, gb, up, from, to, stop) && i < |bufs|
    ensures Follows(Evict(was)[i], Evict(bufs)[i], gb[i])
    ensures LeftNew(Evict(was)[i], Evict(bufs)[i]) <==> Lost(bs, was, gb, up, from, to, i)
  {
    NotAllowed(bs, was, bufs, gb, up, from, to, stop);
    assert i <= stop ==> Allowed(bs, gb, was, from, to, i);
    assert i > stop ==> !Allowed(bs, gb, was, from, to, i);
  }

  lemma ReadLoses(bs: nat, was: seq<Buffer>, bufs: seq<Buffer>, gb: seq<GetBlock>, up: bool, from: nat, to: nat, i: nat)
    requires ReadInto(bs, was, bufs, gb, up, from, to) && Allowed(bs, gb, was, from, to, |gb|) && i < |bufs|
    ensures Follows(Evict(was)[i], Evict(bufs)[i], gb[i])
    ensures LeftNew(Evict(was)[i], Evict(bufs)[i]) <==> Lost(bs, was, gb, up, from, to, i)
  {
  }

  /** After a failed call the page reads as before, once dropped, exactly if nothing is lost. */
  lemma ErrorLoses(bs: nat, d: seq<byte>, was: seq<Buffer>, bufs: seq<Buffer>, up: bool, alloc: seq<bool>, disk: seq<byte>,
                   f: seq<byte>, gb: seq<GetBlock>, from: nat, to: nat, stop: nat)
    requires Agree(bs, d, bufs, up, f) && |bufs| == |was| && Answers(gb, was, alloc)
    requires if Allowed(bs, gb, was, from, to, |gb|) then ReadInto(bs, was, bufs, gb, up, from, to)
             else Undone(bs, was, bufs, gb, up, from, to, stop)
    ensures KeptOld(bs, d, was, bufs, alloc, disk, f, gb, up, from, to)
  {
    var was', bufs' := Evict(was), Evict(bufs);
    EvictAgrees(bs, d, bufs, up, f);
    forall i: nat | i < |bufs|
      ensures Follows(was'[i], bufs'[i], gb[i])
      ensures LeftNew(was'[i], bufs'[i]) <==> Lost(bs, was, gb, up, from, to, i)
    {
      if Allowed(bs, gb, was, from, to, |gb|) {
        ReadLoses(bs, was, bufs, gb, up, from, to, i);
      } else {
        UndoneLoses(bs, was, bufs, gb, up, from, to, stop, i);
      }
    }
    if Stored(bs, was', alloc, disk, f) {
      StaleExact(bs, d, was', bufs', false, alloc, disk, f, gb);
    }
    LostStale(bs, was, was', bufs', gb, up, from, to, disk);
  }

  lemma LostStale(bs: nat, was: seq<Buffer>, was': seq<Buffer>, bufs': seq<Buffer>, gb: seq<GetBlock>, up: bool, from: nat, to: nat, disk: seq<byte>)
    requires |was| == |was'| == |bufs'|
    requires forall i: nat :: i < |was| ==> (LeftNew(was'[i], bufs'[i]) <==> Lost(bs, was, gb, up, from, to, i))
    ensures NoStale(bs, was', bufs', disk) <==> NoneLost(bs, was, gb, up, from, to, disk)
  {
    forall i: nat ensures Stale(bs, was', bufs', disk, i) <==>
      Lost(bs, was, gb, up, from, to, i) && !ZeroIn(disk, Start(bs, i), Start(bs, i + 1))
    {
    }
  }

  /** Three holes and a block whose read fails: what the disk holds in the blocks allocated for the holes shows. */
  method StaleWrite(page: CachedPage, bytes: seq<byte>, disk: seq<byte>, junk: seq<byte>, ghost f: seq<byte>) returns (err: int)
    requires page.bs == 1024 && !page.uptodate && |bytes| == 3584 && |junk| == 1024
    requires page.bufs == [HOLE, HOLE, HOLE, HOLE.(mapped := true)]
    requires page.Agrees(f) && Stored(page.bs, page.bufs, [false, false, false, true], disk, f)
    modifies page, page.data
    ensures err == -EIO && |page.bufs| == 4 && |disk| == page.data.Length == Start(page.bs, 4)
    ensures page.Content([false, false, false, true], disk) == f <==> ZeroIn(disk, 0, 3072)
  {
    var gb := [Allocated, Allocated, Allocated, Existing];
    ghost var was := page.bufs;
    err := page.Write(0, bytes, gb, disk, [true, true, true, false], junk, [false, false, false, true], f);
    assert Reads(page.bs, was[3], gb[3], false, 3, 0, 3584);
    assert forall i: nat :: i < 4 ==> (LeftNew(was[i], page.bufs[i]) <==> i < 3);
    assert forall i: nat {:trigger Stale(1024, was, page.bufs, disk, i)} ::
      Stale(1024, was, page.bufs, disk, i) <==> i < 3 && !ZeroIn(disk, Start(1024, i), Start(1024, i + 1));
    assert Stale(1024, was, page.bufs, disk, 0) <==> !ZeroIn(disk, 0, 1024);
    assert Stale(1024, was, page.bufs, disk, 1) <==> !ZeroIn(disk, 1024, 2048);
    assert Stale(1024, was, page.bufs, disk, 2) <==> !ZeroIn(disk, 2048, 3072);
  }

  /** An uptodate page over two holes, and no space for the second: the block allocated for the first is
      passed over by the fix-up, and what the disk holds in it shows once the page is dropped. */
  method LostWrite(page: CachedPage, bytes: seq<byte>, disk: seq<byte>, junk: seq<byte>, ghost f: seq<byte>) returns (err: int)
    requires page.bs == 1024 && page.uptodate && |bytes| == 2048 && |junk| == 1024
    requires page.bufs == [HOLE, HOLE]
    requires page.Agrees(f) && Stored(page.bs, page.bufs, [false, false], disk, f)
    modifies page, page.data
    ensures err == -28 && |page.bufs| == 2 && |disk| == page.data.Length == Start(page.bs, 2)
    ensures page.Content([false, false], disk) == f
    ensures KeptPage(page.bs, page.data[..], page.bufs, [false, false], disk) == f <==> ZeroIn(disk, 0, 1024)
  {
    var gb := [Allocated, Failed(-28)];
    ghost var was := page.bufs;
    assert Evict(was) == was;
    err := page.Write(0, bytes, gb, disk, [true, true], junk, [false, false], f);
    assert !Allowed(1024, gb, was, 0, 2048, 2) by {
      assert Meets(1024, 1, 0, 2048) && gb[1].Failed? && !was[1].mapped;
    }
    assert forall i: nat {:trigger Lost(1024, was, gb, true, 0, 2048, i)} :: Lost(1024, was, gb, true, 0, 2048, i) <==> i == 0;
    assert Lost(1024, was, gb, true, 0, 2048, 0) && Start(1024, 0) == 0 && Start(1024, 1) == 1024;
    assert NoStale(1024, was, page.bufs, disk) by {
      assert forall i: nat :: i < 2 ==> !LeftNew(was[i], page.bufs[i]);
    }
  }

  const HOLE := Buffer(false, false, false, false)
}
