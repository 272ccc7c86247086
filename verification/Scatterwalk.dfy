/**
 * The scatter walk of the crypto layer.  A walk stands for the addresses still ahead of it; every
 * operation is specified by what it takes off the front of that list.
 */
module Scatterwalk {
  import opened Octets
  import opened Seqs
  import opened Scatterlist

  /** A pointer into memory or into a scratch block. */
  datatype Ptr = Ptr(buf: array<byte>, at: nat)

  method Memcpy(dst: array<byte>, d: nat, src: array<byte>, s: nat, n: nat)
    requires dst != src
    requires n > 0 ==> d + n <= dst.Length && s + n <= src.Length
    modifies dst
    ensures dst[..] == Put(old(dst[..]), d, Piece(old(src[..]), s, n))
  {
    forall k | 0 <= k < n {
      dst[d + k] := src[s + k];
    }
  }

  /** Every segment starts in its first page, or does not reach the end of the page it starts in. */
  ghost predicate ListOk(ps: nat, list: seq<Segment>) {
    0 < ps && forall i :: 0 <= i < |list| ==> list[i].offset < ps || list[i].offset % ps + list[i].length <= ps
  }

  /** Every segment starts in its first page. */
  ghost predicate FirstPages(ps: nat, list: seq<Segment>) {
    0 < ps && forall i :: 0 <= i < |list| ==> list[i].offset < ps
  }

  lemma AddrsTail(ps: nat, list: seq<Segment>, i: nat)
    requires i < |list|
    ensures Addrs(ps, list[i..]) == Span(Base(ps, list[i].page) + list[i].offset, list[i].length) + Addrs(ps, list[i + 1..])
  {
    assert list[i..][1..] == list[i + 1..];
  }

  ghost predicate WholePages(ps: nat, n: nat) { exists k: nat :: Base(ps, k) == n }

  /** The room from an offset to the end of its page, and the pages that the offset skips. */
  method RestOfPage(ps: nat, o: nat) returns (rest: nat, ghost skip: nat)
    requires 0 < ps
    ensures rest == ps - o % ps && skip <= o && o + rest == skip + ps && (o < ps ==> skip == 0) && WholePages(ps, skip)
  {
    InPages(ps, o);
    rest, skip := ps - o % ps, Base(ps, o / ps);
  }

  lemma DropJoin(a: seq<nat>, b: seq<nat>, c: seq<nat>)
    ensures ((a + b) + c)[|a|..] == b + c
  {
  }

  lemma NoPages(ps: nat)
    ensures WholePages(ps, 0)
  {
    assert Base(ps, 0) == 0;
  }

  class ScatterWalk {
    const ps: nat
    const list: seq<Segment>
    var sg: nat
    var page: nat
    var data: nat
    var lenThisPage: nat
    var lenThisSegment: nat
    var offset: nat
    /** The whole pages that the offset skips, in bytes. */
    ghost var skip: nat

    ghost predicate Valid()
      reads this
    {
      && ListOk(ps, list) && sg < |list| && (FirstPages(ps, list) ==> skip == 0) && WholePages(ps, skip)
      && lenThisPage <= lenThisSegment && skip <= offset && offset + lenThisPage <= skip + ps
      && (lenThisPage == lenThisSegment || (skip == 0 && offset + lenThisPage == ps))
    }

    ghost predicate Mapped()
      reads this
    {
      Valid() && data == Base(ps, page) + offset
    }

    /** The addresses the walk has still to visit. */
    ghost function Ahead(): seq<nat>
      requires Valid()
      reads this
    {
      Span(Base(ps, page) + offset, lenThisSegment) + Addrs(ps, list[sg + 1..])
    }

    /** scatterwalk_start */
    method Start(i: nat)
      requires ListOk(ps, list) && i < |list|
      modifies this
      ensures Valid() && Ahead() == Addrs(ps, list[i..]) && sg == i
    {
      sg := i;
      page := list[i].page;
      lenThisSegment := list[i].length;
      var restOfPage;
      restOfPage, skip := RestOfPage(ps, list[i].offset);
      lenThisPage := if list[i].length < restOfPage then list[i].length else restOfPage;
      offset := list[i].offset;
      AddrsTail(ps, list, i);
    }

    constructor (ps: nat, list: seq<Segment>)
      requires ListOk(ps, list) && list != []
      ensures Valid() && Ahead() == Addrs(ps, list) && this.ps == ps && this.list == list
    {
      this.ps := ps;
      this.list := list;
      new;
      Start(0);
      assert list[0..] == list;
    }

    /** scatterwalk_map */
    method Map()
      requires Valid()
      modifies this`data
      ensures Mapped() && Ahead() == old(Ahead())
    {
      data := Base(ps, page) + offset;
    }

    /** scatterwalk_pagedone: with more to come, the rest of this page is left behind. */
    method PageDone(more: bool)
      requires Valid()
      requires more ==> lenThisPage < |Ahead()|
      modifies this
      ensures Valid()
      ensures more ==> Ahead() == old(Ahead()[lenThisPage..])
      ensures !more ==> Ahead() == old(Ahead())
      ensures more && sg != old(sg) + 1 ==>
        sg == old(sg) && lenThisSegment == old(lenThisSegment - lenThisPage) && lenThisPage > 0
    {
      if more {
        AheadRest(lenThisPage);
        if lenThisSegment - lenThisPage != 0 {
          TurnPage();
        } else {
          lenThisSegment := lenThisSegment - lenThisPage;
          Start(sg + 1);
        }
      }
    }

    lemma AheadRest(k: nat)
      requires Valid() && k <= lenThisSegment
      ensures k <= |Ahead()| && Ahead()[k..] == Span(Base(ps, page) + offset + k, lenThisSegment - k) + Addrs(ps, list[sg + 1..])
    {
      SpanSplit(Base(ps, page) + offset, lenThisSegment, k);
      DropJoin(Span(Base(ps, page) + offset, k), Span(Base(ps, page) + offset + k, lenThisSegment - k), Addrs(ps, list[sg + 1..]));
    }

    /** On to the next page of the segment. */
    method TurnPage()
      requires Valid() && lenThisPage < lenThisSegment
      modifies this
      ensures Valid() && lenThisPage > 0 && sg == old(sg) && lenThisSegment == old(lenThisSegment - lenThisPage)
      ensures Ahead() == Span(old(Base(ps, page) + offset + lenThisPage), lenThisSegment) + Addrs(ps, list[sg + 1..])
    {
      lenThisSegment := lenThisSegment - lenThisPage;
      NextPage(ps, page);
      NoPages(ps);
      page, skip := page + 1, 0;
      lenThisPage := if lenThisSegment < ps then lenThisSegment else ps;
      offset := 0;
    }

    /** scatterwalk_done */
    method Done(more: bool)
      requires Valid()
      requires more ==> |Ahead()| > 0
      modifies this
      ensures Valid() && Ahead() == old(Ahead())
    {
      if lenThisPage == 0 || !more {
        ghost var before := Ahead();
        PageDone(more);
        assert before[0..] == before;
      }
    }

    /** scatterwalk_whichbuf */
    method WhichBuf(mem: array<byte>, nbytes: nat, scratch: array<byte>) returns (p: Ptr)
      requires Mapped() && 0 < nbytes
      ensures p == if nbytes <= lenThisPage then Ptr(mem, data) else Ptr(scratch, 0)
    {
      if nbytes <= lenThisPage {
        ghost var k :| Base(ps, k) == skip;
        Inside(ps, page, k, offset);
      }
      if nbytes <= lenThisPage && data % ps + nbytes <= ps {
        p := Ptr(mem, data);
      } else {
        p := Ptr(scratch, 0);
      }
    }

    /** The last lines of scatterwalk_copychunks: step over bytes of the current page. */
    method Advance(nbytes: nat)
      requires Valid() && nbytes <= lenThisPage
      modifies this
      ensures Valid() && Ahead() == old(Ahead()[nbytes..])
    {
      AheadRest(nbytes);
      offset := offset + nbytes;
      lenThisPage := lenThisPage - nbytes;
      lenThisSegment := lenThisSegment - nbytes;
    }

    lemma AheadFront(k: nat)
      requires Valid() && k <= lenThisSegment
      ensures k <= |Ahead()| && Ahead()[..k] == Span(Base(ps, page) + offset, k)
    {
      SpanSplit(Base(ps, page) + offset, lenThisSegment, k);
    }

    /** The walk stands at position `at` of the address list `all`. */
    ghost predicate At(all: seq<nat>, at: nat)
      reads this
    {
      Mapped() && at <= |all| && Ahead() == all[at..]
    }

    /** The body of the copy loop after the copying: on to the next page or segment. */
    method NextPageOrSegment(ghost all: seq<nat>, ghost at: nat)
      requires At(all, at) && at + lenThisPage < |all|
      modifies this
      ensures At(all, at + old(lenThisPage))
      ensures |list| - sg < old(|list| - sg) || (sg == old(sg) && lenThisSegment < old(lenThisSegment)) ||
              (sg == old(sg) && lenThisSegment == old(lenThisSegment) && old(lenThisPage) == 0 < lenThisPage)
    {
      ghost var next := Ahead()[lenThisPage..];
      DropDrop(all, at, lenThisPage);
      assert next == all[at + lenThisPage..];
      PageDone(true);
      assert Ahead() == next;
      Map();
    }

    method Finish(ghost all: seq<nat>, ghost at: nat, nbytes: nat)
      requires At(all, at) && nbytes <= lenThisPage && at + nbytes <= |all|
      modifies this
      ensures Valid() && Ahead() == all[at + nbytes..]
    {
      DropDrop(all, at, nbytes);
      Advance(nbytes);
    }

    /** scatterwalk_copychunks into a scratch block. */
    method CopyIn(buf: array<byte>, mem: array<byte>, nbytes: nat)
      requires Mapped() && buf != mem && nbytes <= buf.Length
      requires nbytes <= |Ahead()| && Within(Ahead(), mem.Length)
      modifies this, buf
      ensures Valid() && Ahead() == old(Ahead()[nbytes..])
      ensures buf[..nbytes] == Gather(old(mem[..]), old(Ahead()[..nbytes]))
    {
      ghost var all, m := Ahead(), mem[..];
      var left: nat, at: nat := nbytes, 0;
      while left > lenThisPage
        invariant At(all, at) && at + left == nbytes
        invariant GatheredTo(buf[..], m, all, at)
        decreases |list| - sg, lenThisSegment, if lenThisPage == 0 then 1 else 0
      {
        CopyPieceIn(buf, at, mem, lenThisPage, all);
        left, at := left - lenThisPage, at + lenThisPage;
        NextPageOrSegment(all, at - lenThisPage);
      }
      CopyPieceIn(buf, at, mem, left, all);
      Finish(all, at, left);
    }

    method CopyPieceIn(buf: array<byte>, at: nat, mem: array<byte>, k: nat, ghost all: seq<nat>)
      requires At(all, at) && buf != mem && at + k <= buf.Length && at + k <= |all|
      requires k <= lenThisPage && Within(all, mem.Length)
      requires GatheredTo(buf[..], mem[..], all, at)
      modifies buf
      ensures GatheredTo(buf[..], mem[..], all, at + k)
    {
      AheadFront(k);
      ghost var was, m := buf[..], mem[..];
      GatherStep(m, all, at, k, data);
      Memcpy(buf, at, mem, data, k);
      PutPrefix(was, at, Piece(m, data, k));
    }

    /** scatterwalk_copychunks out of a scratch block. */
    method CopyOut(buf: array<byte>, mem: array<byte>, nbytes: nat)
      requires Mapped() && buf != mem && nbytes <= buf.Length
      requires nbytes <= |Ahead()| && Within(Ahead(), mem.Length)
      modifies this, mem
      ensures Valid() && Ahead() == old(Ahead()[nbytes..])
      ensures mem[..] == Scatter(old(mem[..]), old(Ahead()[..nbytes]), buf[..nbytes])
    {
      ghost var all, m := Ahead(), mem[..];
      var left: nat, at: nat := nbytes, 0;
      while left > lenThisPage
        invariant At(all, at) && at + left == nbytes
        invariant ScatteredTo(mem[..], m, buf[..], all, at)
        decreases |list| - sg, lenThisSegment, if lenThisPage == 0 then 1 else 0
      {
        CopyPieceOut(buf, at, mem, lenThisPage, all, m);
        left, at := left - lenThisPage, at + lenThisPage;
        NextPageOrSegment(all, at - lenThisPage);
      }
      CopyPieceOut(buf, at, mem, left, all, m);
      Finish(all, at, left);
    }

    method CopyPieceOut(buf: array<byte>, at: nat, mem: array<byte>, k: nat, ghost all: seq<nat>, ghost m: seq<byte>)
      requires At(all, at) && buf != mem && at + k <= buf.Length && at + k <= |all|
      requires k <= lenThisPage && Within(all, |m|) && |m| == mem.Length
      requires ScatteredTo(mem[..], m, buf[..], all, at)
      modifies mem
      ensures ScatteredTo(mem[..], m, buf[..], all, at + k)
    {
      AheadFront(k);
      ScatterStep(m, all, buf[..], at, k, data);
      Memcpy(mem, data, buf, at, k);
    }
  }

  /** The first `at` bytes of `buf` are those at the first `at` addresses. */
  ghost predicate GatheredTo(buf: seq<byte>, m: seq<byte>, all: seq<nat>, at: nat)
    requires Within(all, |m|)
  {
    at <= |buf| && at <= |all| && buf[..at] == Gather(m, all[..at])
  }

  ghost predicate ScatteredTo(mem: seq<byte>, m: seq<byte>, buf: seq<byte>, all: seq<nat>, at: nat)
    requires Within(all, |m|)
  {
    at <= |buf| && at <= |all| && mem == Scatter(m, all[..at], buf[..at])
  }

  lemma Within2(all: seq<nat>, at: nat, n: nat)
    requires at <= |all| && Within(all, n)
    ensures Within(all[..at], n) && Within(all[at..], n)
  {
  }

  lemma ScatterStep(m: seq<byte>, all: seq<nat>, b: seq<byte>, at: nat, k: nat, data: nat)
    requires at + k <= |all| && at + k <= |b| && Within(all, |m|) && all[at..][..k] == Span(data, k)
    ensures k > 0 ==> data + k <= |m|
    ensures Put(Scatter(m, all[..at], b[..at]), data, Piece(b, at, k)) == Scatter(m, all[..at + k], b[..at + k])
  {
    if k > 0 {
      assert all[at + k - 1] == all[at..][..k][k - 1];
    }
    TakeTake(all, at, k);
    TakeTake(b, at, k);
    assert b[at..][..k] == Piece(b, at, k);
    Within2(all, at, |m|);
    var a1, b1 := all[..at], b[..at];
    GatherSpan(m, data, k);
    ScatterAppend(m, a1, b1, Span(data, k), Piece(b, at, k));
    ScatterSpan(Scatter(m, a1, b1), data, Piece(b, at, k));
  }

  lemma PutPrefix(m: seq<byte>, at: nat, b: seq<byte>)
    requires at + |b| <= |m|
    ensures Put(m, at, b)[..at + |b|] == m[..at] + b
  {
  }

  /** The next `k` addresses are the span at `data`, so gathering them is one contiguous read. */
  lemma GatherStep(m: seq<byte>, all: seq<nat>, at: nat, k: nat, data: nat)
    requires at + k <= |all| && Within(all, |m|) && all[at..][..k] == Span(data, k)
    ensures k > 0 ==> data + k <= |m|
    ensures Gather(m, all[..at + k]) == Gather(m, all[..at]) + Piece(m, data, k)
  {
    if k == 0 {
      assert all[..at + k] == all[..at];
    } else {
      assert all[at + k - 1] == all[at..][..k][k - 1];
      var p, q, r := Gather(m, all[..at]), Piece(m, data, k), Gather(m, all[..at + k]);
      forall i | 0 <= i < at + k ensures r[i] == (p + q)[i] {
        if i >= at {
          assert all[i] == all[at..][..k][i - at];
        }
      }
    }
  }
}
