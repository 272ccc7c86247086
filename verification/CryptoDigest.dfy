/**
 * crypto/digest.c: feeding a scatterlist to a digest, page by page in `update` and segment by segment in
 * the one-shot `digest`.
 */
module CryptoDigest {
  import opened Octets
  import opened Seqs
  import opened Scatterlist
  import opened BlockHash
  import opened DigestCtx

  /** Between init and final, with the right count. */
  ghost predicate Ready(c: Ctx)
    reads Repr(c)
  {
    InUse(c) && Counted(c, SeenOf(c))
  }

  ghost function Absorbed(c: Ctx): seq<byte>
    reads Repr(c)
  {
    SeenOf(c).msg
  }

  /** init */
  method Init(c: Ctx)
    requires Alive(c)
    modifies Repr(c)
    ensures Ready(c) && Absorbed(c) == []
  {
    InitOne(c);
  }

  /** A call that the digest takes in as it is. */
  method UpdateExact(c: Ctx, data: seq<byte>)
    requires Ready(c) && |data| < TWO32 && Exactly(c, |data|)
    modifies Repr(c)
    ensures Ready(c) && Absorbed(c) == old(Absorbed(c)) + data
  {
    FeedExact(c, SeenOf(c), data);
    UpdateOne(c, data);
  }

  /** final */
  method Final(c: Ctx, mem: array<byte>, out: nat)
    requires Ready(c) && mem !in Repr(c) && out + DigestSize(c) <= mem.Length
    modifies Repr(c), mem
    ensures Stored(old(mem[..]), mem[..], out, DigestOf(c, old(Absorbed(c))))
  {
    StreamExact(c, SeenOf(c));
    FinalOne(c, mem, out, SeenOf(c));
  }

  /** A scatterlist that lies in memory and starts each segment within its page. */
  ghost predicate Listed(mem: array<byte>, ps: nat, sg: seq<Segment>) {
    && 0 < ps < TWO29 && Within(Addrs(ps, sg), mem.Length)
    && forall i {:trigger sg[i]} :: 0 <= i < |sg| ==> sg[i].offset <= ps
  }

  lemma PieceSplit(m: seq<byte>, at: nat, n: nat, k: nat)
    requires k <= n && (n > 0 ==> at + n <= |m|)
    ensures Piece(m, at, n) == Piece(m, at, k) + Piece(m, at + k, n - k)
  {
  }

  /** One round of the page loop, after `done` bytes of the segment: `n` bytes up to the end of the page at `base`. */
  method UpdatePage(c: Ctx, mem: array<byte>, ps: nat, base: nat, offset: nat, l: nat,
                    ghost m: seq<byte>, ghost start: seq<byte>, ghost at: nat, ghost done: nat) returns (n: nat)
    requires Ready(c) && mem !in Repr(c) && m == mem[..] && offset <= ps < TWO29
    requires base + offset == at + done && (done + l > 0 ==> at + done + l <= |m|)
    requires Absorbed(c) == start + Piece(m, at, done)
    modifies Repr(c)
    ensures n == (if l < ps - offset then l else ps - offset)
    ensures Ready(c) && Absorbed(c) == start + Piece(m, at, done + n)
  {
    n := if l < ps - offset then l else ps - offset;
    var data := ReadPiece(mem, base + offset, n);
    assert Absorbed(c) + data == start + Piece(m, at, done + n) by {
      PieceGrows(m, start, at, done, n);
    }
    UpdateExact(c, data);
  }

  method ReadPiece(mem: array<byte>, p: nat, n: nat) returns (data: seq<byte>)
    requires n > 0 ==> p + n <= mem.Length
    ensures data == Piece(mem[..], p, n)
  {
    data := if n == 0 then [] else mem[p..p + n];
  }

  lemma PieceGrows(m: seq<byte>, start: seq<byte>, at: nat, done: nat, n: nat)
    requires done + n > 0 ==> at + done + n <= |m|
    ensures start + Piece(m, at, done) + Piece(m, at + done, n) == start + Piece(m, at, done + n)
  {
    PieceSplit(m, at, done + n, done);
    Assoc(start, Piece(m, at, done), Piece(m, at + done, n));
  }

  /** The rounds after the first, which start at a page. */
  method UpdatePages(c: Ctx, mem: array<byte>, ps: nat, first: nat, rest: nat,
                     ghost m: seq<byte>, ghost start: seq<byte>, ghost at: nat, ghost did: nat)
    requires Ready(c) && mem !in Repr(c) && m == mem[..] && 0 < ps < TWO29
    requires at + did + rest <= |m| && (rest > 0 ==> first == at + did)
    requires Absorbed(c) == start + Piece(m, at, did)
    modifies Repr(c)
    ensures Ready(c) && Absorbed(c) == start + Piece(m, at, did + rest)
  {
    var base, l := first, rest;
    ghost var done := did;
    while l > 0
      invariant 0 <= l && done + l == did + rest && (l > 0 ==> base == at + done) && m == mem[..]
      invariant Ready(c) && Absorbed(c) == start + Piece(m, at, done)
    {
      var n := UpdatePage(c, mem, ps, base, 0, l, m, start, at, done);
      done, base, l := done + n, base + ps, l - n;
    }
  }

  /** The do-while loop over the pages of one segment: only the first round starts within a page. */
  method UpdateSegment(c: Ctx, mem: array<byte>, ps: nat, seg: Segment)
    requires Ready(c) && mem !in Repr(c) && 0 < ps < TWO29 && seg.offset <= ps
    requires seg.length > 0 ==> Base(ps, seg.page) + seg.offset + seg.length <= mem.Length
    modifies Repr(c)
    ensures Ready(c) && Absorbed(c) == old(Absorbed(c)) + Piece(mem[..], Base(ps, seg.page) + seg.offset, seg.length)
  {
    var base := Base(ps, seg.page);
    ghost var at, start := base + seg.offset, Absorbed(c);
    assert start == start + Piece(mem[..], at, 0);
    var n := UpdatePage(c, mem, ps, base, seg.offset, seg.length, mem[..], start, at, 0);
    if seg.length > 0 {
      UpdatePages(c, mem, ps, base + ps, seg.length - n, mem[..], start, at, n);
    }
  }

  lemma {:induction false} AddrsJoin(ps: nat, a: seq<Segment>, b: seq<Segment>)
    ensures Addrs(ps, a + b) == Addrs(ps, a) + Addrs(ps, b)
  {
    if a == [] {
      assert a + b == b;
    } else {
      assert (a + b)[1..] == a[1..] + b;
      AddrsJoin(ps, a[1..], b);
    }
  }

  /** The bytes of the first segments and of the next one. */
  lemma Segments(m: seq<byte>, ps: nat, sg: seq<Segment>, i: nat)
    requires i < |sg| && Within(Addrs(ps, sg), |m|)
    ensures Within(Addrs(ps, sg[..i]), |m|) && Within(Addrs(ps, sg[..i + 1]), |m|)
    ensures sg[i].length > 0 ==> Base(ps, sg[i].page) + sg[i].offset + sg[i].length <= |m|
    ensures Gather(m, Addrs(ps, sg[..i + 1])) ==
      Gather(m, Addrs(ps, sg[..i])) + Piece(m, Base(ps, sg[i].page) + sg[i].offset, sg[i].length)
  {
    var at, n := Base(ps, sg[i].page) + sg[i].offset, sg[i].length;
    var a, b := Addrs(ps, sg[..i]), Span(at, n);
    assert sg == sg[..i] + sg[i..] && sg[i..][1..] == sg[i + 1..];
    AddrsJoin(ps, sg[..i], sg[i..]);
    assert Addrs(ps, sg[i..]) == b + Addrs(ps, sg[i + 1..]);
    InFront(a, b, Addrs(ps, sg[i + 1..]), |m|);
    assert sg[..i + 1] == sg[..i] + [sg[i]];
    AddrsJoin(ps, sg[..i], [sg[i]]);
    OneSegment(ps, sg[i]);
    SpanEnd(at, n, |m|);
    GatherSpan(m, at, n);
    GatherJoin(m, a, b);
  }

  lemma InFront(a: seq<nat>, b: seq<nat>, c: seq<nat>, n: nat)
    requires Within(a + (b + c), n)
    ensures Within(a, n) && Within(b, n) && Within(a + b, n)
  {
    forall i | 0 <= i < |a| ensures a[i] < n {
      assert (a + (b + c))[i] == a[i];
    }
    forall i | 0 <= i < |b| ensures b[i] < n {
      assert (a + (b + c))[|a| + i] == b[i];
    }
  }

  lemma OneSegment(ps: nat, seg: Segment)
    ensures Addrs(ps, [seg]) == Span(Base(ps, seg.page) + seg.offset, seg.length)
  {
    assert [seg][1..] == [];
  }

  lemma SpanEnd(at: nat, n: nat, m: nat)
    requires Within(Span(at, n), m)
    ensures n > 0 ==> at + n <= m
  {
    if n > 0 {
      assert Span(at, n)[n - 1] < m;
    }
  }

  lemma GatherJoin(m: seq<byte>, a: seq<nat>, b: seq<nat>)
    requires Within(a, |m|) && Within(b, |m|) && Within(a + b, |m|)
    ensures Gather(m, a + b) == Gather(m, a) + Gather(m, b)
  {
  }

  /** The bytes of the first `i` segments. */
  ghost function Front(m: seq<byte>, ps: nat, sg: seq<Segment>, i: nat): seq<byte>
    requires i <= |sg|
  {
    var a := Addrs(ps, sg[..i]);
    if Within(a, |m|) then Gather(m, a) else []
  }

  /** One round of the segment loop. */
  method UpdateNext(c: Ctx, mem: array<byte>, ps: nat, sg: seq<Segment>, i: nat, ghost start: seq<byte>)
    requires Ready(c) && mem !in Repr(c) && Listed(mem, ps, sg) && i < |sg|
    requires Absorbed(c) == start + Front(mem[..], ps, sg, i)
    modifies Repr(c)
    ensures Ready(c) && Absorbed(c) == start + Front(mem[..], ps, sg, i + 1)
  {
    NextSegment(mem[..], ps, sg, i, start);
    UpdateSegment(c, mem, ps, sg[i]);
  }

  lemma NextSegment(m: seq<byte>, ps: nat, sg: seq<Segment>, i: nat, start: seq<byte>)
    requires Within(Addrs(ps, sg), |m|) && i < |sg|
    ensures sg[i].length > 0 ==> Base(ps, sg[i].page) + sg[i].offset + sg[i].length <= |m|
    ensures start + Front(m, ps, sg, i + 1) ==
      start + Front(m, ps, sg, i) + Piece(m, Base(ps, sg[i].page) + sg[i].offset, sg[i].length)
  {
    Segments(m, ps, sg, i);
    Assoc(start, Front(m, ps, sg, i), Piece(m, Base(ps, sg[i].page) + sg[i].offset, sg[i].length));
  }

  /** update */
  method Update(c: Ctx, mem: array<byte>, ps: nat, sg: seq<Segment>)
    requires Ready(c) && mem !in Repr(c) && Listed(mem, ps, sg)
    modifies Repr(c)
    ensures Ready(c) && Absorbed(c) == old(Absorbed(c)) + Gather(mem[..], Addrs(ps, sg))
  {
    ghost var start := Absorbed(c);
    var i := 0;
    FrontEnds(mem[..], ps, sg, start);
    while i < |sg|
      invariant i <= |sg| && Ready(c) && Absorbed(c) == start + Front(mem[..], ps, sg, i)
    {
      UpdateNext(c, mem, ps, sg, i, start);
      i := i + 1;
    }
  }

  lemma FrontEnds(m: seq<byte>, ps: nat, sg: seq<Segment>, start: seq<byte>)
    requires Within(Addrs(ps, sg), |m|)
    ensures start + Front(m, ps, sg, 0) == start && Front(m, ps, sg, |sg|) == Gather(m, Addrs(ps, sg))
  {
    assert sg[..0] == [] && sg[..|sg|] == sg;
  }

  // ---------------------------------------------------------------- the one-shot digest

  /** The bytes of one segment. */
  function SegmentBytes(m: seq<byte>, ps: nat, seg: Segment): seq<byte> {
    var at := Base(ps, seg.page) + seg.offset;
    if seg.length > 0 && at + seg.length <= |m| then m[at..at + seg.length] else []
  }

  function Pieces(m: seq<byte>, ps: nat, sg: seq<Segment>, i: nat): (r: seq<seq<byte>>)
    requires i <= |sg|
    ensures |r| == i && forall j :: 0 <= j < i ==> r[j] == SegmentBytes(m, ps, sg[j])
  {
    seq(i, j requires 0 <= j < i => SegmentBytes(m, ps, sg[j]))
  }

  lemma {:induction false} JoinedFront(m: seq<byte>, ps: nat, sg: seq<Segment>, i: nat)
    requires i <= |sg| && Within(Addrs(ps, sg), |m|)
    ensures Joined(Pieces(m, ps, sg, i)) == Front(m, ps, sg, i)
  {
    if i == 0 {
      FrontEnds(m, ps, sg, []);
    } else {
      JoinedFront(m, ps, sg, i - 1);
      assert Pieces(m, ps, sg, i)[..i - 1] == Pieces(m, ps, sg, i - 1);
      FrontNext(m, ps, sg, i - 1);
    }
  }

  lemma FrontNext(m: seq<byte>, ps: nat, sg: seq<Segment>, i: nat)
    requires i < |sg| && Within(Addrs(ps, sg), |m|)
    ensures Front(m, ps, sg, i + 1) == Front(m, ps, sg, i) + SegmentBytes(m, ps, sg[i]) && |SegmentBytes(m, ps, sg[i])| == sg[i].length
  {
    Segments(m, ps, sg, i);
  }

  /** Every segment is a call that the digest takes. */
  ghost predicate AllAccepted(c: Ctx, m: seq<byte>, ps: nat, sg: seq<Segment>) {
    forall i {:trigger sg[i]} :: 0 <= i < |sg| ==> Accepts(c, FedAll(c, Pieces(m, ps, sg, i)), sg[i].length)
  }

  /** Whole segments are handed over, whatever pages they cross: the hash of what the digest saw of them, which is
      the standard's digest of the list if every segment is short or the digest is MD5. */
  method Digest(c: Ctx, mem: array<byte>, ps: nat, sg: seq<Segment>, out: nat)
    requires Alive(c) && mem !in Repr(c) && Within(Addrs(ps, sg), mem.Length) && out + DigestSize(c) <= mem.Length
    requires AllAccepted(c, mem[..], ps, sg)
    modifies Repr(c), mem
    ensures Stored(old(mem[..]), mem[..], out, Hash(c, Stream(c, FedAll(c, Pieces(old(mem[..]), ps, sg, |sg|)))))
    ensures (forall i {:trigger sg[i]} :: 0 <= i < |sg| ==> Exactly(c, sg[i].length)) ==>
      Stored(old(mem[..]), mem[..], out, DigestOf(c, Gather(old(mem[..]), Addrs(ps, sg))))
  {
    DigestExact(c, mem[..], ps, sg);
    InitOne(c);
    DigestSegments(c, mem, ps, sg);
    FinalOne(c, mem, out, SeenOf(c));
  }

  lemma DigestExact(c: Ctx, m: seq<byte>, ps: nat, sg: seq<Segment>)
    requires Within(Addrs(ps, sg), |m|) && AllAccepted(c, m, ps, sg)
    ensures (forall i {:trigger sg[i]} :: 0 <= i < |sg| ==> Exactly(c, sg[i].length)) ==>
      Hash(c, Stream(c, FedAll(c, Pieces(m, ps, sg, |sg|)))) == DigestOf(c, Gather(m, Addrs(ps, sg)))
  {
    if forall i {:trigger sg[i]} :: 0 <= i < |sg| ==> Exactly(c, sg[i].length) {
      var pieces := Pieces(m, ps, sg, |sg|);
      forall i | 0 <= i < |sg| ensures |pieces[i]| < TWO32 && Exactly(c, |pieces[i]|) {
        FrontNext(m, ps, sg, i);
      }
      FedAllExact(c, pieces);
      JoinedFront(m, ps, sg, |sg|);
      FrontEnds(m, ps, sg, []);
      StreamExact(c, FedAll(c, pieces));
    }
  }

  method DigestSegments(c: Ctx, mem: array<byte>, ps: nat, sg: seq<Segment>)
    requires InUse(c) && SeenOf(c) == Nothing() && mem !in Repr(c) && Within(Addrs(ps, sg), mem.Length)
    requires AllAccepted(c, mem[..], ps, sg)
    modifies Repr(c)
    ensures InUse(c) && SeenOf(c) == FedAll(c, Pieces(mem[..], ps, sg, |sg|))
  {
    var i := 0;
    while i < |sg|
      invariant i <= |sg| && InUse(c) && SeenOf(c) == FedAll(c, Pieces(mem[..], ps, sg, i))
    {
      DigestNext(c, mem, ps, sg, i);
      i := i + 1;
    }
  }

  method DigestNext(c: Ctx, mem: array<byte>, ps: nat, sg: seq<Segment>, i: nat)
    requires InUse(c) && mem !in Repr(c) && i < |sg| && Within(Addrs(ps, sg), mem.Length)
    requires SeenOf(c) == FedAll(c, Pieces(mem[..], ps, sg, i)) && Accepts(c, SeenOf(c), sg[i].length)
    modifies Repr(c)
    ensures InUse(c) && SeenOf(c) == FedAll(c, Pieces(mem[..], ps, sg, i + 1))
  {
    FrontNext(mem[..], ps, sg, i);
    var data := ReadSegment(mem, ps, sg[i]);
    FedNext(c, Pieces(mem[..], ps, sg, i), Pieces(mem[..], ps, sg, i + 1), data);
    UpdateOne(c, data);
  }

  lemma FedNext(c: Ctx, before: seq<seq<byte>>, after: seq<seq<byte>>, data: seq<byte>)
    requires |after| == |before| + 1 && after[|before|] == data && forall j :: 0 <= j < |before| ==> after[j] == before[j]
    ensures FedAll(c, after) == Feed(c, FedAll(c, before), data)
  {
    assert after[..|before|] == before;
  }

  method ReadSegment(mem: array<byte>, ps: nat, seg: Segment) returns (data: seq<byte>)
    requires seg.length > 0 ==> Base(ps, seg.page) + seg.offset + seg.length <= mem.Length
    ensures data == SegmentBytes(mem[..], ps, seg)
  {
    var p := Base(ps, seg.page) + seg.offset;
    data := if seg.length == 0 then [] else mem[p..p + seg.length];
  }

  /** One segment of any length: what the code hashes, and what is left of the context. */
  method DigestOne(c: Ctx, mem: array<byte>, at: nat, n: nat, out: nat)
    requires Alive(c) && mem !in Repr(c) && n < TWO32 && at + n <= mem.Length && out + DigestSize(c) <= mem.Length
    modifies Repr(c), mem
    ensures Stored(old(mem[..]), mem[..], out, OneShot(c, old(mem[at..at + n])))
    ensures Spent(c, Feed(c, Nothing(), old(mem[at..at + n])))
  {
    InitOne(c);
    var data := mem[at..at + n];
    UpdateOne(c, data);
    FinalOne(c, mem, out, SeenOf(c));
  }

  // ---------------------------------------------------------------- a whole text

  /** The text of several scatterlists, one after another. */
  ghost function Text(m: seq<byte>, ps: nat, lists: seq<seq<Segment>>): seq<byte> {
    if lists == [] then [] else
    var n := |lists| - 1;
    Text(m, ps, lists[..n]) + Front(m, ps, lists[n], |lists[n]|)
  }

  /** One update call of the stream. */
  method UpdateList(c: Ctx, mem: array<byte>, ps: nat, lists: seq<seq<Segment>>, i: nat)
    requires Ready(c) && mem !in Repr(c) && i < |lists| && Listed(mem, ps, lists[i])
    requires Absorbed(c) == Text(mem[..], ps, lists[..i])
    modifies Repr(c)
    ensures Ready(c) && Absorbed(c) == Text(mem[..], ps, lists[..i + 1])
  {
    assert lists[..i + 1][..i] == lists[..i];
    FrontEnds(mem[..], ps, lists[i], []);
    Update(c, mem, ps, lists[i]);
  }

  /** init, one update per list, final: the digest of the whole text, however it is split. */
  method StreamText(c: Ctx, mem: array<byte>, ps: nat, lists: seq<seq<Segment>>, out: nat)
    requires Alive(c) && mem !in Repr(c) && out + DigestSize(c) <= mem.Length
    requires forall i :: 0 <= i < |lists| ==> Listed(mem, ps, lists[i])
    modifies Repr(c), mem
    ensures Stored(old(mem[..]), mem[..], out, DigestOf(c, Text(old(mem[..]), ps, lists)))
  {
    Init(c);
    UpdateLists(c, mem, ps, lists);
    Final(c, mem, out);
  }

  method UpdateLists(c: Ctx, mem: array<byte>, ps: nat, lists: seq<seq<Segment>>)
    requires Ready(c) && Absorbed(c) == [] && mem !in Repr(c) && forall i :: 0 <= i < |lists| ==> Listed(mem, ps, lists[i])
    modifies Repr(c)
    ensures Ready(c) && Absorbed(c) == Text(mem[..], ps, lists)
  {
    var i := 0;
    assert lists[..0] == [];
    while i < |lists|
      invariant i <= |lists| && Ready(c) && Absorbed(c) == Text(mem[..], ps, lists[..i])
    {
      UpdateList(c, mem, ps, lists, i);
      i := i + 1;
    }
    assert lists[..|lists|] == lists;
  }
}
