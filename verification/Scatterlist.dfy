/**
 * Scatterlists as address lists.  A page is a run of `ps` consecutive bytes of memory, so a
 * segment (page, offset, length) denotes consecutive addresses; the whole list denotes their
 * concatenation.  Reading a list gathers its bytes, writing one scatters them.
 */
module Scatterlist {
  import opened Octets
  import opened Seqs

  datatype Segment = Segment(page: nat, offset: nat, length: nat)

  function Base(ps: nat, page: nat): nat { page * ps }

  function Span(a: nat, n: nat): (r: seq<nat>)
    ensures |r| == n
    ensures forall i :: 0 <= i < n ==> r[i] == a + i
  {
    seq(n, i => a + i)
  }

  /** All addresses of a scatterlist, in order. */
  function Addrs(ps: nat, sg: seq<Segment>): seq<nat> {
    if sg == [] then [] else Span(Base(ps, sg[0].page) + sg[0].offset, sg[0].length) + Addrs(ps, sg[1..])
  }

  /** The bytes of the segments before the `i`-th. */
  function Before(sg: seq<Segment>, i: nat): nat
    requires i <= |sg|
  {
    if i == 0 then 0 else sg[0].length + Before(sg[1..], i - 1)
  }

  /** Byte `j` of segment `i` comes after all bytes of the segments before it, and lies in the
      segment's page, or those behind it, `j` bytes after the segment's offset. */
  lemma {:induction false} AddrsAt(ps: nat, sg: seq<Segment>, i: nat, j: nat)
    requires i < |sg| && j < sg[i].length
    ensures |Addrs(ps, sg)| == Before(sg, |sg|) && Before(sg, i) + j < |Addrs(ps, sg)|
    ensures Addrs(ps, sg)[Before(sg, i) + j] == sg[i].page * ps + sg[i].offset + j
    decreases |sg|
  {
    AddrsSize(ps, sg[1..]);
    if i > 0 {
      AddrsAt(ps, sg[1..], i - 1, j);
    }
  }

  lemma {:induction false} AddrsSize(ps: nat, sg: seq<Segment>)
    ensures |Addrs(ps, sg)| == Before(sg, |sg|)
  {
    if sg != [] {
      AddrsSize(ps, sg[1..]);
    }
  }

  ghost predicate Within(a: seq<nat>, n: nat) {
    forall i :: 0 <= i < |a| ==> a[i] < n
  }

  ghost function Gather(m: seq<byte>, a: seq<nat>): (r: seq<byte>)
    requires Within(a, |m|)
    ensures |r| == |a|
    ensures forall i :: 0 <= i < |a| ==> r[i] == m[a[i]]
  {
    seq(|a|, i requires 0 <= i < |a| => m[a[i]])
  }

  /** Writes `b` to the addresses `a`, left to right. */
  ghost function Scatter(m: seq<byte>, a: seq<nat>, b: seq<byte>): (r: seq<byte>)
    requires |a| == |b| && Within(a, |m|)
    ensures |r| == |m|
    decreases |a|
  {
    if a == [] then m else Scatter(m[a[0] := b[0]], a[1..], b[1..])
  }

  /** `b` stored contiguously from `at`; storing nothing needs no valid address. */
  function Put(m: seq<byte>, at: nat, b: seq<byte>): (r: seq<byte>)
    requires |b| > 0 ==> at + |b| <= |m|
    ensures |r| == |m|
  {
    if b == [] then m else m[..at] + b + m[at + |b|..]
  }

  /** `n` bytes from `at`. */
  function Piece(m: seq<byte>, at: nat, n: nat): (r: seq<byte>)
    requires n > 0 ==> at + n <= |m|
    ensures |r| == n
  {
    if n == 0 then [] else m[at..at + n]
  }

  lemma {:induction false} ScatterAppend(m: seq<byte>, a1: seq<nat>, b1: seq<byte>, a2: seq<nat>, b2: seq<byte>)
    requires |a1| == |b1| && |a2| == |b2| && Within(a1, |m|) && Within(a2, |m|)
    ensures Within(a1 + a2, |m|)
    ensures Scatter(m, a1 + a2, b1 + b2) == Scatter(Scatter(m, a1, b1), a2, b2)
    decreases |a1|
  {
    if a1 == [] {
      assert a1 + a2 == a2 && b1 + b2 == b2;
    } else {
      assert (a1 + a2)[1..] == a1[1..] + a2;
      assert (b1 + b2)[1..] == b1[1..] + b2;
      ScatterAppend(m[a1[0] := b1[0]], a1[1..], b1[1..], a2, b2);
    }
  }

  /** Scattering touches no address outside the list. */
  lemma {:induction false} ScatterFrame(m: seq<byte>, a: seq<nat>, b: seq<byte>, x: nat)
    requires |a| == |b| && Within(a, |m|)
    requires x < |m| && x !in a
    ensures Scatter(m, a, b)[x] == m[x]
    decreases |a|
  {
    if a != [] {
      assert a[0] in a;
      ScatterFrame(m[a[0] := b[0]], a[1..], b[1..], x);
    }
  }

  /** With no address listed twice, every byte can be read back. */
  lemma {:induction false} ScatterHit(m: seq<byte>, a: seq<nat>, b: seq<byte>, i: nat)
    requires |a| == |b| && Within(a, |m|) && NoDup(a) && i < |a|
    ensures Scatter(m, a, b)[a[i]] == b[i]
    decreases |a|
  {
    if i == 0 {
      assert a[0] !in a[1..];
      ScatterFrame(m[a[0] := b[0]], a[1..], b[1..], a[0]);
    } else {
      ScatterHit(m[a[0] := b[0]], a[1..], b[1..], i - 1);
    }
  }

  lemma GatherScatter(m: seq<byte>, a: seq<nat>, b: seq<byte>)
    requires |a| == |b| && Within(a, |m|) && NoDup(a)
    ensures Gather(Scatter(m, a, b), a) == b
  {
    var r := Gather(Scatter(m, a, b), a);
    forall i | 0 <= i < |a| ensures r[i] == b[i] {
      ScatterHit(m, a, b, i);
    }
  }

  lemma GatherFrame(m: seq<byte>, a: seq<nat>, b: seq<byte>, c: seq<nat>)
    requires |a| == |b| && Within(a, |m|) && Within(c, |m|)
    requires forall i :: 0 <= i < |c| ==> c[i] !in a
    ensures Gather(Scatter(m, a, b), c) == Gather(m, c)
  {
    var r, s := Gather(Scatter(m, a, b), c), Gather(m, c);
    forall i | 0 <= i < |c| ensures r[i] == s[i] {
      ScatterFrame(m, a, b, c[i]);
    }
  }

  /** Scattering over consecutive addresses is one contiguous store. */
  lemma {:induction false} ScatterSpan(m: seq<byte>, at: nat, b: seq<byte>)
    requires |b| > 0 ==> at + |b| <= |m|
    ensures Within(Span(at, |b|), |m|) && Scatter(m, Span(at, |b|), b) == Put(m, at, b)
    decreases |b|
  {
    var a := Span(at, |b|);
    if b == [] {
      assert Put(m, at, b) == m;
    } else {
      assert a[1..] == Span(at + 1, |b| - 1);
      var m' := m[at := b[0]];
      ScatterSpan(m', at + 1, b[1..]);
      assert Put(m', at + 1, b[1..]) == Put(m, at, b);
    }
  }

  lemma GatherSpan(m: seq<byte>, at: nat, n: nat)
    requires n > 0 ==> at + n <= |m|
    ensures Within(Span(at, n), |m|) && Gather(m, Span(at, n)) == Piece(m, at, n)
  {
  }

  lemma SpanSplit(at: nat, n: nat, k: nat)
    requires k <= n
    ensures Span(at, n) == Span(at, k) + Span(at + k, n - k)
  {
  }

  lemma NextPage(ps: nat, page: nat)
    ensures Base(ps, page + 1) == Base(ps, page) + ps
  {
  }

  lemma {:induction false} PageOrder(ps: nat, p: nat, q: nat)
    requires p < q
    ensures Base(ps, p) + ps <= Base(ps, q)
    decreases q
  {
    NextPage(ps, q - 1);
    if p < q - 1 {
      PageOrder(ps, p, q - 1);
    }
  }

  /** After the last byte of a page the walk goes on at the next one, which is where the segment goes on exactly
      when its offset lies in its page. */
  lemma NextPageExact(ps: nat, page: nat, offset: nat)
    requires 0 < ps
    ensures Base(ps, page) + offset + (ps - offset % ps) == Base(ps, page + 1) <==> offset < ps
  {
    NextPage(ps, page);
    if offset < ps {
      SmallRemainder(ps, offset);
    } else {
      assert offset % ps < ps;
    }
  }

  /** An address determines its page and its offset in it. */
  lemma SamePage(ps: nat, p: nat, q: nat, o: nat, r: nat)
    requires o < ps && r < ps
    ensures Base(ps, p) + o == Base(ps, q) + r <==> p == q && o == r
  {
    if p < q {
      PageOrder(ps, p, q);
    } else if q < p {
      PageOrder(ps, q, p);
    }
  }

  /** Offset `r` of page `q` is the address `a`. */
  predicate Names(ps: nat, q: nat, r: nat, a: nat) { r < ps && Base(ps, q) + r == a }

  /** Page and offset are the only name of an address, as scatterwalk_samebuf takes them to be, exactly if the offset
      lies in the page. */
  lemma NameExact(ps: nat, page: nat, o: nat, a: nat)
    requires 0 < ps && a == Base(ps, page) + o
    ensures (forall q: nat, r: nat :: Names(ps, q, r, a) ==> q == page && r == o) <==> o < ps
  {
    if o < ps {
      forall q: nat, r: nat | Names(ps, q, r, a) ensures q == page && r == o {
        SamePage(ps, q, page, r, o);
      }
    } else {
      InPages(ps, o);
      var k, r := o / ps, o % ps;
      assert Base(ps, page + k) == Base(ps, page) + Base(ps, k);
      assert Names(ps, page + k, r, a);
    }
  }

  /** An offset skips whole pages and goes some way into the next. */
  lemma InPages(ps: nat, o: nat)
    requires 0 < ps
    ensures Base(ps, o / ps) <= o < Base(ps, o / ps) + ps && o % ps == o - Base(ps, o / ps)
    ensures o < ps ==> o / ps == 0
  {
    var q := o / ps;
    assert o == q * ps + o % ps;
    if o < ps && q > 0 {
      PageOrder(ps, 0, q);
    }
  }

  lemma Inside(ps: nat, page: nat, skip: nat, o: nat)
    requires Base(ps, skip) <= o < Base(ps, skip) + ps
    ensures (Base(ps, page) + o) % ps == o - Base(ps, skip)
  {
    assert page * ps + o == (page + skip) * ps + (o - Base(ps, skip));
    Remainder(ps, page + skip, o - Base(ps, skip));
  }

  lemma SmallRemainder(ps: nat, r: nat)
    requires r < ps
    ensures r % ps == r
  {
    Remainder(ps, 0, r);
  }

  lemma Remainder(ps: nat, q: nat, r: nat)
    requires r < ps
    ensures (q * ps + r) % ps == r
  {
    var x := q * ps + r;
    assert x == (x / ps) * ps + x % ps;
    SamePage(ps, q, x / ps, r, x % ps);
  }
}
