/**
 * The three LRU lists of the buffer cache: circular, doubly linked through the buffer heads, with a
 * counter and a size total per list, and the writeback walk that moves buffers while it follows
 * their links.
 */
module BufferLru {
  import opened Seqs

  type Ptr = nat

  const BUF_CLEAN: nat := 0
  const BUF_LOCKED: nat := 1
  const BUF_DIRTY: nat := 2
  const NR_LIST: nat := 3
  const NRSYNC: nat := 32
  const NODEV: nat := 0

  datatype Link = Null | To(p: Ptr)

  datatype Buffer = Buffer(next: Link, prev: Link, list: nat, size: nat, dirty: bool, locked: bool, dev: nat)

  type Heap = map<Ptr, Buffer>

  // ---------------------------------------------------------------- well-formed lists

  function Succ(n: nat, i: nat): nat { if i + 1 < n then i + 1 else 0 }

  function Pred(n: nat, i: nat): nat { if i == 0 then (if n == 0 then 0 else n - 1) else i - 1 }

  /** The buffer at position `i` of the ring `l` is linked to its neighbours and names its list. */
  ghost predicate Linked(m: Heap, l: seq<Ptr>, b: nat, i: nat)
    requires i < |l|
  {
    && l[i] in m && m[l[i]].list == b
    && m[l[i]].next == To(l[Succ(|l|, i)]) && m[l[i]].prev == To(l[Pred(|l|, i)])
  }

  ghost predicate Ring(m: Heap, l: seq<Ptr>, b: nat) {
    NoDup(l) && forall i: nat {:trigger Linked(m, l, b, i)} :: i < |l| ==> Linked(m, l, b, i)
  }

  function Head(l: seq<Ptr>): Link { if l == [] then Null else To(l[0]) }

  /** Sectors of 512 bytes. */
  function Sectors(m: Heap, p: Ptr): nat { if p in m then m[p].size / 512 else 0 }

  function Total(m: Heap, l: seq<Ptr>): nat { if l == [] then 0 else Sectors(m, l[0]) + Total(m, l[1..]) }

  /** List `b`: its head, its counter and its size. */
  ghost predicate ListOk(m: Heap, l: seq<Ptr>, b: nat, head: Link, nr: nat, size: nat) {
    Ring(m, l, b) && head == Head(l) && nr == |l| && size == Total(m, l)
  }

  /** A buffer is on at most one list, and unlinked when on none. */
  ghost predicate OnOne(m: Heap, ls: seq<seq<Ptr>>, p: Ptr)
    requires |ls| == NR_LIST
  {
    && !(p in ls[0] && p in ls[1]) && !(p in ls[0] && p in ls[2]) && !(p in ls[1] && p in ls[2])
    && (p in m && p !in ls[0] && p !in ls[1] && p !in ls[2] ==> m[p].next == Null && m[p].prev == Null)
  }

  ghost predicate Inv(m: Heap, ls: seq<seq<Ptr>>, heads: seq<Link>, nr: seq<nat>, size: seq<nat>) {
    && |ls| == |heads| == |nr| == |size| == NR_LIST
    && (forall b: nat {:trigger ls[b]} :: b < NR_LIST ==> ListOk(m, ls[b], b, heads[b], nr[b], size[b]))
    && (forall p: Ptr {:trigger OnOne(m, ls, p)} :: OnOne(m, ls, p))
  }

  /** Two heaps agree on the links, list and size of a buffer. */
  predicate SameLinks(x: Buffer, y: Buffer) {
    x.next == y.next && x.prev == y.prev && x.list == y.list && x.size == y.size
  }

  lemma {:induction false} TotalSame(m: Heap, m': Heap, l: seq<Ptr>)
    requires forall p :: p in l ==> p in m && p in m' && m'[p].size == m[p].size
    ensures Total(m', l) == Total(m, l)
  {
    if l != [] {
      assert l[0] in l;
      assert forall p :: p in l[1..] ==> p in l;
      TotalSame(m, m', l[1..]);
    }
  }

  /** A list none of whose buffers changes its links stays as it is. */
  lemma ListFrame(m: Heap, m': Heap, l: seq<Ptr>, b: nat, head: Link, nr: nat, size: nat)
    requires ListOk(m, l, b, head, nr, size)
    requires forall p :: p in l ==> p in m' && p in m && SameLinks(m[p], m'[p])
    ensures ListOk(m', l, b, head, nr, size)
  {
    forall i: nat | i < |l| ensures Linked(m', l, b, i) {
      assert Linked(m, l, b, i);
      assert l[i] in l;
    }
    forall p | p in l ensures p in m && p in m' && m'[p].size == m[p].size {
    }
    TotalSame(m, m', l);
  }

  lemma {:induction false} TotalAppend(m: Heap, l: seq<Ptr>, k: seq<Ptr>)
    ensures Total(m, l + k) == Total(m, l) + Total(m, k)
  {
    if l == [] {
      assert l + k == k;
    } else {
      assert (l + k)[1..] == l[1..] + k;
      TotalAppend(m, l[1..], k);
    }
  }

  // ---------------------------------------------------------------- insertion

  /** The links after inserting `p` at the end of the ring with this head. */
  function InsertLinks(m: Heap, head: Link, p: Ptr): Heap
    requires p in m && (head.To? ==> head.p in m && m[head.p].prev.To? && m[head.p].prev.p in m)
  {
    if head.Null? then m[p := m[p].(next := To(p), prev := To(p))] else
    var last := m[head.p].prev.p;
    var m1 := m[p := m[p].(next := head, prev := To(last))];
    var m2 := m1[last := m1[last].(next := To(p))];
    m2[head.p := m2[head.p].(prev := To(p))]
  }

  /** Appending to a ring. */
  lemma InsertRing(m: Heap, l: seq<Ptr>, b: nat, p: Ptr)
    requires Ring(m, l, b) && p in m && p !in l && m[p].list == b
    ensures Head(l).To? ==> Head(l).p in m && m[Head(l).p].prev.To? && m[Head(l).p].prev.p in m
    ensures Ring(InsertLinks(m, Head(l), p), l + [p], b)
  {
    var n, l' := |l|, l + [p];
    if n > 0 {
      assert Linked(m, l, b, 0) && Linked(m, l, b, n - 1);
      assert l[0] in l && l[n - 1] in l;
    }
    var m' := InsertLinks(m, Head(l), p);
    forall i: nat | i < |l'| ensures Linked(m', l', b, i) {
      if i < n {
        assert Linked(m, l, b, i);
        assert l[i] in l;
      }
    }
  }

  // ---------------------------------------------------------------- removal

  function RemoveLinks(m: Heap, p: Ptr): Heap
    requires p in m && m[p].next.To? && m[p].prev.To? && m[p].next.p in m && m[p].prev.p in m
  {
    var next, prev := m[p].next.p, m[p].prev.p;
    var m1 := m[prev := m[prev].(next := To(next))];
    var m2 := m1[next := m1[next].(prev := To(prev))];
    m2[p := m2[p].(next := Null, prev := Null)]
  }

  function Cut(l: seq<Ptr>, k: nat): seq<Ptr>
    requires k < |l|
  {
    l[..k] + l[k + 1..]
  }

  lemma Neighbours(m: Heap, l: seq<Ptr>, b: nat, k: nat)
    requires Ring(m, l, b) && k < |l|
    ensures l[k] in m && m[l[k]].next == To(l[Succ(|l|, k)]) && m[l[k]].prev == To(l[Pred(|l|, k)])
    ensures l[Succ(|l|, k)] in m && l[Pred(|l|, k)] in m
  {
    assert Linked(m, l, b, k) && Linked(m, l, b, Succ(|l|, k)) && Linked(m, l, b, Pred(|l|, k));
  }

  /** Where position `i` of the shorter list was before position `k` was cut out. */
  function Before(k: nat, i: nat): nat { if i < k then i else i + 1 }

  lemma CutAt(l: seq<Ptr>, k: nat)
    requires k < |l| && NoDup(l)
    ensures |Cut(l, k)| == |l| - 1 && NoDup(Cut(l, k))
    ensures forall i: nat {:trigger Cut(l, k)[i]} :: i < |l| - 1 ==> Cut(l, k)[i] == l[Before(k, i)]
  {
  }

  lemma CutNeighbours(n: nat, k: nat, i: nat)
    requires k < n && i < n - 1
    ensures Succ(n - 1, i) < n - 1 && Pred(n - 1, i) < n - 1
    ensures Before(k, Succ(n - 1, i)) == (var j := Before(k, i); if Succ(n, j) == k then Succ(n, k) else Succ(n, j))
    ensures Before(k, Pred(n - 1, i)) == (var j := Before(k, i); if Pred(n, j) == k then Pred(n, k) else Pred(n, j))
    ensures Succ(n, Before(k, i)) == k <==> Before(k, i) == Pred(n, k)
    ensures Pred(n, Before(k, i)) == k <==> Before(k, i) == Succ(n, k)
  {
  }

  /** Taking a buffer out of a ring; the head moves on if it was the head. */
  lemma RemoveRing(m: Heap, l: seq<Ptr>, b: nat, k: nat)
    requires Ring(m, l, b) && k < |l|
    ensures l[k] in m && m[l[k]].next.To? && m[l[k]].prev.To? && m[l[k]].next.p in m && m[l[k]].prev.p in m
    ensures Ring(RemoveLinks(m, l[k]), Cut(l, k), b)
    ensures Head(Cut(l, k)) == if k > 0 then Head(l) else if m[l[k]].next == To(l[k]) then Null else m[l[k]].next
  {
    Neighbours(m, l, b, k);
    CutAt(l, k);
    var m', l', n := RemoveLinks(m, l[k]), Cut(l, k), |l|;
    forall i: nat | i < |l'| ensures Linked(m', l', b, i) {
      CutNeighbours(n, k, i);
      RemoveLinked(m, l, b, k, i);
    }
  }

  lemma RemoveLinked(m: Heap, l: seq<Ptr>, b: nat, k: nat, i: nat)
    requires Ring(m, l, b) && k < |l| && i < |l| - 1 && |Cut(l, k)| == |l| - 1
    requires l[k] in m && m[l[k]].next == To(l[Succ(|l|, k)]) && m[l[k]].prev == To(l[Pred(|l|, k)])
    requires l[Succ(|l|, k)] in m && l[Pred(|l|, k)] in m
    ensures Linked(RemoveLinks(m, l[k]), Cut(l, k), b, i)
  {
    var n, j, l' := |l|, Before(k, i), Cut(l, k);
    CutNeighbours(n, k, i);
    CutAt(l, k);
    assert l'[i] == l[j] && l'[Succ(n - 1, i)] == l[Before(k, Succ(n - 1, i))] && l'[Pred(n - 1, i)] == l[Before(k, Pred(n - 1, i))];
    assert Linked(m, l, b, j);
    assert l[j] == l[Pred(n, k)] <==> j == Pred(n, k);
    assert l[j] == l[Succ(n, k)] <==> j == Succ(n, k);
    assert l[j] != l[k];
  }

  lemma TotalCut(m: Heap, l: seq<Ptr>, k: nat)
    requires k < |l|
    ensures Total(m, Cut(l, k)) == Total(m, l) - Sectors(m, l[k])
  {
    assert l == l[..k] + ([l[k]] + l[k + 1..]);
    TotalAppend(m, l[..k], [l[k]] + l[k + 1..]);
    TotalAppend(m, [l[k]], l[k + 1..]);
    TotalAppend(m, l[..k], l[k + 1..]);
  }

  /** Links change only inside one list and at `p`. */
  ghost predicate Outside(m: Heap, m': Heap, l: seq<Ptr>, p: Ptr) {
    && m'.Keys == m.Keys
    && (forall q :: q in m && q !in l && q != p ==> m'[q] == m[q])
    && (forall q :: q in m ==> m'[q].size == m[q].size && m'[q].list == m[q].list)
  }

  lemma InsertOutside(m: Heap, l: seq<Ptr>, b: nat, p: Ptr)
    requires Ring(m, l, b) && p in m && p !in l && m[p].list == b
    ensures Head(l).To? ==> Head(l).p in m && m[Head(l).p].prev.To? && m[Head(l).p].prev.p in m
    ensures Outside(m, InsertLinks(m, Head(l), p), l, p)
  {
    if l != [] {
      Neighbours(m, l, b, 0);
      assert l[0] in l && l[Pred(|l|, 0)] in l;
    }
  }

  lemma RemoveOutside(m: Heap, l: seq<Ptr>, b: nat, k: nat)
    requires Ring(m, l, b) && k < |l|
    ensures l[k] in m && m[l[k]].next.To? && m[l[k]].prev.To? && m[l[k]].next.p in m && m[l[k]].prev.p in m
    ensures Outside(m, RemoveLinks(m, l[k]), l, l[k]) && RemoveLinks(m, l[k])[l[k]].next == Null
    ensures RemoveLinks(m, l[k])[l[k]].prev == Null
  {
    Neighbours(m, l, b, k);
    assert l[Succ(|l|, k)] in l && l[Pred(|l|, k)] in l;
  }

  /** Replacing one list by one with the right links keeps the whole structure. */
  lemma Replace(m: Heap, m': Heap, ls: seq<seq<Ptr>>, heads: seq<Link>, nr: seq<nat>, size: seq<nat>,
                b: nat, l': seq<Ptr>, p: Ptr)
    requires Inv(m, ls, heads, nr, size) && b < NR_LIST && Outside(m, m', ls[b], p)
    requires Ring(m', l', b)
    requires forall c: nat :: c < NR_LIST && c != b ==> p !in ls[c]
    requires forall q :: q in l' ==> q in ls[b] || q == p
    requires forall q :: q in ls[b] && q !in l' ==> q == p
    requires p in m && p !in l' ==> m'[p].next == Null && m'[p].prev == Null
    ensures Inv(m', ls[b := l'], heads[b := Head(l')], nr[b := |l'|], size[b := Total(m', l')])
  {
    var ls', heads', nr', size' := ls[b := l'], heads[b := Head(l')], nr[b := |l'|], size[b := Total(m', l')];
    forall c: nat | c < NR_LIST ensures ListOk(m', ls'[c], c, heads'[c], nr'[c], size'[c]) {
      if c != b {
        var l := ls[c];
        forall q | q in l ensures q in m' && q in m && SameLinks(m[q], m'[q]) {
          assert OnOne(m, ls, q);
          var i :| 0 <= i < |l| && l[i] == q;
          assert Linked(m, l, c, i);
        }
        ListFrame(m, m', l, c, heads[c], nr[c], size[c]);
      }
    }
    forall q: Ptr ensures OnOne(m', ls', q) {
      assert OnOne(m, ls, q);
    }
  }

  /** Changing what is not a link keeps the structure. */
  lemma FlagsInv(m: Heap, m': Heap, ls: seq<seq<Ptr>>, heads: seq<Link>, nr: seq<nat>, size: seq<nat>)
    requires Inv(m, ls, heads, nr, size) && m'.Keys == m.Keys
    requires forall q :: q in m ==> m'[q].next == m[q].next && m'[q].prev == m[q].prev && m'[q].size == m[q].size
    requires forall q :: q in m && m[q].next.To? ==> m'[q].list == m[q].list
    ensures Inv(m', ls, heads, nr, size)
  {
    forall b: nat | b < NR_LIST ensures ListOk(m', ls[b], b, heads[b], nr[b], size[b]) {
      var l := ls[b];
      forall q | q in l ensures q in m' && q in m && SameLinks(m[q], m'[q]) {
        var i :| 0 <= i < |l| && l[i] == q;
        assert Linked(m, l, b, i);
      }
      ListFrame(m, m', l, b, heads[b], nr[b], size[b]);
    }
    forall q: Ptr ensures OnOne(m', ls, q) {
      assert OnOne(m, ls, q);
    }
  }

  /** Where a linked buffer stands. */
  lemma Position(m: Heap, ls: seq<seq<Ptr>>, heads: seq<Link>, nr: seq<nat>, size: seq<nat>, p: Ptr) returns (k: nat)
    requires Inv(m, ls, heads, nr, size) && p in m && m[p].next.To?
    ensures m[p].list < NR_LIST && k < |ls[m[p].list]| && ls[m[p].list][k] == p
    ensures forall c: nat :: c < NR_LIST && c != m[p].list ==> p !in ls[c]
  {
    assert OnOne(m, ls, p);
    var b: nat := if p in ls[0] then 0 else if p in ls[1] then 1 else 2;
    assert p in ls[b];
    var l := ls[b];
    k :| 0 <= k < |l| && l[k] == p;
    assert Linked(m, l, b, k);
  }

  /** Flags, sizes and list names are as before. */
  ghost predicate SameState(m: Heap, m': Heap) {
    m'.Keys == m.Keys && forall q :: q in m ==> Flags(m'[q]) == Flags(m[q])
  }

  function Dispose(b: Buffer): nat { if b.dirty then BUF_DIRTY else if b.locked then BUF_LOCKED else BUF_CLEAN }

  /** On one of the three lists. */
  predicate On(ls: seq<seq<Ptr>>, q: Ptr) { exists b: nat :: b < |ls| && q in ls[b] }

  /** The list of `p`, if it is on one, is the one its state asks for: dirty buffers on the dirty
      list, whether locked or not, other locked ones on the locked list, the rest on the clean list. */
  ghost predicate Filed(m: Heap, ls: seq<seq<Ptr>>, p: Ptr) {
    && |ls| == NR_LIST && p in m
    && (On(ls, p) ==>
          && (p in ls[BUF_DIRTY] <==> m[p].dirty)
          && (p in ls[BUF_LOCKED] <==> m[p].locked && !m[p].dirty)
          && (p in ls[BUF_CLEAN] <==> !m[p].locked && !m[p].dirty))
  }

  /** A dirty buffer, if it is on a list, is on the one the writeback walks. */
  ghost predicate InReach(m: Heap, ls: seq<seq<Ptr>>, q: Ptr) {
    q in m && m[q].dirty && On(ls, q) ==> BUF_DIRTY < |ls| && q in ls[BUF_DIRTY]
  }

  ghost predicate Reachable(m: Heap, ls: seq<seq<Ptr>>) { forall q {:trigger InReach(m, ls, q)} :: InReach(m, ls, q) }

  ghost predicate ReachableBut(m: Heap, ls: seq<seq<Ptr>>, p: Ptr) {
    forall q {:trigger InReach(m, ls, q)} :: q != p ==> InReach(m, ls, q)
  }

  /** The only dirty buffers left on any list are locked or belong to another device. */
  ghost predicate NoneLeft(m: Heap, ls: seq<seq<Ptr>>, dev: nat) {
    forall q {:trigger On(ls, q)} :: q in m && m[q].dirty && On(ls, q) ==> m[q].locked || (dev != NODEV && m[q].dev != dev)
  }

  /** Every buffer on a list was on one before. */
  ghost predicate NoneNew(ls0: seq<seq<Ptr>>, ls: seq<seq<Ptr>>) { forall q {:trigger On(ls, q)} :: On(ls, q) ==> On(ls0, q) }

  /** A buffer without its links. */
  function Flags(b: Buffer): Buffer { b.(next := Null, prev := Null) }

  /** The writeback walk passes over buffers of other devices and locked ones. */
  predicate Skips(b: Buffer, dev: nat) { (dev != NODEV && b.dev != dev) || b.locked }

  /** What the walk does to a buffer it visits. */
  function Handled(b: Buffer, dev: nat): Buffer {
    if Skips(b, dev) then b else
    if b.dirty then b.(dirty := false, locked := true, list := BUF_LOCKED) else b.(list := BUF_CLEAN)
  }

  function Appended(ls: seq<seq<Ptr>>, b: nat, p: Ptr): seq<seq<Ptr>> {
    if b < |ls| then ls[b := ls[b] + [p]] else ls
  }

  function Removed(ls: seq<seq<Ptr>>, b: nat, p: Ptr): seq<seq<Ptr>> {
    if b < |ls| then ls[b := Without(ls[b], p)] else ls
  }

  class BufferLists {
    var m: Heap
    var heads: seq<Link>
    var nr: seq<nat>
    var size: seq<nat>
    ghost var ls: seq<seq<Ptr>>

    /** Three empty lists. */
    constructor (m: Heap)
      requires forall p :: p in m ==> m[p].next == Null && m[p].prev == Null
      ensures Valid() && this.m == m && ls == [[], [], []]
    {
      this.m, heads, nr, size := m, [Null, Null, Null], [0, 0, 0], [0, 0, 0];
      ls := [[], [], []];
    }

    ghost predicate Valid()
      reads this
    {
      Inv(m, ls, heads, nr, size)
    }

    /** The pointer work of __insert_into_lru_list. */
    method LinkIn(p: Ptr, b: nat)
      requires b < |heads| && p in m
      requires heads[b].To? ==> heads[b].p in m && m[heads[b].p].prev.To? && m[heads[b].p].prev.p in m && heads[b].p != p
      requires heads[b].To? ==> m[heads[b].p].prev.p != p
      modifies this`m, this`heads
      ensures m == InsertLinks(old(m), old(heads[b]), p)
      ensures heads == old(heads)[b := if old(heads[b]).Null? then To(p) else old(heads[b])]
    {
      if heads[b].Null? {
        heads := heads[b := To(p)];
        m := m[p := m[p].(prev := To(p))];
      }
      var head := heads[b].p;
      m := m[p := m[p].(next := To(head))];
      m := m[p := m[p].(prev := m[head].prev)];
      var last := m[head].prev.p;
      m := m[last := m[last].(next := To(p))];
      m := m[head := m[head].(prev := To(p))];
    }

    /** __insert_into_lru_list */
    method Insert(p: Ptr, b: nat)
      requires Valid() && p in m && b < NR_LIST && m[p].list == b && m[p].next == Null && m[p].prev == Null
      modifies this
      ensures Valid() && ls == old(ls)[b := old(ls)[b] + [p]] && SameState(old(m), m)
    {
      InsertInv(m, ls, heads, nr, size, p, b);
      LinkIn(p, b);
      nr := nr[b := nr[b] + 1];
      size := size[b := size[b] + m[p].size / 512];
      ls := ls[b := ls[b] + [p]];
    }

    /** The pointer work of __remove_from_lru_list. */
    method Unlink(p: Ptr, b: nat)
      requires b < |heads| && p in m && m[p].next.To? && m[p].prev.To? && m[p].next.p in m && m[p].prev.p in m
      modifies this`m, this`heads
      ensures m == RemoveLinks(old(m), p)
      ensures heads == old(heads)[b := HeadAfter(old(heads[b]), p, old(m[p].next))]
    {
      var next, prev := m[p].next.p, m[p].prev.p;
      m := m[prev := m[prev].(next := To(next))];
      m := m[next := m[next].(prev := To(prev))];
      if heads[b] == To(p) {
        heads := heads[b := if next == p then Null else To(next)];
      }
      m := m[p := m[p].(next := Null)];
      m := m[p := m[p].(prev := Null)];
    }

    /** __remove_from_lru_list */
    method Remove(p: Ptr)
      requires Valid() && p in m
      modifies this
      ensures Valid() && SameState(old(m), m) && m[p].next == Null && m[p].prev == Null
      ensures old(m[p].next).To? ==> m[p].list < NR_LIST && ls == old(ls)[m[p].list := Without(old(ls)[m[p].list], p)]
      ensures old(m[p].next).Null? ==> ls == old(ls) && m == old(m)
    {
      if m[p].next.Null? {
        NotLinked(m, ls, heads, nr, size, p);
        return;
      }
      var b := m[p].list;
      RemoveInv(m, ls, heads, nr, size, p);
      Unlink(p, b);
      nr := nr[b := nr[b] - 1];
      size := size[b := size[b] - m[p].size / 512];
      ls := ls[b := Without(ls[b], p)];
    }

    /** Setting bits of `b_state`, or the list name of an unlinked buffer. */
    method SetState(p: Ptr, dirty: bool, locked: bool, list: nat)
      requires Valid() && p in m && (m[p].next.To? ==> list == m[p].list)
      modifies this`m
      ensures Valid() && m == old(m)[p := old(m)[p].(dirty := dirty, locked := locked, list := list)]
    {
      var m' := m[p := m[p].(dirty := dirty, locked := locked, list := list)];
      FlagsInv(m, m', ls, heads, nr, size);
      m := m';
    }

    /** Finished writes: the buffers are unlocked where they stand. */
    method Complete(ps: set<Ptr>)
      requires Valid()
      modifies this`m
      ensures Valid() && m.Keys == old(m).Keys && forall q :: q in m ==> m[q].dirty == old(m)[q].dirty
    {
      var m' := map q | q in m :: if q in ps then m[q].(locked := false) else m[q];
      FlagsInv(m, m', ls, heads, nr, size);
      m := m';
    }

    /** The same, seen from the writeback. */
    method Unlock(ps: set<Ptr>)
      requires Valid()
      modifies this`m
      ensures Valid() && m.Keys == old(m).Keys && forall q :: q in m ==> m[q].dirty == old(m)[q].dirty
      ensures old(Reachable(m, ls)) ==> Reachable(m, ls)
    {
      Complete(ps);
      SameReach(old(m), m, ls);
    }

    /** The move of __refile_buffer from one list to another. */
    method MoveTo(p: Ptr, dispose: nat)
      requires Valid() && p in m && dispose < NR_LIST && dispose != m[p].list
      modifies this
      ensures Valid() && m.Keys == old(m).Keys
      ensures forall q :: q in m && q != p ==> Flags(m[q]) == Flags(old(m)[q])
      ensures Flags(m[p]) == Flags(old(m)[p].(list := dispose))
      ensures ls == Appended(if old(m[p].next).To? then Removed(old(ls), old(m[p].list), p) else old(ls), dispose, p)
      ensures p in old(ls)[BUF_DIRTY] ==> ls[BUF_DIRTY] == Without(old(ls)[BUF_DIRTY], p)
    {
      OnDirty(m, ls, heads, nr, size, p);
      Remove(p);
      SetState(p, m[p].dirty, m[p].locked, dispose);
      Insert(p, dispose);
    }

    /** __refile_buffer */
    method Refile(p: Ptr)
      requires Valid() && p in m
      modifies this
      ensures Valid() && m.Keys == old(m).Keys
      ensures forall q :: q in m && q != p ==> Flags(m[q]) == Flags(old(m)[q])
      ensures Flags(m[p]) == Flags(old(m)[p].(list := Dispose(old(m)[p])))
      ensures Dispose(old(m)[p]) == old(m)[p].list ==> m == old(m) && ls == old(ls)
      ensures Dispose(old(m)[p]) != old(m)[p].list ==>
        ls == Appended(if old(m[p].next).To? then Removed(old(ls), old(m[p].list), p) else old(ls), Dispose(old(m)[p]), p)
      ensures Dispose(old(m)[p]) != old(m)[p].list && p in old(ls)[BUF_DIRTY] ==>
        ls[BUF_DIRTY] == Without(old(ls)[BUF_DIRTY], p)
      ensures Filed(m, ls, p)
      ensures old(ReachableBut(m, ls, p)) ==> Reachable(m, ls)
      ensures old(On(ls, p)) ==> NoneNew(old(ls), ls)
    {
      ghost var m0, ls0 := m, ls;
      var dispose := BUF_CLEAN;
      if m[p].locked {
        dispose := BUF_LOCKED;
      }
      if m[p].dirty {
        dispose := BUF_DIRTY;
      }
      if dispose != m[p].list {
        MoveTo(p, dispose);
        OthersStay(ls0, if m0[p].next.To? then Removed(ls0, m0[p].list, p) else ls0, ls, m0[p].list, dispose, p);
      }
      RefileEnd(m0, ls0, m, ls, heads, nr, size, p);
    }

    /** __mark_buffer_dirty */
    method MarkDirty(p: Ptr)
      requires Valid() && p in m
      modifies this
      ensures Valid() && m.Keys == old(m).Keys && m[p].dirty
      ensures forall q :: q in m && q != p ==> Flags(m[q]) == Flags(old(m)[q])
      ensures old(Reachable(m, ls)) ==> Reachable(m, ls)
    {
      if !m[p].dirty {
        SetState(p, true, m[p].locked, m[p].list);
        DirtyOne(old(m), m, ls, p);
        Refile(p);
      }
    }

    /** The loop body of write_some_buffers for a buffer that is not passed over. */
    method WriteOne(p: Ptr, dev: nat) returns (queued: bool)
      requires Valid() && p in m && p in ls[BUF_DIRTY] && !Skips(m[p], dev)
      modifies this
      ensures Valid() && m.Keys == old(m).Keys
      ensures forall q :: q in m && q != p ==> Flags(m[q]) == Flags(old(m)[q])
      ensures Flags(m[p]) == Flags(Handled(old(m)[p], dev)) && queued == old(m)[p].dirty
      ensures ls[BUF_DIRTY] == Without(old(ls)[BUF_DIRTY], p) && NoneNew(old(ls), ls)
    {
      OnDirty(m, ls, heads, nr, size, p);
      queued := m[p].dirty;
      if m[p].dirty {
        SetState(p, false, true, m[p].list);
      }
      Refile(p);
    }

    /** One round of the loop of write_some_buffers. */
    method Visit(p: Ptr, dev: nat, sent: seq<Ptr>, ghost m0: Heap, ghost all: seq<Ptr>, ghost kept: seq<Ptr>, ghost k: nat, ghost ls0: seq<seq<Ptr>>)
      returns (next: Link, batch: seq<Ptr>, ghost kept': seq<Ptr>)
      requires Valid() && k < |all| && p == all[k] && NoneNew(ls0, ls)
      requires Walking(m0, m, ls[BUF_DIRTY], all, kept, sent, dev, k)
      modifies this
      ensures Valid() && |batch| <= |sent| + 1 && NoneNew(ls0, ls)
      ensures Walking(m0, m, ls[BUF_DIRTY], all, kept', batch, dev, k + 1)
      ensures k + 1 < |all| ==> next == To(all[k + 1])
    {
      WalkAt(m0, m, ls[BUF_DIRTY], all, kept, sent, dev, k, heads[BUF_DIRTY], nr[BUF_DIRTY], size[BUF_DIRTY]);
      next := m[p].next;
      batch, kept' := sent, kept;
      FlagsSame(m[p], m0[p], dev);
      if (dev != NODEV && m[p].dev != dev) || m[p].locked {
        SkipStep(m0, m, ls[BUF_DIRTY], all, kept, batch, dev, k);
        kept' := kept + [p];
      } else {
        Shorter(all, kept, k);
        SortStep(m0, all, kept, batch, dev, k);
        ghost var was := m;
        var queued := WriteOne(p, dev);
        TouchStep(m0, was, m, all, dev, k);
        NoneNewTrans(ls0, old(ls), ls);
        if queued {
          batch := batch + [p];
        }
      }
    }

    /** The loop of write_some_buffers. */
    method Walk(dev: nat, ghost m0: Heap, ghost all: seq<Ptr>) returns (batch: seq<Ptr>, ghost kept: seq<Ptr>, ghost k: nat)
      requires Valid() && nr[BUF_DIRTY] == |all| && (all != [] ==> heads[BUF_DIRTY] == To(all[0]))
      requires Walking(m0, m, ls[BUF_DIRTY], all, [], [], dev, 0)
      modifies this
      ensures Valid() && |batch| <= NRSYNC && k <= |all| && NoneNew(old(ls), ls)
      ensures Walking(m0, m, ls[BUF_DIRTY], all, kept, batch, dev, k)
      ensures k < |all| ==> |batch| == NRSYNC
    {
      var next := heads[BUF_DIRTY];
      var left := nr[BUF_DIRTY];
      batch, kept, k := [], [], 0;
      ghost var ls0 := ls;
      while next.To? && left > 0 && |batch| < NRSYNC
        invariant Valid() && k + left == |all| && |batch| <= NRSYNC && NoneNew(ls0, ls)
        invariant Walking(m0, m, ls[BUF_DIRTY], all, kept, batch, dev, k)
        invariant k < |all| ==> next == To(all[k])
        decreases left
      {
        left := left - 1;
        next, batch, kept := Visit(next.p, dev, batch, m0, all, kept, k, ls0);
        k := k + 1;
      }
    }

    /** write_some_buffers.  The buffers handed to the disk are returned. */
    method WriteSome(dev: nat) returns (again: bool, batch: seq<Ptr>)
      requires Valid()
      modifies this
      ensures Valid() && m.Keys == old(m).Keys
      ensures again <==> |batch| == NRSYNC
      ensures |ls[BUF_DIRTY]| + |batch| <= |old(ls)[BUF_DIRTY]|
      ensures Taken(old(m), old(ls)[BUF_DIRTY], batch, dev)
      ensures Cleaned(old(m), m, old(ls)[BUF_DIRTY], ls[BUF_DIRTY])
      ensures !again ==> Swept(old(m), m, old(ls)[BUF_DIRTY], ls[BUF_DIRTY], dev)
      ensures Sent(old(m), m, batch)
      ensures old(Reachable(m, ls)) ==> Reachable(m, ls)
    {
      ghost var all, m0, kept, k := ls[BUF_DIRTY], m, [], 0;
      WalkStart(m, all, heads[BUF_DIRTY], nr[BUF_DIRTY], size[BUF_DIRTY], dev);
      batch, kept, k := Walk(dev, m0, all);
      WalkPart(m0, m, ls[BUF_DIRTY], all, kept, batch, dev, k);
      again := |batch| == NRSYNC;
      StillReachable(old(m), old(ls), m, ls);
    }

    /** Some writes finish, and the next call is made. */
    method WriteAgain(dev: nat, ps: set<Ptr>) returns (again: bool, batch: seq<Ptr>)
      requires Valid()
      modifies this
      ensures Valid() && m.Keys == old(m).Keys
      ensures again <==> |batch| == NRSYNC
      ensures |ls[BUF_DIRTY]| + |batch| <= |old(ls)[BUF_DIRTY]|
      ensures Cleaned(old(m), m, old(ls)[BUF_DIRTY], ls[BUF_DIRTY])
      ensures !again ==> forall q :: q in ls[BUF_DIRTY] ==> q in m && Skips(m[q], dev)
      ensures old(Reachable(m, ls)) ==> Reachable(m, ls)
    {
      Unlock(ps);
      again, batch := WriteSome(dev);
    }

    /**
     * write_unlocked_buffers.  Between two calls the disk may finish any of the writes, which
     * unlocks buffers; `done` says which ones before which call.
     */
    method WriteUnlocked(dev: nat, done: nat -> set<Ptr>) returns (calls: nat)
      requires Valid()
      modifies this
      ensures Valid() && m.Keys == old(m).Keys
      ensures forall q :: q in ls[BUF_DIRTY] ==> q in m && Skips(m[q], dev)
      ensures Cleaned(old(m), m, old(ls)[BUF_DIRTY], ls[BUF_DIRTY])
      ensures |ls[BUF_DIRTY]| + NRSYNC * calls <= |old(ls)[BUF_DIRTY]|
      ensures old(Reachable(m, ls)) ==> NoneLeft(m, ls, dev)
    {
      calls := 0;
      var again, batch := WriteSome(dev);
      while again
        invariant Valid() && m.Keys == old(m).Keys
        invariant |ls[BUF_DIRTY]| + NRSYNC * (calls + if again then 1 else 0) <= |old(ls)[BUF_DIRTY]|
        invariant Cleaned(old(m), m, old(ls)[BUF_DIRTY], ls[BUF_DIRTY])
        invariant !again ==> forall q :: q in ls[BUF_DIRTY] ==> q in m && Skips(m[q], dev)
        invariant old(Reachable(m, ls)) ==> Reachable(m, ls)
        decreases |ls[BUF_DIRTY]| + if again then 1 else 0
      {
        calls := calls + 1;
        again, batch := WriteAgain(dev, done(calls));
      }
      AllReached(m, ls, dev);
    }
  }

  /** The buffers handed to the disk: each once, dirty, on the dirty list and not passed over. */
  ghost predicate Taken(m0: Heap, all: seq<Ptr>, batch: seq<Ptr>, dev: nat) {
    NoDup(batch) && forall q :: q in batch ==>
      q in all && q in m0 && m0[q].dirty && !m0[q].locked && (dev == NODEV || m0[q].dev == dev)
  }

  /** No buffer became dirty or joined the list, and one that left the list is clean. */
  ghost predicate Cleaned(m0: Heap, m: Heap, all: seq<Ptr>, l: seq<Ptr>) {
    && m.Keys == m0.Keys && (forall q :: q in m ==> m[q].dirty ==> m0[q].dirty)
    && (forall q :: q in all ==> q in m && (q in l || !m[q].dirty)) && (forall q :: q in l ==> q in all)
  }

  /** The buffers handed to the disk are exactly the dirty ones that were made clean; they are
      locked until the disk is done with them. */
  ghost predicate Sent(m0: Heap, m: Heap, batch: seq<Ptr>) {
    && m.Keys == m0.Keys
    && (forall q :: q in m && m0[q].dirty && !m[q].dirty ==> q in batch)
    && (forall q :: q in batch ==> q in m && m0[q].dirty && !m[q].dirty && m[q].locked && m[q].list == BUF_LOCKED)
  }

  /** A finished walk: every buffer of the list was handled, nothing else changed, and only passed-over ones are left. */
  ghost predicate Swept(m0: Heap, m: Heap, all: seq<Ptr>, l: seq<Ptr>, dev: nat) {
    && m.Keys == m0.Keys
    && (forall q :: q in all ==> q in m && Flags(m[q]) == Flags(Handled(m0[q], dev)))
    && (forall q :: q in m && q !in all ==> Flags(m[q]) == Flags(m0[q]))
    && (forall q :: q in l ==> q in m && Skips(m[q], dev))
  }

  /** Each of the first `k` buffers has been handled once, and no other buffer at all. */
  ghost predicate Touched(m0: Heap, m: Heap, all: seq<Ptr>, dev: nat, k: nat)
    requires k <= |all|
  {
    && m.Keys == m0.Keys
    && (forall q :: q in m0 && q in all[..k] ==> Flags(m[q]) == Flags(Handled(m0[q], dev)))
    && (forall q :: q in m0 && q !in all[..k] ==> Flags(m[q]) == Flags(m0[q]))
  }

  /** The buffers passed over, and those taken for writing. */
  ghost predicate Sorted(m0: Heap, all: seq<Ptr>, kept: seq<Ptr>, batch: seq<Ptr>, dev: nat, k: nat)
    requires k <= |all|
  {
    && |kept| + |batch| <= k && (forall q :: q in all ==> q in m0) && NoDup(batch)
    && (forall q :: q in kept ==> q in all[..k] && Skips(m0[q], dev))
    && (forall q :: q in all[..k] && Skips(m0[q], dev) ==> q in kept)
    && (forall q :: q in batch ==> q in all[..k] && m0[q].dirty && !Skips(m0[q], dev))
    && (forall q :: q in all[..k] && m0[q].dirty && !Skips(m0[q], dev) ==> q in batch)
  }

  /** The walk after `k` buffers of the list `all`: the others have left the list `l`. */
  ghost predicate Walking(m0: Heap, m: Heap, l: seq<Ptr>, all: seq<Ptr>, kept: seq<Ptr>, batch: seq<Ptr>, dev: nat, k: nat) {
    && k <= |all| && NoDup(all) && l == kept + all[k..]
    && Touched(m0, m, all, dev, k) && Sorted(m0, all, kept, batch, dev, k)
  }

  /** The next buffer of the walk and its successor. */
  lemma WalkAt(m0: Heap, m: Heap, l: seq<Ptr>, all: seq<Ptr>, kept: seq<Ptr>, batch: seq<Ptr>, dev: nat, k: nat,
               head: Link, nr: nat, size: nat)
    requires Walking(m0, m, l, all, kept, batch, dev, k) && k < |all| && ListOk(m, l, BUF_DIRTY, head, nr, size)
    ensures all[k] in m && all[k] in l && Flags(m[all[k]]) == Flags(m0[all[k]]) && all[k] !in kept && all[k] !in all[..k]
    ensures k + 1 < |all| ==> m[all[k]].next == To(all[k + 1])
  {
    var i := |kept|;
    assert l[i] == all[k];
    assert Linked(m, l, BUF_DIRTY, i);
    assert all[k] in all;
    if k + 1 < |all| {
      assert l[i + 1] == all[k + 1];
    }
  }

  lemma PrefixIn(all: seq<Ptr>, k: nat, q: Ptr)
    requires k < |all|
    ensures q in all[..k + 1] <==> q in all[..k] || q == all[k]
  {
    assert all[..k + 1] == all[..k] + [all[k]];
  }

  lemma SkipStep(m0: Heap, m: Heap, l: seq<Ptr>, all: seq<Ptr>, kept: seq<Ptr>, batch: seq<Ptr>, dev: nat, k: nat)
    requires Walking(m0, m, l, all, kept, batch, dev, k) && k < |all| && all[k] in m0 && Skips(m0[all[k]], dev)
    requires all[k] !in all[..k]
    ensures Walking(m0, m, l, all, kept + [all[k]], batch, dev, k + 1)
  {
    assert all[k..] == [all[k]] + all[k + 1..];
    Assoc(kept, [all[k]], all[k + 1..]);
    forall q: Ptr ensures q in all[..k + 1] <==> q in all[..k] || q == all[k] {
      PrefixIn(all, k, q);
    }
  }

  lemma Shorter(all: seq<Ptr>, kept: seq<Ptr>, k: nat)
    requires k < |all| && NoDup(all) && all[k] !in kept
    ensures Without(kept + all[k..], all[k]) == kept + all[k + 1..]
  {
    var p := all[k];
    WithoutAppend(kept, all[k..], p);
    assert all[k..] == [p] + all[k + 1..];
    WithoutAppend([p], all[k + 1..], p);
    assert p !in all[k + 1..];
  }

  lemma TouchStep(m0: Heap, was: Heap, m: Heap, all: seq<Ptr>, dev: nat, k: nat)
    requires k < |all| && Touched(m0, was, all, dev, k) && all[k] in m0 && all[k] !in all[..k] && m.Keys == was.Keys
    requires Flags(m[all[k]]) == Flags(Handled(m0[all[k]], dev))
    requires forall q :: q in m && q != all[k] ==> Flags(m[q]) == Flags(was[q])
    ensures Touched(m0, m, all, dev, k + 1)
  {
    forall q: Ptr ensures q in all[..k + 1] <==> q in all[..k] || q == all[k] {
      PrefixIn(all, k, q);
    }
  }

  lemma SortStep(m0: Heap, all: seq<Ptr>, kept: seq<Ptr>, batch: seq<Ptr>, dev: nat, k: nat)
    requires k < |all| && Sorted(m0, all, kept, batch, dev, k) && all[k] in m0 && all[k] !in all[..k] && !Skips(m0[all[k]], dev)
    ensures m0[all[k]].dirty ==> Sorted(m0, all, kept, batch + [all[k]], dev, k + 1)
    ensures !m0[all[k]].dirty ==> Sorted(m0, all, kept, batch, dev, k + 1)
  {
    forall q: Ptr ensures q in all[..k + 1] <==> q in all[..k] || q == all[k] {
      PrefixIn(all, k, q);
    }
    assert all[k] !in batch;
  }

  lemma FlagsSame(b: Buffer, c: Buffer, dev: nat)
    requires Flags(b) == Flags(c)
    ensures Flags(Handled(b, dev)) == Flags(Handled(c, dev)) && Skips(b, dev) == Skips(c, dev)
  {
  }

  lemma WalkStart(m: Heap, all: seq<Ptr>, head: Link, nr: nat, size: nat, dev: nat)
    requires ListOk(m, all, BUF_DIRTY, head, nr, size)
    ensures Walking(m, m, all, all, [], [], dev, 0) && nr == |all| && (all != [] ==> head == To(all[0]))
  {
    InHeap(m, all, BUF_DIRTY);
    assert all[0..] == all;
  }

  lemma WalkCleans(m0: Heap, m: Heap, l: seq<Ptr>, all: seq<Ptr>, kept: seq<Ptr>, batch: seq<Ptr>, dev: nat, k: nat)
    requires Walking(m0, m, l, all, kept, batch, dev, k)
    ensures Cleaned(m0, m, all, l)
  {
    forall q | q in m ensures m[q].dirty ==> m0[q].dirty {
      if q in all[..k] {
        assert Flags(m[q]) == Flags(Handled(m0[q], dev));
      } else {
        assert Flags(m[q]) == Flags(m0[q]);
      }
    }
    assert all == all[..k] + all[k..];
    forall q | q in all && q !in l ensures q in m && !m[q].dirty {
      assert Flags(m[q]) == Flags(Handled(m0[q], dev));
    }
  }

  lemma WalkSends(m0: Heap, m: Heap, l: seq<Ptr>, all: seq<Ptr>, kept: seq<Ptr>, batch: seq<Ptr>, dev: nat, k: nat)
    requires Walking(m0, m, l, all, kept, batch, dev, k)
    ensures Sent(m0, m, batch)
  {
    forall q | q in m && m0[q].dirty && !m[q].dirty ensures q in batch {
      assert q !in all[..k] ==> Flags(m[q]) == Flags(m0[q]);
      assert q in all[..k] ==> Flags(m[q]) == Flags(Handled(m0[q], dev));
    }
    forall q | q in batch ensures q in m && m0[q].dirty && !m[q].dirty && m[q].locked && m[q].list == BUF_LOCKED {
      assert q in all[..k] && q in all;
      assert Flags(m[q]) == Flags(Handled(m0[q], dev));
    }
  }

  // ---------------------------------------------------------------- dirty buffers stay in reach

  lemma NoneNewTrans(ls0: seq<seq<Ptr>>, ls1: seq<seq<Ptr>>, ls: seq<seq<Ptr>>)
    requires NoneNew(ls0, ls1) && NoneNew(ls1, ls)
    ensures NoneNew(ls0, ls)
  {
  }

  lemma SameReach(m0: Heap, m: Heap, ls: seq<seq<Ptr>>)
    requires m.Keys == m0.Keys && forall q :: q in m ==> m[q].dirty == m0[q].dirty
    ensures Reachable(m0, ls) ==> Reachable(m, ls)
  {
    forall q | Reachable(m0, ls) ensures InReach(m, ls, q) {
      assert InReach(m0, ls, q);
    }
  }

  lemma DirtyOne(m0: Heap, m: Heap, ls: seq<seq<Ptr>>, p: Ptr)
    requires m.Keys == m0.Keys && forall q :: q in m && q != p ==> m[q] == m0[q]
    ensures Reachable(m0, ls) ==> ReachableBut(m, ls, p)
  {
    forall q | Reachable(m0, ls) && q != p ensures InReach(m, ls, q) {
      assert InReach(m0, ls, q);
    }
  }

  /** The writeback puts no dirty buffer out of reach. */
  lemma StillReachable(m0: Heap, ls0: seq<seq<Ptr>>, m: Heap, ls: seq<seq<Ptr>>)
    requires |ls0| == |ls| == NR_LIST && Cleaned(m0, m, ls0[BUF_DIRTY], ls[BUF_DIRTY]) && NoneNew(ls0, ls)
    ensures Reachable(m0, ls0) ==> Reachable(m, ls)
  {
    forall q | Reachable(m0, ls0) ensures InReach(m, ls, q) {
      assert InReach(m0, ls0, q);
    }
  }

  lemma AllReached(m: Heap, ls: seq<seq<Ptr>>, dev: nat)
    requires |ls| == NR_LIST && forall q :: q in ls[BUF_DIRTY] ==> q in m && Skips(m[q], dev)
    ensures Reachable(m, ls) ==> NoneLeft(m, ls, dev)
  {
    forall q | Reachable(m, ls) && q in m && m[q].dirty && On(ls, q) ensures Skips(m[q], dev) {
      assert InReach(m, ls, q);
    }
  }

  /** Where a buffer is, in terms of its link and the list it names. */
  lemma OnIff(m: Heap, ls: seq<seq<Ptr>>, heads: seq<Link>, nr: seq<nat>, size: seq<nat>, p: Ptr)
    requires Inv(m, ls, heads, nr, size) && p in m
    ensures On(ls, p) <==> m[p].next.To?
    ensures On(ls, p) ==> m[p].list < NR_LIST && forall b: nat :: b < NR_LIST ==> (p in ls[b] <==> b == m[p].list)
  {
    if m[p].next.To? {
      var k := Position(m, ls, heads, nr, size, p);
    } else {
      NotLinked(m, ls, heads, nr, size, p);
    }
  }

  lemma OthersStay(ls0: seq<seq<Ptr>>, ls1: seq<seq<Ptr>>, ls: seq<seq<Ptr>>, list: nat, dispose: nat, p: Ptr)
    requires |ls0| == NR_LIST && (ls1 == ls0 || ls1 == Removed(ls0, list, p)) && ls == Appended(ls1, dispose, p)
    ensures |ls| == NR_LIST && OthersSame(ls0, ls, p)
  {
  }

  /** Every list has the same members, not counting `p`. */
  ghost predicate OthersSame(ls0: seq<seq<Ptr>>, ls: seq<seq<Ptr>>, p: Ptr) {
    |ls| == |ls0| && forall b: nat, q: Ptr :: b < |ls| && q != p ==> (q in ls[b] <==> q in ls0[b])
  }

  /** The lists differ by `p` only, and `p` is where its state wants it. */
  lemma RefileEnd(m0: Heap, ls0: seq<seq<Ptr>>, m: Heap, ls: seq<seq<Ptr>>, heads: seq<Link>, nr: seq<nat>, size: seq<nat>, p: Ptr)
    requires Inv(m, ls, heads, nr, size) && p in m && m.Keys == m0.Keys && |ls0| == NR_LIST
    requires forall q :: q in m && q != p ==> m[q].dirty == m0[q].dirty
    requires m[p].list == Dispose(m[p])
    requires OthersSame(ls0, ls, p)
    ensures Filed(m, ls, p)
    ensures ReachableBut(m0, ls0, p) ==> Reachable(m, ls)
    ensures On(ls0, p) ==> NoneNew(ls0, ls)
  {
    OnIff(m, ls, heads, nr, size, p);
    forall q ensures q != p ==> (On(ls, q) <==> On(ls0, q)) {
    }
    forall q | ReachableBut(m0, ls0, p) ensures InReach(m, ls, q) {
      assert q != p ==> InReach(m0, ls0, q);
    }
  }

  lemma WalkPart(m0: Heap, m: Heap, l: seq<Ptr>, all: seq<Ptr>, kept: seq<Ptr>, batch: seq<Ptr>, dev: nat, k: nat)
    requires Walking(m0, m, l, all, kept, batch, dev, k)
    ensures Taken(m0, all, batch, dev) && |l| + |batch| <= |all| && m.Keys == m0.Keys
    ensures Cleaned(m0, m, all, l) && Sent(m0, m, batch)
    ensures k == |all| ==> Swept(m0, m, all, l, dev)
  {
    WalkCleans(m0, m, l, all, kept, batch, dev, k);
    WalkSends(m0, m, l, all, kept, batch, dev, k);
    if k == |all| {
      WalkDone(m0, m, l, all, kept, batch, dev);
    }
  }

  lemma WalkDone(m0: Heap, m: Heap, l: seq<Ptr>, all: seq<Ptr>, kept: seq<Ptr>, batch: seq<Ptr>, dev: nat)
    requires Walking(m0, m, l, all, kept, batch, dev, |all|)
    ensures Swept(m0, m, all, l, dev)
  {
    assert all[..|all|] == all && all[|all|..] == [];
    assert l == kept;
    forall q | q in l ensures q in m && Skips(m[q], dev) {
      assert Flags(m[q]) == Flags(Handled(m0[q], dev));
    }
  }

  /** A buffer on the dirty list is linked and names that list. */
  lemma OnDirty(m: Heap, ls: seq<seq<Ptr>>, heads: seq<Link>, nr: seq<nat>, size: seq<nat>, p: Ptr)
    requires Inv(m, ls, heads, nr, size) && p in m
    ensures p in ls[BUF_DIRTY] ==> m[p].next.To? && m[p].list == BUF_DIRTY
  {
    var l := ls[BUF_DIRTY];
    assert ListOk(m, l, BUF_DIRTY, heads[BUF_DIRTY], nr[BUF_DIRTY], size[BUF_DIRTY]);
    if p in l {
      var i :| 0 <= i < |l| && l[i] == p;
      assert Linked(m, l, BUF_DIRTY, i);
    }
  }

  function HeadAfter(head: Link, p: Ptr, next: Link): Link {
    if head != To(p) then head else if next == To(p) then Null else next
  }

  lemma InsertSame(m: Heap, head: Link, p: Ptr)
    requires p in m && (head.To? ==> head.p in m && m[head.p].prev.To? && m[head.p].prev.p in m)
    ensures SameState(m, InsertLinks(m, head, p))
  {
  }

  lemma RemoveSame(m: Heap, p: Ptr)
    requires p in m && m[p].next.To? && m[p].prev.To? && m[p].next.p in m && m[p].prev.p in m
    ensures SameState(m, RemoveLinks(m, p))
  {
  }

  lemma InHeap(m: Heap, l: seq<Ptr>, b: nat)
    requires Ring(m, l, b)
    ensures forall q :: q in l ==> q in m
  {
    forall q | q in l ensures q in m {
      var i :| 0 <= i < |l| && l[i] == q;
      assert Linked(m, l, b, i);
    }
  }

  /** What inserting does to the one list. */
  lemma InsertList(m: Heap, l: seq<Ptr>, b: nat, head: Link, nr: nat, size: nat, p: Ptr)
    requires ListOk(m, l, b, head, nr, size) && p in m && p !in l && m[p].list == b
    ensures head.To? ==> head.p in m && m[head.p].prev.To? && m[head.p].prev.p in m
    ensures head.To? ==> head.p != p && m[head.p].prev.p != p
    ensures
      var m' := InsertLinks(m, head, p);
      && SameState(m, m') && Outside(m, m', l, p) && Ring(m', l + [p], b)
      && Total(m', l + [p]) == size + m'[p].size / 512
      && Head(l + [p]) == if head.Null? then To(p) else head
  {
    InsertRing(m, l, b, p);
    InsertOutside(m, l, b, p);
    InsertSame(m, head, p);
    if l != [] {
      Neighbours(m, l, b, 0);
      assert l[0] in l && l[Pred(|l|, 0)] in l;
    }
    InHeap(m, l, b);
    InsertTotal(m, InsertLinks(m, head, p), l, p);
  }

  lemma InsertInv(m: Heap, ls: seq<seq<Ptr>>, heads: seq<Link>, nr: seq<nat>, size: seq<nat>, p: Ptr, b: nat)
    requires Inv(m, ls, heads, nr, size) && p in m && b < NR_LIST && m[p].list == b && m[p].next == Null
    ensures heads[b].To? ==> heads[b].p in m && m[heads[b].p].prev.To? && m[heads[b].p].prev.p in m
    ensures heads[b].To? ==> heads[b].p != p && m[heads[b].p].prev.p != p
    ensures
      var m' := InsertLinks(m, heads[b], p);
      SameState(m, m') &&
      Inv(m', ls[b := ls[b] + [p]], heads[b := if heads[b].Null? then To(p) else heads[b]], nr[b := nr[b] + 1],
        size[b := size[b] + m'[p].size / 512])
  {
    NotLinked(m, ls, heads, nr, size, p);
    assert ListOk(m, ls[b], b, heads[b], nr[b], size[b]);
    InsertList(m, ls[b], b, heads[b], nr[b], size[b], p);
    Replace(m, InsertLinks(m, heads[b], p), ls, heads, nr, size, b, ls[b] + [p], p);
  }

  /** What removing does to the one list. */
  lemma RemoveList(m: Heap, l: seq<Ptr>, b: nat, head: Link, nr: nat, size: nat, k: nat)
    requires ListOk(m, l, b, head, nr, size) && k < |l|
    ensures l[k] in m && m[l[k]].next.To? && m[l[k]].prev.To? && m[l[k]].next.p in m && m[l[k]].prev.p in m
    ensures
      var m', l' := RemoveLinks(m, l[k]), Without(l, l[k]);
      && SameState(m, m') && Outside(m, m', l, l[k]) && Ring(m', l', b) && m'[l[k]].next == Null && m'[l[k]].prev == Null
      && |l'| == nr - 1 && Total(m', l') == size - m'[l[k]].size / 512
      && Head(l') == HeadAfter(head, l[k], m[l[k]].next)
  {
    RemoveRing(m, l, b, k);
    RemoveOutside(m, l, b, k);
    RemoveSame(m, l[k]);
    HeadIs(l, k);
    InHeap(m, l, b);
    RemoveTotal(m, RemoveLinks(m, l[k]), l, k);
    WithoutSplit(l, k);
  }

  lemma RemoveInv(m: Heap, ls: seq<seq<Ptr>>, heads: seq<Link>, nr: seq<nat>, size: seq<nat>, p: Ptr)
    requires Inv(m, ls, heads, nr, size) && p in m && m[p].next.To?
    ensures m[p].list < NR_LIST && m[p].prev.To? && m[p].next.p in m && m[p].prev.p in m
    ensures
      var b, m' := m[p].list, RemoveLinks(m, p);
      SameState(m, m') && nr[b] > 0 && m'[p].size / 512 <= size[b] && m'[p].next == Null && m'[p].prev == Null &&
      Inv(m', ls[b := Without(ls[b], p)], heads[b := HeadAfter(heads[b], p, m[p].next)], nr[b := nr[b] - 1],
        size[b := size[b] - m'[p].size / 512])
  {
    var k := Position(m, ls, heads, nr, size, p);
    var b := m[p].list;
    var l := ls[b];
    assert ListOk(m, l, b, heads[b], nr[b], size[b]) && l[k] == p;
    RemoveList(m, l, b, heads[b], nr[b], size[b], k);
    var m', l' := RemoveLinks(m, p), Without(l, p);
    assert |l'| == nr[b] - 1 && Total(m', l') == size[b] - m'[p].size / 512;
    Replace(m, m', ls, heads, nr, size, b, l', p);
  }

  lemma HeadIs(l: seq<Ptr>, k: nat)
    requires k < |l| && NoDup(l)
    ensures Head(l) == To(l[k]) <==> k == 0
  {
  }

  /** An unlinked buffer is on no list. */
  lemma NotLinked(m: Heap, ls: seq<seq<Ptr>>, heads: seq<Link>, nr: seq<nat>, size: seq<nat>, p: Ptr)
    requires Inv(m, ls, heads, nr, size) && p in m && m[p].next == Null
    ensures p !in ls[0] && p !in ls[1] && p !in ls[2] && m[p].prev == Null
  {
    forall b: nat | b < NR_LIST ensures p !in ls[b] {
      var l := ls[b];
      assert ListOk(m, l, b, heads[b], nr[b], size[b]);
      forall i: nat | i < |l| ensures l[i] != p {
        assert Linked(m, l, b, i);
      }
    }
    assert OnOne(m, ls, p);
  }

  lemma InsertTotal(m: Heap, m': Heap, l: seq<Ptr>, p: Ptr)
    requires Outside(m, m', l, p) && p in m && forall q :: q in l ==> q in m
    ensures Total(m', l + [p]) == Total(m, l) + m'[p].size / 512 && |l + [p]| == |l| + 1
  {
    TotalAppend(m', l, [p]);
    TotalSame(m, m', l);
  }

  lemma RemoveTotal(m: Heap, m': Heap, l: seq<Ptr>, k: nat)
    requires k < |l| && NoDup(l) && Outside(m, m', l, l[k]) && forall q :: q in l ==> q in m
    ensures Total(m', Cut(l, k)) == Total(m, l) - m'[l[k]].size / 512 && |Cut(l, k)| == |l| - 1
  {
    TotalSame(m, m', l);
    TotalCut(m', l, k);
  }
}
