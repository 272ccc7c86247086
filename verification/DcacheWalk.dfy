/** The stackless walk of `select_parent`: the order in which it visits the descendants of a
    dentry, and what it does to the unused list. */
module DcacheWalk {
  import opened Seqs
  import opened DcacheModel
  import opened DcacheMove

  ghost predicate Walkable(live: map<Id, Dentry>, rank: map<Id, nat>, top: nat) {
    TreeOk(live) && RankOk(live, rank) && forall x :: x in rank ==> rank[x] <= top
  }

  /** Preorder of everything below `p`, starting with its `i`-th child. */
  ghost function From(live: map<Id, Dentry>, rank: map<Id, nat>, top: nat, p: Id, i: nat): seq<Id>
    requires Walkable(live, rank, top) && p in live && i <= |live[p].subdirs|
    decreases top - rank[p], |live[p].subdirs| - i
  {
    if i == |live[p].subdirs| then []
    else
      var x := live[p].subdirs[i];
      assert Node(live, p) && Ranked(live, rank, x);
      [x] + From(live, rank, top, x, 0) + From(live, rank, top, p, i + 1)
  }

  lemma ChildOf(live: map<Id, Dentry>, p: Id, i: nat)
    requires TreeOk(live) && p in live && i < |live[p].subdirs|
    ensures var x := live[p].subdirs[i]; x in live && x != p && live[x].parent == p
  {
    assert Node(live, p);
  }

  lemma {:induction false} AncestorTrans(live: map<Id, Dentry>, a: Id, b: Id, x: Id)
    requires TreeOk(live) && x in live && Ancestor(live, a, b) && Ancestor(live, b, x)
    ensures Ancestor(live, a, x)
  {
    var n: nat :| Up(live, x, n) == b;
    AncestorTransAt(live, a, b, x, n);
  }

  lemma {:induction false} AncestorTransAt(live: map<Id, Dentry>, a: Id, b: Id, x: Id, n: nat)
    requires TreeOk(live) && x in live && Ancestor(live, a, b) && Up(live, x, n) == b
    ensures Ancestor(live, a, x)
    decreases n
  {
    if n > 0 {
      assert Node(live, x);
      AncestorTransAt(live, a, b, live[x].parent, n - 1);
      AncestorStep(live, a, x);
    }
  }

  /** The walk visits only descendants ... */
  lemma {:induction false} FromSound(live: map<Id, Dentry>, rank: map<Id, nat>, top: nat, p: Id, i: nat, x: Id)
    requires Walkable(live, rank, top) && p in live && i <= |live[p].subdirs|
    requires x in From(live, rank, top, p, i)
    ensures x in live && x != p && Ancestor(live, p, x)
    ensures exists j :: i <= j < |live[p].subdirs| && Ancestor(live, live[p].subdirs[j], x)
    decreases top - rank[p], |live[p].subdirs| - i
  {
    var y := live[p].subdirs[i];
    ChildOf(live, p, i);
    assert Ranked(live, rank, y);
    AncestorStep(live, y, y);
    AncestorStep(live, p, p);
    AncestorStep(live, p, y);
    if x in From(live, rank, top, p, i + 1) {
      FromSound(live, rank, top, p, i + 1, x);
    } else {
      if x != y {
        FromSound(live, rank, top, y, 0, x);
        AncestorTrans(live, p, y, x);
      }
      assert Ancestor(live, live[p].subdirs[i], x);
      var n: nat :| Up(live, x, n) == y;
      UpRank(live, rank, x, n);
    }
  }

  /** ... and all of them. */
  lemma {:induction false} FromComplete(live: map<Id, Dentry>, rank: map<Id, nat>, top: nat, p: Id, i: nat, j: nat, x: Id)
    requires Walkable(live, rank, top) && p in live && i <= j < |live[p].subdirs|
    requires x in live && Ancestor(live, live[p].subdirs[j], x)
    ensures x in From(live, rank, top, p, i)
    decreases top - rank[p], |live[p].subdirs| - i
  {
    var y := live[p].subdirs[i];
    ChildOf(live, p, i);
    assert Ranked(live, rank, y);
    if i < j {
      FromComplete(live, rank, top, p, i + 1, j, x);
    } else if x != y {
      var k := ChildToward(live, y, x);
      FromComplete(live, rank, top, y, 0, k, x);
    }
  }

  /** The child of `a` on the way down to `x`. */
  lemma ChildToward(live: map<Id, Dentry>, a: Id, x: Id) returns (k: nat)
    requires TreeOk(live) && x in live && a in live && x != a && Ancestor(live, a, x)
    ensures k < |live[a].subdirs| && Ancestor(live, live[a].subdirs[k], x)
  {
    var n: nat :| Up(live, x, n) == a;
    k := ChildTowardAt(live, a, x, n);
  }

  lemma {:induction false} ChildTowardAt(live: map<Id, Dentry>, a: Id, x: Id, n: nat) returns (k: nat)
    requires TreeOk(live) && x in live && a in live && x != a && Up(live, x, n) == a
    ensures k < |live[a].subdirs| && Ancestor(live, live[a].subdirs[k], x)
    decreases n
  {
    assert Node(live, x);
    var y := live[x].parent;
    if y == a {
      k :| 0 <= k < |live[a].subdirs| && live[a].subdirs[k] == x;
      AncestorStep(live, x, x);
    } else {
      k := ChildTowardAt(live, a, y, n - 1);
      AncestorStep(live, live[a].subdirs[k], x);
    }
  }

  /** Everything below a dentry, once more as a set. */
  lemma BelowExact(live: map<Id, Dentry>, rank: map<Id, nat>, top: nat, p: Id, x: Id)
    requires Walkable(live, rank, top) && p in live
    ensures x in From(live, rank, top, p, 0) <==> x in live && x != p && Ancestor(live, p, x)
  {
    if x in From(live, rank, top, p, 0) {
      FromSound(live, rank, top, p, 0, x);
    }
    if x in live && x != p && Ancestor(live, p, x) {
      var k := ChildToward(live, p, x);
      FromComplete(live, rank, top, p, 0, k, x);
    }
  }

  lemma {:induction false} UpTotal(live: map<Id, Dentry>, x: Id, n: nat, m: nat)
    requires TreeOk(live) && x in live && n <= m
    ensures Up(live, x, n) in live && Up(live, Up(live, x, n), m - n) == Up(live, x, m)
    decreases n
  {
    assert Node(live, x);
    if n > 0 {
      UpTotal(live, live[x].parent, n - 1, m - 1);
    }
  }

  lemma SiblingsOrdered(live: map<Id, Dentry>, a: Id, b: Id, x: Id, n: nat, m: nat)
    requires TreeOk(live) && Acyclic(live) && x in live && a in live && b in live
    requires live[a].parent == live[b].parent && live[b].parent != b
    requires Up(live, x, n) == a && Up(live, x, m) == b && n <= m
    ensures a == b
  {
    ParentNotBelow(live, b);
    UpTotal(live, x, n, m);
    AncestorStep(live, b, a);
  }

  /** Subtrees of different children do not meet. */
  lemma SiblingsApart(live: map<Id, Dentry>, a: Id, b: Id, x: Id)
    requires TreeOk(live) && Acyclic(live) && x in live && a in live && b in live
    requires live[a].parent == live[b].parent && live[a].parent != a && live[b].parent != b
    requires Ancestor(live, a, x) && Ancestor(live, b, x)
    ensures a == b
  {
    var n: nat :| Up(live, x, n) == a;
    var m: nat :| Up(live, x, m) == b;
    if n <= m {
      SiblingsOrdered(live, a, b, x, n, m);
    } else {
      SiblingsOrdered(live, b, a, x, m, n);
    }
  }

  lemma NoDupJoin(x: Id, s: seq<Id>, t: seq<Id>)
    requires NoDup(s) && NoDup(t) && x !in s && x !in t && forall y :: y in s ==> y !in t
    ensures NoDup([x] + s + t)
  {
    var r := [x] + s + t;
    forall i, j | 0 <= i < j < |r| ensures r[i] != r[j] {
      assert r[j] == if j <= |s| then s[j - 1] else t[j - 1 - |s|];
      assert r[j] in s || r[j] in t;
      if i > 0 {
        assert r[i] == if i <= |s| then s[i - 1] else t[i - 1 - |s|];
        assert i <= |s| ==> r[i] in s;
      }
    }
  }

  /** Each descendant is visited once. */
  lemma {:induction false} FromNoDup(live: map<Id, Dentry>, rank: map<Id, nat>, top: nat, p: Id, i: nat)
    requires Walkable(live, rank, top) && p in live && i <= |live[p].subdirs|
    ensures NoDup(From(live, rank, top, p, i))
    decreases top - rank[p], |live[p].subdirs| - i
  {
    if i < |live[p].subdirs| {
      var y := live[p].subdirs[i];
      ChildOf(live, p, i);
      assert Ranked(live, rank, y);
      var s, t := From(live, rank, top, y, 0), From(live, rank, top, p, i + 1);
      FromNoDup(live, rank, top, y, 0);
      FromNoDup(live, rank, top, p, i + 1);
      AncestorStep(live, y, y);
      forall z | z in t ensures !Ancestor(live, y, z) {
        FromSound(live, rank, top, p, i + 1, z);
        var j :| i + 1 <= j < |live[p].subdirs| && Ancestor(live, live[p].subdirs[j], z);
        ChildOf(live, p, j);
        assert Node(live, p);
        if Ancestor(live, y, z) {
          SiblingsApart(live, y, live[p].subdirs[j], z);
        }
      }
      forall z | z in s ensures z != y && Ancestor(live, y, z) {
        FromSound(live, rank, top, y, 0, z);
      }
      NoDupJoin(y, s, t);
    }
  }

  // ---------------------------------------------------------------- the position of the walk

  function IndexOf(s: seq<Id>, x: Id): (i: nat)
    requires x in s
    ensures i < |s| && s[i] == x
  {
    if s[0] == x then 0 else 1 + IndexOf(s[1..], x)
  }

  /** What remains above `p`: going up as `d_child.next` and `d_parent` lead, the rest of every
      level up to `root`. */
  ghost function Above(live: map<Id, Dentry>, rank: map<Id, nat>, top: nat, root: Id, p: Id): seq<Id>
    requires Walkable(live, rank, top) && root in live && p in live && Ancestor(live, root, p)
    decreases rank[p]
  {
    if p == root then []
    else
      var q := live[p].parent;
      assert Node(live, p) && Ranked(live, rank, p) && q != p && Ancestor(live, root, q) by {
        WayUp(live, root, p);
      }
      From(live, rank, top, q, IndexOf(live[q].subdirs, p) + 1) + Above(live, rank, top, root, q)
  }

  /** What is still to be visited at child `i` of `p`. */
  ghost function Rest(live: map<Id, Dentry>, rank: map<Id, nat>, top: nat, root: Id, p: Id, i: nat): seq<Id>
    requires Walkable(live, rank, top) && root in live && p in live && i <= |live[p].subdirs|
    requires Ancestor(live, root, p)
  {
    From(live, rank, top, p, i) + Above(live, rank, top, root, p)
  }

  lemma WayUp(live: map<Id, Dentry>, root: Id, p: Id)
    requires TreeOk(live) && p in live && p != root && Ancestor(live, root, p)
    ensures live[p].parent != p && Ancestor(live, root, live[p].parent)
  {
    AncestorStep(live, root, p);
    if live[p].parent == p {
      var n: nat :| Up(live, p, n) == root;
      UpRoot(live, p, n);
    }
  }

  lemma {:induction false} UpRoot(live: map<Id, Dentry>, p: Id, n: nat)
    requires p in live && live[p].parent == p
    ensures Up(live, p, n) == p
    decreases n
  {
    if n > 0 {
      UpRoot(live, p, n - 1);
    }
  }

  lemma BelowRoot(live: map<Id, Dentry>, root: Id, p: Id, i: nat)
    requires TreeOk(live) && Acyclic(live) && p in live && i < |live[p].subdirs| && Ancestor(live, root, p)
    ensures var x := live[p].subdirs[i]; x in live && Ancestor(live, root, x) && x != root && live[x].parent == p
    ensures IndexOf(live[p].subdirs, live[p].subdirs[i]) == i
  {
    var x := live[p].subdirs[i];
    ChildOf(live, p, i);
    AncestorStep(live, root, x);
    if x == root {
      ParentNotBelow(live, root);
    }
    assert Node(live, p);
  }

  /** Visiting child `x` and entering it leaves its subtree and then the rest of the level. */
  lemma {:induction false} RestDown(live: map<Id, Dentry>, rank: map<Id, nat>, top: nat, root: Id, p: Id, i: nat, x: Id)
    requires Walkable(live, rank, top) && root in live && p in live && i < |live[p].subdirs|
    requires Ancestor(live, root, p) && x == live[p].subdirs[i]
    ensures x in live && Ancestor(live, root, x)
    ensures Above(live, rank, top, root, x) == Rest(live, rank, top, root, p, i + 1)
    ensures Rest(live, rank, top, root, p, i) == [x] + Rest(live, rank, top, root, x, 0)
  {
    BelowRoot(live, root, p, i);
    var sub, level, up := From(live, rank, top, x, 0), From(live, rank, top, p, i + 1), Above(live, rank, top, root, p);
    assert From(live, rank, top, p, i) == [x] + sub + level;
    assert ([x] + sub + level) + up == [x] + (sub + (level + up));
  }

  /** At the end of a level the walk resumes behind `p` in its parent's level. */
  lemma {:induction false} RestUp(live: map<Id, Dentry>, rank: map<Id, nat>, top: nat, root: Id, p: Id)
    requires Walkable(live, rank, top) && root in live && p in live && p != root && Ancestor(live, root, p)
    ensures var q := live[p].parent;
            && q in live && p in live[q].subdirs && rank[q] < rank[p] && Ancestor(live, root, q)
            && Rest(live, rank, top, root, q, IndexOf(live[q].subdirs, p) + 1) ==
               Rest(live, rank, top, root, p, |live[p].subdirs|)
  {
    WayUp(live, root, p);
    assert Node(live, p) && Ranked(live, rank, p);
    var q := live[p].parent;
    var r := Rest(live, rank, top, root, q, IndexOf(live[q].subdirs, p) + 1);
    assert r == Above(live, rank, top, root, p);
    assert r == [] + r;
  }

  // ---------------------------------------------------------------- the unused list

  /** The zero-count dentries among those visited. */
  function Zeros(live: map<Id, Dentry>, xs: seq<Id>): seq<Id> {
    if xs == [] then []
    else
      var x := xs[|xs| - 1];
      Zeros(live, xs[..|xs| - 1]) + (if x in live && live[x].count == 0 then [x] else [])
  }

  /** `list_del` and `list_add(.., dentry_unused.prev)` for each of them in turn. */
  function Retail(live: map<Id, Dentry>, unused: seq<Id>, xs: seq<Id>): seq<Id> {
    if xs == [] then unused
    else
      var x := xs[|xs| - 1];
      var u := Retail(live, unused, xs[..|xs| - 1]);
      if x in live && live[x].count == 0 then Without(u, x) + [x] else u
  }

  lemma {:induction false} ZerosIn(live: map<Id, Dentry>, xs: seq<Id>, x: Id)
    ensures x in Zeros(live, xs) <==> x in xs && x in live && live[x].count == 0
  {
    if xs != [] {
      ZerosIn(live, xs[..|xs| - 1], x);
      assert xs == xs[..|xs| - 1] + [xs[|xs| - 1]];
    }
  }

  /** Moving one entry behind a tail that does not contain it. */
  lemma {:induction false} MoveToTail(u: seq<Id>, z: seq<Id>, x: Id)
    requires NoDup(u) && x in u && x !in z && |z| <= |u| && u[|u| - |z|..] == z
    ensures var r := Without(u, x) + [x];
            && NoDup(r) && |r| == |u| && (forall y :: y in r <==> y in u)
            && |z| + 1 <= |r| && r[|r| - |z| - 1..] == z + [x]
  {
    WithoutNoDup(u, x);
    var cut := |u| - |z|;
    assert u == u[..cut] + z;
    WithoutAppend(u[..cut], z, x);
    var pre := Without(u[..cut], x);
    assert Without(u, x) == pre + z;
    assert Without(u, x) + [x] == pre + (z + [x]);
  }

  /** The walk moves exactly the zero-count descendants, in visiting order, to the end that
      `prune_dcache` takes from, and keeps the list's members. */
  lemma {:induction false} RetailTail(live: map<Id, Dentry>, unused: seq<Id>, xs: seq<Id>)
    requires UnusedOk(live, unused) && NoDup(xs)
    ensures var r, z := Retail(live, unused, xs), Zeros(live, xs);
            && NoDup(r) && |r| == |unused| && (forall x :: x in r <==> x in unused)
            && |z| <= |r| && r[|r| - |z|..] == z
  {
    if xs != [] {
      var x, ys := xs[|xs| - 1], xs[..|xs| - 1];
      RetailTail(live, unused, ys);
      var u, z := Retail(live, unused, ys), Zeros(live, ys);
      if x in live && live[x].count == 0 {
        assert Listed(live, unused, x);
        assert x !in ys;
        ZerosIn(live, ys, x);
        MoveToTail(u, z, x);
      }
    }
  }
}
