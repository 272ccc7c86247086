/** `d_lookup` and `d_move`: what lookups find, before and after a rename, and when a rename keeps
    the dentries a forest. */
module DcacheMove {
  import opened Options
  import opened Seqs
  import opened DcacheModel
  import opened DcacheSafety

  // ---------------------------------------------------------------- lookup

  function KeyOf(c: Cache, d: Id): Key
    requires d in c.live
  {
    Key(c.live[d].parent, c.live[d].hash, Text(c, d))
  }

  /** A lookup succeeds exactly when some hashed child of that parent bears that name, and then
      returns such a child. */
  lemma FindExact(c: Cache, ext: map<Id, nat>, h: HashFn, k: Key)
    requires Inv(c, ext, h)
    ensures Find(c, h, k).Some? <==> exists d :: d in c.live && c.live[d].hashed && KeyOf(c, d) == k
    ensures Find(c, h, k).Some? ==>
      var d := Find(c, h, k).value; d in c.live && c.live[d].hashed && KeyOf(c, d) == k
  {
    var b := h(k.parent, k.hash);
    ScanIn(c, c.table[b], k);
    assert ChainOk(c.live, c.table, h, b);
    forall d | d in c.live && c.live[d].hashed && KeyOf(c, d) == k ensures Find(c, h, k).Some? {
      assert Bucketed(c.live, c.table, h, d) && NameFits(c.live, c.bufs, d);
      assert Matches(c, d, k);
    }
  }

  lemma MatchesKey(c: Cache, d: Id, k: Key)
    requires d in c.live && NameFits(c.live, c.bufs, d)
    ensures Matches(c, d, k) <==> KeyOf(c, d) == k
  {
  }

  // ---------------------------------------------------------------- shape of d_move

  /** The callers of `d_move` hold references on two distinct non-root dentries. */
  ghost predicate MoveReady(c: Cache, ext: map<Id, nat>, d: Id, t: Id) {
    && d != t && d in c.live && t in c.live && c.live[d].parent != d && c.live[t].parent != t
    && d in ext && t in ext && ext[d] > 0 && ext[t] > 0
  }

  lemma MoveHashShape(c: Cache, h: HashFn, d: Id, t: Id)
    requires d in c.live && t in c.live && d != t
    ensures MoveHash(c, h, d, t).live ==
            c.live[d := c.live[d].(hashed := c.live[t].hashed)][t := c.live[t].(hashed := false)]
  {
  }

  /** The part of `d_move` after the hash queues. */
  function Relink(live: map<Id, Dentry>, d: Id, t: Id): map<Id, Dentry>
    requires d in live && t in live
  {
    var l2 := Detach(Detach(live, d), t);
    var (e', t') := SwitchNames(l2[d], l2[t]);
    Attach(Attach(l2[d := e'][t := t'], t), d)
  }

  ghost predicate Apart(live: map<Id, Dentry>, d: Id, t: Id) {
    && d in live && t in live && d != t
    && var pd, pt := live[d].parent, live[t].parent;
       pd in live && pt in live && pd != d && pd != t && pt != d && pt != t
  }

  function DetachedSubdirs(s: seq<Id>, p: Id, pd: Id, pt: Id, d: Id, t: Id): seq<Id> {
    var s1 := if p == pd then Without(s, d) else s;
    if p == pt then Without(s1, t) else s1
  }

  function AttachedSubdirs(s: seq<Id>, p: Id, pd: Id, pt: Id, d: Id, t: Id): seq<Id> {
    var s3 := if p == pd then [t] + s else s;
    if p == pt then [d] + s3 else s3
  }

  function MovedSubdirs(s: seq<Id>, p: Id, pd: Id, pt: Id, d: Id, t: Id): seq<Id> {
    AttachedSubdirs(DetachedSubdirs(s, p, pd, pt, d, t), p, pd, pt, d, t)
  }

  lemma DetachShape(live: map<Id, Dentry>, d: Id, t: Id)
    requires Apart(live, d, t)
    ensures var l2 := Detach(Detach(live, d), t);
            && l2.Keys == live.Keys
            && forall x :: x in live ==>
                 l2[x] == live[x].(subdirs := DetachedSubdirs(live[x].subdirs, x, live[d].parent, live[t].parent, d, t))
  {
    var pd, pt := live[d].parent, live[t].parent;
    var l1 := Detach(live, d);
    assert l1 == live[pd := live[pd].(subdirs := Without(live[pd].subdirs, d))];
    assert Detach(l1, t) == l1[pt := l1[pt].(subdirs := Without(l1[pt].subdirs, t))];
  }

  lemma AttachShape(live: map<Id, Dentry>, d: Id, t: Id)
    requires Apart(live, d, t)
    ensures var l2 := Attach(Attach(live, t), d);
            && l2.Keys == live.Keys
            && forall x :: x in live ==>
                 l2[x] == live[x].(subdirs := AttachedSubdirs(live[x].subdirs, x, live[t].parent, live[d].parent, d, t))
  {
    var pd, pt := live[d].parent, live[t].parent;
    var l1 := Attach(live, t);
    assert l1 == live[pt := live[pt].(subdirs := [t] + live[pt].subdirs)];
    assert Attach(l1, d) == l1[pd := l1[pd].(subdirs := [d] + l1[pd].subdirs)];
  }

  lemma RelinkShape(live: map<Id, Dentry>, d: Id, t: Id)
    requires Apart(live, d, t)
    ensures var live' := Relink(live, d, t);
            && live'.Keys == live.Keys
            && live'[d] == SwitchNames(live[d], live[t]).0 && live'[t] == SwitchNames(live[d], live[t]).1
            && forall x :: x in live && x != d && x != t ==>
                 live'[x] == live[x].(subdirs := MovedSubdirs(live[x].subdirs, x, live[d].parent, live[t].parent, d, t))
  {
    DetachShape(live, d, t);
    var l2 := Detach(Detach(live, d), t);
    var e := SwitchNames(live[d], live[t]);
    var l3: map<Id, Dentry> := l2[d := e.0][t := e.1];
    AttachShape(l3, d, t);
  }

  /** The closed form of the dentries after `d_move`, when neither is the other's child. */
  lemma MoveShape(c: Cache, h: HashFn, d: Id, t: Id)
    requires Apart(c.live, d, t)
    ensures Moved(c.live, Move(c, h, d, t).live, d, t)
  {
    MoveHashShape(c, h, d, t);
    var w := MoveHash(c, h, d, t).live;
    assert Move(c, h, d, t).live == Relink(w, d, t);
    RelinkShape(w, d, t);
  }

  ghost predicate Moved(live: map<Id, Dentry>, live': map<Id, Dentry>, d: Id, t: Id)
    requires d in live && t in live
  {
    && live'.Keys == live.Keys
    && live'[d] == live[d].(iname := live[t].iname, name := live[t].name, parent := live[t].parent,
                            len := live[t].len, hash := live[t].hash, hashed := live[t].hashed)
    && live'[t] == live[t].(name := live[d].name, parent := live[d].parent,
                            len := live[d].len, hash := live[d].hash, hashed := false)
    && forall x :: x in live && x != d && x != t ==>
         live'[x] == live[x].(subdirs := MovedSubdirs(live[x].subdirs, x, live[d].parent, live[t].parent, d, t))
  }

  // ---------------------------------------------------------------- the hash queues after d_move

  /** Adding after `t` and then deleting `t` puts `d` in the place of `t`. */
  lemma {:induction false} TakePlace(s: seq<Id>, k: nat, d: Id)
    requires NoDup(s) && k < |s| && d !in s
    ensures Without(InsertAfter(s, s[k], d), s[k]) == s[k := d]
  {
    var s1 := s[1..];
    if k == 0 {
      var r := [d] + s1;
      assert InsertAfter(s, s[0], d) == [s[0]] + r;
      assert s[0] !in s1 && s[0] !in r;
      assert ([s[0]] + r)[1..] == r;
      assert s[0 := d] == r;
    } else {
      assert s[0] != s[k] && s1[k - 1] == s[k];
      TakePlace(s1, k - 1, d);
      var r := InsertAfter(s1, s[k], d);
      assert ([s[0]] + r)[1..] == r;
      assert s[k := d] == [s[0]] + s1[k - 1 := d];
    }
  }

  lemma UnhashChains(c: Cache, h: HashFn, d: Id)
    requires d in c.live && HashOk(c.live, c.table, h)
    ensures var u := Unhash(c, h, d);
            |u.table| == |c.table| && forall b :: 0 <= b < |c.table| ==> u.table[b] == Without(c.table[b], d)
  {
    forall b | 0 <= b < |c.table| && b != BucketOf(c, h, d) ensures Without(c.table[b], d) == c.table[b] {
      assert ChainOk(c.live, c.table, h, b);
    }
  }

  /** The chains after `d_move`: `d` leaves its own and takes the place of a hashed `t`. */
  lemma MoveChains(c: Cache, h: HashFn, d: Id, t: Id)
    requires d in c.live && t in c.live && d != t && HashOk(c.live, c.table, h)
    ensures var bt, table' := BucketOf(c, h, t), MoveHash(c, h, d, t).table;
            && |table'| == |c.table|
            && (forall b :: 0 <= b < |table'| && b != bt ==> table'[b] == Without(c.table[b], d))
            && NoDup(Without(c.table[bt], d))
            && (!c.live[t].hashed ==> table'[bt] == Without(c.table[bt], d))
            && (c.live[t].hashed ==> exists k ::
                  0 <= k < |Without(c.table[bt], d)| && Without(c.table[bt], d)[k] == t &&
                  table'[bt] == Without(c.table[bt], d)[k := d])
  {
    var bt := BucketOf(c, h, t);
    var s := Without(c.table[bt], d);
    UnhashChains(c, h, d);
    assert ChainOk(c.live, c.table, h, bt) && Bucketed(c.live, c.table, h, t);
    WithoutNoDup(c.table[bt], d);
    if c.live[t].hashed {
      var k :| 0 <= k < |s| && s[k] == t;
      TakePlace(s, k, d);
    }
  }

  lemma ReplaceMembers(s: seq<Id>, k: nat, d: Id)
    requires NoDup(s) && k < |s| && d !in s
    ensures NoDup(s[k := d]) && forall x :: x in s[k := d] <==> x == d || (x in s && x != s[k])
  {
    var r := s[k := d];
    forall x ensures x in r <==> x == d || (x in s && x != s[k]) {
      if x == d {
        assert r[k] == d;
      } else if x in s && x != s[k] {
        var i :| 0 <= i < |s| && s[i] == x;
        assert r[i] == x;
      }
    }
  }

  lemma MoveMembers(c: Cache, h: HashFn, d: Id, t: Id, b: nat)
    requires d in c.live && t in c.live && d != t && HashOk(c.live, c.table, h) && b < |c.table|
    ensures var table' := MoveHash(c, h, d, t).table;
            && |table'| == |c.table| && NoDup(table'[b])
            && forall x :: x in table'[b] <==>
                 || (x == d && c.live[t].hashed && b == BucketOf(c, h, t))
                 || (x in c.table[b] && x != d && x != t)
  {
    MoveChains(c, h, d, t);
    assert ChainOk(c.live, c.table, h, b) && Bucketed(c.live, c.table, h, t);
    WithoutNoDup(c.table[b], d);
    var s := Without(c.table[b], d);
    if b == BucketOf(c, h, t) && c.live[t].hashed {
      var k :| 0 <= k < |s| && s[k] == t && MoveHash(c, h, d, t).table[b] == s[k := d];
      ReplaceMembers(s, k, d);
    }
  }

  lemma MoveHashOk(c: Cache, h: HashFn, d: Id, t: Id, live': map<Id, Dentry>)
    requires d in c.live && t in c.live && d != t && HashOk(c.live, c.table, h)
    requires Moved(c.live, live', d, t)
    ensures HashOk(live', MoveHash(c, h, d, t).table, h)
  {
    var table' := MoveHash(c, h, d, t).table;
    MoveMembers(c, h, d, t, BucketOf(c, h, t));
    forall b | 0 <= b < |table'| ensures ChainOk(live', table', h, b) {
      MoveMembers(c, h, d, t, b);
      assert ChainOk(c.live, c.table, h, b);
    }
    forall x ensures Bucketed(live', table', h, x) {
      if x in live' && live'[x].hashed {
        MoveMembers(c, h, d, t, h(live'[x].parent, live'[x].hash));
        assert Bucketed(c.live, c.table, h, x);
      }
    }
  }

  lemma MoveNamesOk(live: map<Id, Dentry>, live': map<Id, Dentry>, bufs: map<Buf, seq<char>>, d: Id, t: Id)
    requires d in live && t in live && d != t && Moved(live, live', d, t) && NamesOk(live, bufs)
    ensures NamesOk(live', bufs)
  {
    assert NameFits(live, bufs, d) && NameFits(live, bufs, t);
    forall x ensures NameFits(live', bufs, x) {
      assert NameFits(live, bufs, x);
    }
    forall x, y ensures SoleOwner(live', x, y) {
      var sx, sy := Swap(x, d, t), Swap(y, d, t);
      assert SoleOwner(live, sx, sy);
    }
    forall b | b in bufs ensures Owned(live', b) {
      assert Owned(live, b);
      var x :| x in live && live[x].name == External(b);
      assert live'[Swap(x, d, t)].name == External(b);
    }
  }

  function Swap(x: Id, d: Id, t: Id): Id {
    if x == d then t else if x == t then d else x
  }

  // ---------------------------------------------------------------- the tree after d_move

  /** Each child list keeps its length; `d` and `t` change places. */
  lemma MovedMembers(s: seq<Id>, p: Id, pd: Id, pt: Id, d: Id, t: Id)
    requires NoDup(s) && d != t && (d in s <==> p == pd) && (t in s <==> p == pt)
    ensures var r := MovedSubdirs(s, p, pd, pt, d, t);
            && NoDup(r) && |r| == |s|
            && forall y :: y in r <==> (y == t && p == pd) || (y == d && p == pt) || (y in s && y != d && y != t)
  {
    var s1 := if p == pd then Without(s, d) else s;
    WithoutNoDup(s, d);
    var s2 := if p == pt then Without(s1, t) else s1;
    WithoutNoDup(s1, t);
    assert NoDup(s2) && d !in s2 && t !in s2;
    var s3 := if p == pd then [t] + s2 else s2;
    assert NoDup(s3) && d !in s3;
  }

  lemma LinkMembers(live: map<Id, Dentry>, d: Id, x: Id)
    requires TreeOk(live) && d in live && live[d].parent != d && x in live
    ensures NoDup(live[x].subdirs) && (d in live[x].subdirs <==> x == live[d].parent)
  {
    assert Node(live, x) && Node(live, d);
  }

  lemma MoveTree(live: map<Id, Dentry>, live': map<Id, Dentry>, d: Id, t: Id)
    requires TreeOk(live) && Apart(live, d, t) && Moved(live, live', d, t)
    ensures TreeOk(live')
    ensures forall x :: x in live ==> |live'[x].subdirs| == |live[x].subdirs|
  {
    var pd, pt := live[d].parent, live[t].parent;
    forall x | x in live && x != d && x != t
      ensures NoDup(live'[x].subdirs) && |live'[x].subdirs| == |live[x].subdirs|
      ensures forall y :: y in live'[x].subdirs <==>
                (y == t && x == pd) || (y == d && x == pt) || (y in live[x].subdirs && y != d && y != t)
    {
      LinkMembers(live, d, x);
      LinkMembers(live, t, x);
      MovedMembers(live[x].subdirs, x, pd, pt, d, t);
    }
    assert Node(live, d) && Node(live, t);
    forall x ensures Node(live', x) {
      assert Node(live, x);
    }
  }

  lemma MoveCounts(c: Cache, live': map<Id, Dentry>, ext: map<Id, nat>, d: Id, t: Id)
    requires d in c.live && t in c.live && Moved(c.live, live', d, t)
    requires CountOk(c.live, ext) && UnusedOk(c.live, c.unused)
    requires forall x :: x in c.live ==> |live'[x].subdirs| == |c.live[x].subdirs|
    ensures CountOk(live', ext) && UnusedOk(live', c.unused) && |live'| == |c.live|
  {
    forall x ensures Counted(live', ext, x) && Listed(live', c.unused, x) {
      assert Counted(c.live, ext, x) && Listed(c.live, c.unused, x);
    }
    assert |live'.Keys| == |c.live.Keys|;
  }

  // ---------------------------------------------------------------- ancestry

  lemma AncestorStep(live: map<Id, Dentry>, a: Id, x: Id)
    requires x in live
    ensures Ancestor(live, a, x) <==> x == a || Ancestor(live, a, live[x].parent)
  {
    if Ancestor(live, a, x) && x != a {
      var n: nat :| Up(live, x, n) == a;
      assert Up(live, live[x].parent, n - 1) == a;
    }
    if x == a {
      assert Up(live, x, 0) == a;
    }
    if Ancestor(live, a, live[x].parent) {
      var n: nat :| Up(live, live[x].parent, n) == a;
      assert Up(live, x, n + 1) == a;
    }
  }

  /** Ranks do not grow on the way up, and only the start has the start's rank. */
  lemma {:induction false} UpRank(live: map<Id, Dentry>, rank: map<Id, nat>, x: Id, n: nat)
    requires TreeOk(live) && RankOk(live, rank) && x in live
    ensures Up(live, x, n) in live && rank[Up(live, x, n)] <= rank[x]
    ensures Up(live, x, n) != x ==> rank[Up(live, x, n)] < rank[x]
    decreases n
  {
    assert Node(live, x) && Ranked(live, rank, x);
    if n > 0 {
      UpRank(live, rank, live[x].parent, n - 1);
    }
  }

  /** No dentry is above its own parent, except a root. */
  lemma ParentNotBelow(live: map<Id, Dentry>, x: Id)
    requires TreeOk(live) && Acyclic(live) && x in live && live[x].parent != x
    ensures !Ancestor(live, x, live[x].parent)
  {
    var rank :| RankOk(live, rank);
    assert Node(live, x) && Ranked(live, rank, x);
    if Ancestor(live, x, live[x].parent) {
      var n: nat :| Up(live, live[x].parent, n) == x;
      UpRank(live, rank, live[x].parent, n);
    }
  }

  lemma {:induction false} RankBound(rank: map<Id, nat>, ids: set<Id>) returns (m: nat)
    requires ids <= rank.Keys
    ensures forall x :: x in ids ==> rank[x] <= m
  {
    if ids == {} {
      m := 0;
    } else {
      var x :| x in ids;
      m := RankBound(rank, ids - {x});
      m := if rank[x] > m then rank[x] else m;
    }
  }

  ghost predicate MoveAllowed(live: map<Id, Dentry>, d: Id, t: Id)
    requires d in live && t in live
  {
    !Ancestor(live, d, live[t].parent) && !Ancestor(live, t, live[d].parent)
  }

  lemma MoveAllowedApart(live: map<Id, Dentry>, d: Id, t: Id)
    requires TreeOk(live) && d in live && t in live && d != t
    requires live[d].parent != d && live[t].parent != t && MoveAllowed(live, d, t)
    ensures Apart(live, d, t)
  {
    assert Node(live, d) && Node(live, t);
    assert Up(live, live[t].parent, 0) == live[t].parent && Up(live, live[d].parent, 0) == live[d].parent;
  }

  /** Ranks after the move: everything below `d` or `t` is lifted above all old ranks. */
  lemma MoveAcyclic(live: map<Id, Dentry>, live': map<Id, Dentry>, d: Id, t: Id)
    requires TreeOk(live) && Acyclic(live) && Apart(live, d, t) && Moved(live, live', d, t)
    requires MoveAllowed(live, d, t)
    ensures Acyclic(live')
  {
    var rank :| RankOk(live, rank);
    var m := RankBound(rank, rank.Keys);
    var rank' := map x | x in live ::
      if Ancestor(live, d, x) || Ancestor(live, t, x) then rank[x] + m + 1 else rank[x];
    ParentNotBelow(live, d);
    ParentNotBelow(live, t);
    AncestorStep(live, d, d);
    AncestorStep(live, t, t);
    forall x ensures Ranked(live', rank', x) {
      assert Ranked(live, rank, x);
      if x in live {
        AncestorStep(live, d, x);
        AncestorStep(live, t, x);
      }
    }
    assert RankOk(live', rank');
  }

  // ---------------------------------------------------------------- d_move keeps the invariant

  lemma MoveInv(c: Cache, ext: map<Id, nat>, h: HashFn, d: Id, t: Id)
    requires Inv(c, ext, h) && MoveReady(c, ext, d, t) && MoveAllowed(c.live, d, t)
    ensures Inv(Move(c, h, d, t), ext, h)
  {
    var c' := Move(c, h, d, t);
    var ok := Inv(c', ext, h);
    assert ok by {
      MoveAllowedApart(c.live, d, t);
      MoveShape(c, h, d, t);
      MoveTree(c.live, c'.live, d, t);
      MoveAcyclic(c.live, c'.live, d, t);
      MoveCounts(c, c'.live, ext, d, t);
      MoveHashOk(c, h, d, t, c'.live);
      MoveNamesOk(c.live, c'.live, c.bufs, d, t);
    }
  }

  lemma MoveOntoChild(c: Cache, h: HashFn, d: Id, t: Id)
    requires d in c.live && t in c.live && d != t && c.live[t].parent != t && c.live[d].parent != d
    requires c.live[d].parent in c.live && c.live[t].parent in c.live
    requires c.live[t].parent == d || c.live[d].parent == t
    ensures !TreeOk(Move(c, h, d, t).live)
  {
    MoveHashShape(c, h, d, t);
    var w := MoveHash(c, h, d, t).live;
    var live' := Move(c, h, d, t).live;
    assert live' == Relink(w, d, t);
    var x := if c.live[t].parent == d then d else t;
    assert x in live' && x in live'[x].subdirs;
    assert !Node(live', x);
  }

  /** Parent chains that avoid `t` still lead to `d` after the move. */
  lemma {:induction false} PathKept(live: map<Id, Dentry>, live': map<Id, Dentry>, d: Id, t: Id, x: Id, n: nat)
    requires TreeOk(live) && live'.Keys == live.Keys && x in live && t in live
    requires forall y :: y in live && y != d && y != t ==> live'[y].parent == live[y].parent
    requires Up(live, x, n) == d && !Ancestor(live, t, x)
    ensures Ancestor(live', d, x)
    decreases n
  {
    AncestorStep(live', d, x);
    if x != d {
      assert Node(live, x);
      AncestorStep(live, t, x);
      PathKept(live, live', d, t, live[x].parent, n - 1);
    }
  }

  lemma MoveBelowItself(c: Cache, h: HashFn, d: Id, t: Id)
    requires TreeOk(c.live) && Acyclic(c.live) && Apart(c.live, d, t) && !MoveAllowed(c.live, d, t)
    ensures var live' := Move(c, h, d, t).live; !(TreeOk(live') && Acyclic(live'))
  {
    var live, live' := c.live, Move(c, h, d, t).live;
    MoveShape(c, h, d, t);
    ParentNotBelow(live, d);
    ParentNotBelow(live, t);
    if TreeOk(live') && Acyclic(live') {
      if Ancestor(live, d, live[t].parent) {
        var n: nat :| Up(live, live[t].parent, n) == d;
        PathKept(live, live', d, t, live[t].parent, n);
        ParentNotBelow(live', d);
      } else {
        var n: nat :| Up(live, live[d].parent, n) == t;
        PathKept(live, live', t, d, live[d].parent, n);
        ParentNotBelow(live', t);
      }
    }
  }

  /** `d_move` leaves a forest exactly when neither dentry lies on the way from the root to the
      other's parent, which is what the `is_subdir` tests of rename rule out beforehand. */
  lemma MoveForest(c: Cache, ext: map<Id, nat>, h: HashFn, d: Id, t: Id)
    requires Inv(c, ext, h) && MoveReady(c, ext, d, t)
    ensures var live' := Move(c, h, d, t).live;
            TreeOk(live') && Acyclic(live') <==> MoveAllowed(c.live, d, t)
  {
    assert Node(c.live, d) && Node(c.live, t);
    if MoveAllowed(c.live, d, t) {
      MoveInv(c, ext, h, d, t);
    } else if Apart(c.live, d, t) {
      MoveBelowItself(c, h, d, t);
    } else {
      MoveOntoChild(c, h, d, t);
    }
  }

  // ---------------------------------------------------------------- lookups after d_move

  lemma MoveText(c: Cache, h: HashFn, d: Id, t: Id)
    requires NamesOk(c.live, c.bufs) && Apart(c.live, d, t)
    ensures var c' := Move(c, h, d, t);
            && c'.live.Keys == c.live.Keys
            && KeyOf(c', d) == KeyOf(c, t) && (c.live[t].hashed <==> c'.live[d].hashed)
            && forall x :: x in c.live && x != d && x != t ==> KeyOf(c', x) == KeyOf(c, x)
  {
    MoveShape(c, h, d, t);
  }

  /** Deleting an entry that does not match does not change the result of a scan. */
  lemma {:induction false} ScanWithout(c: Cache, s: seq<Id>, x: Id, k: Key)
    requires !Matches(c, x, k)
    ensures Scan(c, Without(s, x), k) == Scan(c, s, k)
  {
    if s != [] {
      ScanWithout(c, s[1..], x, k);
      assert s[0] != x ==> ([s[0]] + Without(s[1..], x))[1..] == Without(s[1..], x);
    }
  }

  /** Scans of chains that agree up to a swap of `t` for `d`. */
  lemma {:induction false} ScanSwap(c: Cache, c': Cache, s: seq<Id>, s': seq<Id>, d: Id, t: Id, k: Key)
    requires |s| == |s'| && forall i :: 0 <= i < |s| ==> s'[i] == (if s[i] == t then d else s[i])
    requires forall i :: 0 <= i < |s| ==> (Matches(c', s'[i], k) <==> Matches(c, s[i], k))
    ensures Scan(c', s', k) == match Scan(c, s, k) case None => None case Some(x) => Some(if x == t then d else x)
  {
    if s != [] && !Matches(c, s[0], k) {
      ScanSwap(c, c', s[1..], s'[1..], d, t, k);
    }
  }

  lemma MoveChainPointwise(c: Cache, h: HashFn, d: Id, t: Id, b: nat)
    requires HashOk(c.live, c.table, h) && d in c.live && t in c.live && d != t && b < |c.table|
    ensures var s, table' := Without(c.table[b], d), MoveHash(c, h, d, t).table;
            && |table'| == |c.table| && |table'[b]| == |s|
            && forall i :: 0 <= i < |s| ==> s[i] in c.live && table'[b][i] == (if s[i] == t then d else s[i])
  {
    MoveChains(c, h, d, t);
    assert ChainOk(c.live, c.table, h, b) && Bucketed(c.live, c.table, h, t);
    var s := Without(c.table[b], d);
    forall i | 0 <= i < |s| ensures s[i] in c.live {
      assert s[i] in s;
    }
  }

  lemma MoveMatch(c: Cache, h: HashFn, d: Id, t: Id, x: Id, k: Key)
    requires NamesOk(c.live, c.bufs) && Apart(c.live, d, t) && x in c.live && x != d
    ensures Matches(Move(c, h, d, t), if x == t then d else x, k) <==> Matches(c, x, k)
  {
    var c', x' := Move(c, h, d, t), if x == t then d else x;
    MoveText(c, h, d, t);
    MoveShape(c, h, d, t);
    MoveNamesOk(c.live, c'.live, c.bufs, d, t);
    assert NameFits(c.live, c.bufs, x) && NameFits(c'.live, c'.bufs, x');
    MatchesKey(c, x, k);
    MatchesKey(c', x', k);
  }

  lemma MoveScan(c: Cache, h: HashFn, d: Id, t: Id, k: Key)
    requires HashOk(c.live, c.table, h) && NamesOk(c.live, c.bufs) && Apart(c.live, d, t)
    ensures var c', b := Move(c, h, d, t), h(k.parent, k.hash);
            && b < |c.table|
            && Find(c', h, k) == match Scan(c, Without(c.table[b], d), k)
                                 case None => None
                                 case Some(x) => Some(if x == t then d else x)
  {
    var c', b := Move(c, h, d, t), h(k.parent, k.hash);
    MoveChainPointwise(c, h, d, t, b);
    var s, s' := Without(c.table[b], d), c'.table[b];
    forall i | 0 <= i < |s| ensures Matches(c', s'[i], k) <==> Matches(c, s[i], k) {
      assert s[i] in s;
      MoveMatch(c, h, d, t, s[i], k);
    }
    ScanSwap(c, c', s, s', d, t, k);
  }

  /** The queue without `d` has no match exactly if no other hashed dentry bears the key. */
  lemma NoOtherBears(c: Cache, h: HashFn, d: Id, k: Key)
    requires HashOk(c.live, c.table, h) && NamesOk(c.live, c.bufs) && h(k.parent, k.hash) < |c.table|
    ensures Scan(c, Without(c.table[h(k.parent, k.hash)], d), k) == None <==>
      forall x :: x in c.live && x != d && c.live[x].hashed ==> KeyOf(c, x) != k
  {
    var b := h(k.parent, k.hash);
    var s := Without(c.table[b], d);
    ScanIn(c, s, k);
    assert ChainOk(c.live, c.table, h, b);
    forall x | x in c.live && x != d && c.live[x].hashed && KeyOf(c, x) == k ensures x in s && Matches(c, x, k) {
      assert Bucketed(c.live, c.table, h, x) && NameFits(c.live, c.bufs, x);
    }
    if Scan(c, s, k).Some? {
      var x := Scan(c, s, k).value;
      MatchesKey(c, x, k) by { assert NameFits(c.live, c.bufs, x); }
    }
  }

  /** The moved dentry's old name finds nothing exactly if no other hashed dentry bears it. */
  lemma MoveOldName(c: Cache, ext: map<Id, nat>, h: HashFn, d: Id, t: Id)
    requires Inv(c, ext, h) && Apart(c.live, d, t)
    ensures var k := KeyOf(c, d);
            Find(Move(c, h, d, t), h, k) == None <==>
              forall x :: x in c.live && x != d && c.live[x].hashed ==> KeyOf(c, x) != k
  {
    var k := KeyOf(c, d);
    MoveScan(c, h, d, t, k);
    NoOtherBears(c, h, d, k);
  }

  /** The lookups a rename changes, and no others: whoever found the target now finds the moved
      dentry, and the moved dentry's old name finds nothing unless another dentry bears it. */
  lemma MoveFind(c: Cache, ext: map<Id, nat>, h: HashFn, d: Id, t: Id, k: Key)
    requires Inv(c, ext, h) && Apart(c.live, d, t)
    ensures var c' := Move(c, h, d, t);
            && (k != KeyOf(c, d) && k != KeyOf(c, t) ==> Find(c', h, k) == Find(c, h, k))
            && (k == KeyOf(c, t) && Find(c, h, k) == Some(t) ==> Find(c', h, k) == Some(d))
            && (k == KeyOf(c, d) ==>
                 (Find(c', h, k) == None <==>
                    forall x :: x in c.live && x != d && c.live[x].hashed ==> KeyOf(c, x) != k))
  {
    var b := h(k.parent, k.hash);
    MoveScan(c, h, d, t, k);
    MoveOldName(c, ext, h, d, t);
    assert NameFits(c.live, c.bufs, d) && NameFits(c.live, c.bufs, t) && ChainOk(c.live, c.table, h, b);
    MatchesKey(c, d, k);
    MatchesKey(c, t, k);
    if k != KeyOf(c, d) {
      ScanWithout(c, c.table[b], d, k);
      ScanIn(c, c.table[b], k);
    } else if k == KeyOf(c, t) && Find(c, h, k) == Some(t) {
      ScanSkip(c, c.table[b], d, t, k);
    }
  }

  /** Deleting an entry other than the first match keeps the first match. */
  lemma {:induction false} ScanSkip(c: Cache, s: seq<Id>, d: Id, t: Id, k: Key)
    requires d != t && Scan(c, s, k) == Some(t)
    ensures Scan(c, Without(s, d), k) == Some(t)
  {
    ScanIn(c, s, k);
    if s[0] != t {
      ScanSkip(c, s[1..], d, t, k);
      assert s[0] != d ==> ([s[0]] + Without(s[1..], d))[1..] == Without(s[1..], d);
    } else {
      assert Without(s, d)[0] == t;
    }
  }

  /** An unhashed target leaves the moved dentry unhashed, so neither name finds it. */
  lemma MoveOntoUnhashed(c: Cache, ext: map<Id, nat>, h: HashFn, d: Id, t: Id, k: Key)
    requires Inv(c, ext, h) && Apart(c.live, d, t) && !c.live[t].hashed
    ensures Find(Move(c, h, d, t), h, k) != Some(d)
  {
    var c', b := Move(c, h, d, t), h(k.parent, k.hash);
    MoveShape(c, h, d, t);
    MoveMembers(c, h, d, t, b);
    if Find(c', h, k) == Some(d) {
      ScanIn(c', Chain(c', b), k);
    }
  }

  /** The target's old name finds the moved dentry exactly if, among the other dentries, it found the target:
      the target was hashed and no third dentry before it in the chain bears the same key. */
  lemma MoveFindsTarget(c: Cache, ext: map<Id, nat>, h: HashFn, d: Id, t: Id)
    requires Inv(c, ext, h) && Apart(c.live, d, t)
    ensures var k := KeyOf(c, t);
            Find(Move(c, h, d, t), h, k) == Some(d) <==> Scan(c, Without(Chain(c, h(k.parent, k.hash)), d), k) == Some(t)
  {
    var k := KeyOf(c, t);
    var b := h(k.parent, k.hash);
    var s := Without(c.table[b], d);
    if Scan(c, s, k).Some? {
      ScanIn(c, s, k);
    }
    assert ChainOk(c.live, c.table, h, b);
    MoveScan(c, h, d, t, k);
  }
}
