/** Every region of the dentry cache keeps the invariant and never fails a BUG() check; hence so
    does every run of regions, in whatever order threads execute them. */
module DcacheSafety {
  import opened Seqs
  import opened DcacheModel

  // ---------------------------------------------------------------- external references

  function Hold(ext: map<Id, nat>, d: Id): map<Id, nat> {
    ext[d := if d in ext then ext[d] + 1 else 1]
  }

  function Release(ext: map<Id, nat>, d: Id): map<Id, nat> {
    if d in ext && ext[d] > 0 then ext[d := ext[d] - 1] else ext
  }

  /** What the thread holds after a region that started by giving back nothing. */
  function Owing(ext: map<Id, nat>, o: Outcome): map<Id, nat> {
    match o
    case Bug => ext
    case Done(_) => ext
    case Freed(_, d, None) => ext - {d}
    case Freed(_, d, Some(p)) => Hold(ext - {d}, p)
  }

  // ---------------------------------------------------------------- one dentry at a time

  /** Replacing one dentry by one with the same children and a count for `k` external references. */
  lemma UpdateCount(live: map<Id, Dentry>, ext: map<Id, nat>, d: Id, e: Dentry, k: nat)
    requires CountOk(live, ext) && d in live && e.subdirs == live[d].subdirs && e.count == k + |e.subdirs|
    ensures CountOk(live[d := e], ext[d := k])
  {
    var live', ext' := live[d := e], ext[d := k];
    assert live'.Keys == ext'.Keys;
    forall x ensures Counted(live', ext', x) {
      assert Counted(live, ext, x);
    }
  }

  /** Replacing one dentry and moving at most that one on or off the unused list. */
  lemma UpdateUnused(live: map<Id, Dentry>, unused: seq<Id>, d: Id, e: Dentry, unused': seq<Id>)
    requires UnusedOk(live, unused) && d in live && NoDup(unused')
    requires d in unused' <==> e.count == 0
    requires forall x :: x != d ==> (x in unused' <==> x in unused)
    ensures UnusedOk(live[d := e], unused')
  {
    var live' := live[d := e];
    forall x ensures Listed(live', unused', x) {
      assert Listed(live, unused, x);
    }
  }

  // ---------------------------------------------------------------- killing a dentry

  /** The state in which `Kill` runs: `d` has count 0 and is on no unused list. */
  ghost predicate Dying(c: Cache, ext: map<Id, nat>, h: HashFn, d: Id) {
    && d in c.live && c.live[d].count == 0 && d !in c.unused
    && TreeOk(c.live) && Acyclic(c.live) && CountOk(c.live, ext)
    && UnusedOk(c.live - {d}, c.unused)
    && HashOk(c.live, c.table, h) && NamesOk(c.live, c.bufs) && StatsOk(c)
  }

  lemma UnhashOk(c: Cache, h: HashFn, d: Id)
    requires d in c.live && HashOk(c.live, c.table, h)
    ensures HashOk(Unhash(c, h, d).live, Unhash(c, h, d).table, h)
  {
    var b := BucketOf(c, h, d);
    var u := Unhash(c, h, d);
    assert ChainOk(c.live, c.table, h, b);
    WithoutNoDup(c.table[b], d);
    forall i | 0 <= i < |u.table| ensures ChainOk(u.live, u.table, h, i) {
      assert ChainOk(c.live, c.table, h, i);
    }
    forall x ensures Bucketed(u.live, u.table, h, x) {
      assert Bucketed(c.live, c.table, h, x);
    }
  }

  lemma RemoveHashOk(live: map<Id, Dentry>, table: seq<seq<Id>>, h: HashFn, d: Id)
    requires d in live && !live[d].hashed && HashOk(live, table, h)
    ensures HashOk(Detach(live, d) - {d}, table, h)
  {
    var live' := Detach(live, d) - {d};
    forall b | 0 <= b < |table| ensures ChainOk(live', table, h, b) {
      assert ChainOk(live, table, h, b);
    }
    forall x ensures Bucketed(live', table, h, x) {
      assert Bucketed(live, table, h, x);
    }
  }

  lemma KillTree(live: map<Id, Dentry>, d: Id)
    requires TreeOk(live) && d in live && live[d].subdirs == []
    ensures TreeOk(Detach(live, d) - {d})
  {
    var p := live[d].parent;
    assert Node(live, d) && Node(live, p);
    WithoutNoDup(live[p].subdirs, d);
    var live' := Detach(live, d) - {d};
    forall x ensures Node(live', x) {
      assert Node(live, x);
      if x in live' {
        assert Node(live, live[x].parent);
      }
    }
  }

  lemma KillAcyclic(live: map<Id, Dentry>, d: Id)
    requires Acyclic(live) && d in live
    ensures Acyclic(Detach(live, d) - {d})
  {
    var rank :| RankOk(live, rank);
    var live', rank' := Detach(live, d) - {d}, rank - {d};
    assert rank'.Keys == live'.Keys;
    forall x ensures Ranked(live', rank', x) {
      assert Ranked(live, rank, x);
    }
    assert RankOk(live', rank');
  }

  lemma KillCount(live: map<Id, Dentry>, ext: map<Id, nat>, d: Id)
    requires TreeOk(live) && CountOk(live, ext) && d in live && live[d].count == 0
    ensures live[d].subdirs == [] && ext[d] == 0
    ensures var p := live[d].parent;
            CountOk(Detach(live, d) - {d}, if p == d then ext - {d} else Hold(ext - {d}, p))
  {
    var p := live[d].parent;
    assert Node(live, d) && Node(live, p) && Counted(live, ext, d);
    WithoutNoDup(live[p].subdirs, d);
    var live', ext' := Detach(live, d) - {d}, if p == d then ext - {d} else Hold(ext - {d}, p);
    assert live'.Keys == ext'.Keys;
    forall x ensures Counted(live', ext', x) {
      assert Counted(live, ext, x);
    }
  }

  lemma KillNames(c: Cache, d: Id, live: map<Id, Dentry>)
    requires NamesOk(c.live, c.bufs) && d in c.live
    requires live.Keys == c.live.Keys - {d}
    requires forall x :: x in live ==>
      live[x].name == c.live[x].name && live[x].iname == c.live[x].iname && live[x].len == c.live[x].len
    ensures NamesOk(live, FreeName(c, d))
  {
    var bufs := FreeName(c, d);
    forall x ensures NameFits(live, bufs, x) {
      assert NameFits(c.live, c.bufs, x) && SoleOwner(c.live, d, x);
    }
    forall x, y ensures SoleOwner(live, x, y) {
      assert SoleOwner(c.live, x, y);
    }
    forall b | b in bufs ensures Owned(live, b) {
      assert Owned(c.live, b);
      var x :| x in c.live && c.live[x].name == External(b);
      assert x in live && live[x].name == External(b);
    }
  }

  /** Changing fields other than the links keeps the forest. */
  ghost predicate SameLinks(live: map<Id, Dentry>, live': map<Id, Dentry>) {
    && live.Keys == live'.Keys
    && forall d :: d in live ==> live'[d].parent == live[d].parent && live'[d].subdirs == live[d].subdirs
  }

  lemma SameLinksOk(live: map<Id, Dentry>, live': map<Id, Dentry>)
    requires TreeOk(live) && Acyclic(live) && SameLinks(live, live')
    ensures TreeOk(live') && Acyclic(live')
  {
    forall d ensures Node(live', d) {
      assert Node(live, d);
    }
    var rank :| RankOk(live, rank);
    forall d ensures Ranked(live', rank, d) {
      assert Ranked(live, rank, d);
    }
    assert RankOk(live', rank);
  }

  lemma KillRest(c: Cache, h: HashFn, d: Id, live: map<Id, Dentry>)
    requires d in c.live && StatsOk(c) && UnusedOk(c.live - {d}, c.unused)
    requires live.Keys == c.live.Keys - {d}
    requires forall x :: x in live ==> live[x].count == c.live[x].count
    ensures UnusedOk(live, c.unused) && |live| == c.nrDentry - 1
  {
    assert |live.Keys| == |c.live.Keys| - 1;
    forall x ensures Listed(live, c.unused, x) {
      assert Listed(c.live - {d}, c.unused, x);
    }
  }

  /** What `Kill` leaves of the other dentries. */
  lemma KillShape(c: Cache, h: HashFn, d: Id)
    requires d in c.live
    ensures var live := Detach(Unhash(c, h, d).live, d) - {d};
            && live.Keys == c.live.Keys - {d}
            && (forall x :: x in live ==> live[x].name == c.live[x].name)
            && (forall x :: x in live ==> live[x].iname == c.live[x].iname)
            && (forall x :: x in live ==> live[x].len == c.live[x].len)
            && (forall x :: x in live ==> live[x].count == c.live[x].count)
            && (forall x :: x in live ==> live[x].parent == c.live[x].parent)
            && (forall x :: x in live ==> live[x].hashed == c.live[x].hashed)
            && (forall x :: x in live ==> live[x].referenced == c.live[x].referenced)
  {
  }

  lemma KillHash(c: Cache, h: HashFn, d: Id)
    requires d in c.live && HashOk(c.live, c.table, h)
    ensures HashOk(Detach(Unhash(c, h, d).live, d) - {d}, Unhash(c, h, d).table, h)
  {
    UnhashOk(c, h, d);
    RemoveHashOk(Unhash(c, h, d).live, Unhash(c, h, d).table, h, d);
  }

  lemma KillLinks(c: Cache, ext: map<Id, nat>, h: HashFn, d: Id)
    requires d in c.live && TreeOk(c.live) && Acyclic(c.live) && CountOk(c.live, ext) && c.live[d].count == 0
    ensures var live := Kill(c, h, d).cache.live;
            TreeOk(live) && Acyclic(live) && CountOk(live, Owing(ext, Kill(c, h, d)))
  {
    var u := Unhash(c, h, d);
    SameLinksOk(c.live, u.live);
    assert Counted(c.live, ext, d);
    UpdateCount(c.live, ext, d, u.live[d], ext[d]);
    assert ext[d := ext[d]] == ext;
    KillCount(u.live, ext, d);
    KillTree(u.live, d);
    KillAcyclic(u.live, d);
    if c.live[d].parent == d {
      assert Owing(ext, Kill(c, h, d)) == ext - {d};
    }
  }

  lemma KillInv(c: Cache, ext: map<Id, nat>, h: HashFn, d: Id)
    requires Dying(c, ext, h, d)
    ensures var o := Kill(c, h, d); o.Freed? && Inv(o.cache, Owing(ext, o), h)
  {
    var o := Kill(c, h, d);
    var live := o.cache.live;
    var ok := Inv(o.cache, Owing(ext, o), h);
    assert ok by {
      KillShape(c, h, d);
      KillNames(c, d, live);
      KillRest(c, h, d, live);
      KillHash(c, h, d);
      KillLinks(c, ext, h, d);
    }
  }

  // ---------------------------------------------------------------- counts, flags and the unused list

  /** Only counts and REFERENCED flags differ. */
  ghost predicate SameShape(live: map<Id, Dentry>, live': map<Id, Dentry>) {
    && live'.Keys == live.Keys
    && forall d :: d in live ==>
         live'[d] == live[d].(count := live'[d].count, referenced := live'[d].referenced)
  }

  ghost predicate SameNames(live: map<Id, Dentry>, live': map<Id, Dentry>) {
    && live'.Keys == live.Keys
    && forall d :: d in live ==>
         live'[d].name == live[d].name && live'[d].iname == live[d].iname && live'[d].len == live[d].len
  }

  lemma SameNamesOk(live: map<Id, Dentry>, live': map<Id, Dentry>, bufs: map<Buf, seq<char>>)
    requires NamesOk(live, bufs) && SameNames(live, live')
    ensures NamesOk(live', bufs)
  {
    forall d ensures NameFits(live', bufs, d) {
      assert NameFits(live, bufs, d);
    }
    forall d, e ensures SoleOwner(live', d, e) {
      assert SoleOwner(live, d, e);
    }
    forall b | b in bufs ensures Owned(live', b) {
      assert Owned(live, b);
      var d :| d in live && live[d].name == External(b);
      assert live'[d].name == External(b);
    }
  }

  lemma SameShapeOk(c: Cache, c': Cache, h: HashFn)
    requires TreeOk(c.live) && Acyclic(c.live) && HashOk(c.live, c.table, h) && NamesOk(c.live, c.bufs)
    requires SameShape(c.live, c'.live) && c'.table == c.table && c'.bufs == c.bufs
    ensures TreeOk(c'.live) && Acyclic(c'.live) && HashOk(c'.live, c'.table, h) && NamesOk(c'.live, c'.bufs)
  {
    SameLinksOk(c.live, c'.live);
    SameNamesOk(c.live, c'.live, c.bufs);
    forall b | 0 <= b < |c.table| ensures ChainOk(c'.live, c'.table, h, b) {
      assert ChainOk(c.live, c.table, h, b);
    }
    forall d ensures Bucketed(c'.live, c'.table, h, d) {
      assert Bucketed(c.live, c.table, h, d);
    }
  }

  lemma SameShapeInv(c: Cache, c': Cache, ext': map<Id, nat>, h: HashFn)
    requires TreeOk(c.live) && Acyclic(c.live) && HashOk(c.live, c.table, h) && NamesOk(c.live, c.bufs)
    requires SameShape(c.live, c'.live) && c'.table == c.table && c'.bufs == c.bufs
    requires CountOk(c'.live, ext') && UnusedOk(c'.live, c'.unused) && c'.nrUnused == |c'.unused|
    requires c.nrDentry == |c.live| == c'.nrDentry
    ensures Inv(c', ext', h)
  {
    var ok := Inv(c', ext', h);
    assert ok by {
      SameShapeOk(c, c', h);
      assert |c'.live.Keys| == |c.live.Keys|;
    }
  }

  /** A region that changes the count or the flag of one dentry and its place on the unused list. */
  lemma UpdateInv(c: Cache, ext: map<Id, nat>, h: HashFn, d: Id, e: Dentry, k: nat, unused: seq<Id>)
    requires Inv(c, ext, h) && d in c.live && NoDup(unused)
    requires e == c.live[d].(count := k + |e.subdirs|, referenced := e.referenced)
    requires d in unused <==> e.count == 0
    requires forall x :: x != d ==> (x in unused <==> x in c.unused)
    ensures Inv(c.(live := c.live[d := e], unused := unused, nrUnused := |unused|), ext[d := k], h)
  {
    var c' := c.(live := c.live[d := e], unused := unused, nrUnused := |unused|);
    var ok := Inv(c', ext[d := k], h);
    assert ok by {
      UpdateCount(c.live, ext, d, e, k);
      UpdateUnused(c.live, c.unused, d, e, unused);
      SameShapeInv(c, c', ext[d := k], h);
    }
  }

  lemma GetInv(c: Cache, ext: map<Id, nat>, h: HashFn, d: Id)
    requires Inv(c, ext, h) && d in c.live && c.live[d].count > 0
    ensures Inv(Get(c, d), Hold(ext, d), h)
  {
    assert Counted(c.live, ext, d) && Listed(c.live, c.unused, d);
    UpdateInv(c, ext, h, d, Get(c, d).live[d], ext[d] + 1, c.unused);
  }

  lemma GetLockedInv(c: Cache, ext: map<Id, nat>, h: HashFn, d: Id)
    requires Inv(c, ext, h) && d in c.live
    ensures Inv(GetLocked(c, d), Hold(ext, d), h)
  {
    assert Counted(c.live, ext, d) && Listed(c.live, c.unused, d);
    WithoutNoDup(c.unused, d);
    UpdateInv(c, ext, h, d, Get(c, d).live[d], ext[d] + 1, GetLocked(c, d).unused);
  }

  lemma FlagInv(c: Cache, ext: map<Id, nat>, h: HashFn, d: Id, flag: bool)
    requires Inv(c, ext, h) && d in c.live
    ensures Inv(c.(live := c.live[d := c.live[d].(referenced := flag)]), ext, h)
  {
    assert Counted(c.live, ext, d) && Listed(c.live, c.unused, d);
    UpdateInv(c, ext, h, d, c.live[d].(referenced := flag), ext[d], c.unused);
    assert ext[d := ext[d]] == ext;
  }

  lemma {:induction false} ScanIn(c: Cache, chain: seq<Id>, k: Key)
    ensures match Scan(c, chain, k)
            case None => forall d :: d in chain ==> !Matches(c, d, k)
            case Some(d) => d in chain && Matches(c, d, k)
  {
    if chain != [] && !Matches(c, chain[0], k) {
      ScanIn(c, chain[1..], k);
    }
  }

  lemma LookupInv(c: Cache, ext: map<Id, nat>, h: HashFn, k: Key)
    requires Inv(c, ext, h)
    ensures match Find(c, h, k)
            case None => Inv(Lookup(c, h, k), ext, h)
            case Some(d) => d in c.live && Inv(Lookup(c, h, k), Hold(ext, d), h)
  {
    match Find(c, h, k)
    case None =>
    case Some(d) =>
      ScanIn(c, Chain(c, h(k.parent, k.hash)), k);
      GetLockedInv(c, ext, h, d);
      FlagInv(GetLocked(c, d), Hold(ext, d), h, d, true);
  }

  lemma PutListedInv(c: Cache, ext: map<Id, nat>, h: HashFn, d: Id)
    requires Inv(c, ext, h) && d in c.live && d in ext && ext[d] > 0 && c.live[d].count > 0
    requires c.live[d].count > 1 || c.live[d].hashed
    ensures var o := PutStep(c, h, d); o.Done? && Inv(o.cache, Release(ext, d), h)
  {
    var unused := if c.live[d].count > 1 then c.unused else [d] + c.unused;
    assert Counted(c.live, ext, d) && Listed(c.live, c.unused, d);
    UpdateInv(c, ext, h, d, c.live[d].(count := c.live[d].count - 1), ext[d] - 1, unused);
  }

  lemma PutDying(c: Cache, ext: map<Id, nat>, h: HashFn, d: Id, c1: Cache)
    requires Inv(c, ext, h) && d in c.live && ext[d] > 0 && c.live[d].count == 1
    requires c1 == c.(live := c.live[d := c.live[d].(count := 0)])
    ensures Dying(c1, ext[d := 0], h, d)
  {
    assert Counted(c.live, ext, d) && Listed(c.live, c.unused, d);
    var dying := Dying(c1, ext[d := 0], h, d);
    assert dying by {
      UpdateCount(c.live, ext, d, c1.live[d], 0);
      SameShapeOk(c, c1, h);
      assert c1.live.Keys == c.live.Keys;
      forall x ensures Listed(c1.live - {d}, c.unused, x) {
        assert Listed(c.live, c.unused, x);
      }
    }
  }

  lemma PutKillInv(c: Cache, ext: map<Id, nat>, h: HashFn, d: Id)
    requires Inv(c, ext, h) && d in c.live && d in ext && ext[d] > 0 && c.live[d].count == 1 && !c.live[d].hashed
    ensures var o := PutStep(c, h, d); o.Freed? && Inv(o.cache, Owing(Release(ext, d), o), h)
  {
    var c1 := c.(live := c.live[d := c.live[d].(count := 0)]);
    assert Counted(c.live, ext, d) && Listed(c.live, c.unused, d);
    PutDying(c, ext, h, d, c1);
    KillInv(c1, ext[d := 0], h, d);
  }

  /** `dput` never finds the dentry on the unused list, and a dentry it frees had no children
      and no reference but the one being put. */
  lemma PutInv(c: Cache, ext: map<Id, nat>, h: HashFn, d: Id)
    requires Inv(c, ext, h) && d in ext && ext[d] > 0
    ensures d in c.live && c.live[d].count > 0
    ensures var o := PutStep(c, h, d);
            && !o.Bug? && Inv(o.cache, Owing(Release(ext, d), o), h)
            && (o.Freed? ==> o.d == d && c.live[d].subdirs == [] && ext[d] == 1)
  {
    assert Counted(c.live, ext, d);
    if c.live[d].count > 1 || c.live[d].hashed {
      PutListedInv(c, ext, h, d);
    } else {
      PutKillInv(c, ext, h, d);
    }
  }

  /** The tail of the unused list always has count 0, so `prune_dcache` never reaches its BUG()
      and frees only childless, unreferenced dentries. */
  lemma PruneInv(c: Cache, ext: map<Id, nat>, h: HashFn)
    requires Inv(c, ext, h) && c.unused != []
    ensures var d := c.unused[|c.unused| - 1];
            && d in c.live
            && var o := PruneStep(c, h);
               && !o.Bug? && Inv(o.cache, Owing(ext, o), h)
               && (o.Freed? ==> o.d == d && c.live[d].subdirs == [] && ext[d] == 0)
  {
    var n := |c.unused| - 1;
    var d, rest := c.unused[n], c.unused[..n];
    assert c.unused == rest + [d];
    assert Counted(c.live, ext, d) && Listed(c.live, c.unused, d);
    if c.live[d].referenced {
      ReorderInv(c, ext, h, [d] + rest);
      FlagInv(c.(unused := [d] + rest), ext, h, d, false);
    } else {
      var c1 := c.(unused := rest, nrUnused := c.nrUnused - 1);
      var dying := Dying(c1, ext, h, d);
      assert dying by {
        forall x ensures Listed(c1.live - {d}, rest, x) {
          assert Listed(c.live, c.unused, x);
        }
      }
      KillInv(c1, ext, h, d);
    }
  }

  /** `select_parent` only reorders the unused list. */
  lemma ReorderInv(c: Cache, ext: map<Id, nat>, h: HashFn, unused: seq<Id>)
    requires Inv(c, ext, h) && NoDup(unused) && |unused| == |c.unused|
    requires forall d :: d in unused <==> d in c.unused
    ensures Inv(c.(unused := unused), ext, h)
  {
    forall x ensures Listed(c.live, unused, x) {
      assert Listed(c.live, c.unused, x);
    }
    SameShapeInv(c, c.(unused := unused), ext, h);
  }

  // ---------------------------------------------------------------- hashing

  /** Any change of one dentry's `hashed` flag together with the table. */
  lemma HashedInv(c: Cache, ext: map<Id, nat>, h: HashFn, d: Id, flag: bool, table: seq<seq<Id>>)
    requires Inv(c, ext, h) && d in c.live
    requires HashOk(c.live[d := c.live[d].(hashed := flag)], table, h)
    ensures Inv(c.(live := c.live[d := c.live[d].(hashed := flag)], table := table), ext, h)
  {
    var e := c.live[d].(hashed := flag);
    var c' := c.(live := c.live[d := e], table := table);
    assert Counted(c.live, ext, d) && Listed(c.live, c.unused, d);
    var ok := Inv(c', ext, h);
    assert ok by {
      UpdateCount(c.live, ext, d, e, ext[d]);
      assert ext[d := ext[d]] == ext;
      UpdateUnused(c.live, c.unused, d, e, c.unused);
      SameLinksOk(c.live, c'.live);
      SameNamesOk(c.live, c'.live, c.bufs);
      assert c'.live.Keys == c.live.Keys;
      assert |c'.live.Keys| == |c.live.Keys|;
    }
  }

  lemma DropInv(c: Cache, ext: map<Id, nat>, h: HashFn, d: Id)
    requires Inv(c, ext, h) && d in c.live
    ensures Inv(Drop(c, h, d), ext, h)
  {
    UnhashOk(c, h, d);
    HashedInv(c, ext, h, d, false, Drop(c, h, d).table);
  }

  lemma RehashInv(c: Cache, ext: map<Id, nat>, h: HashFn, d: Id)
    requires Inv(c, ext, h) && d in c.live && !c.live[d].hashed
    ensures var o := Rehash(c, h, d); o.Done? && Inv(o.cache, ext, h)
  {
    var c' := Rehash(c, h, d).cache;
    assert HashOk(c'.live, c'.table, h) by {
      assert ChainOk(c.live, c.table, h, BucketOf(c, h, d));
      forall b | 0 <= b < |c'.table| ensures ChainOk(c'.live, c'.table, h, b) {
        assert ChainOk(c.live, c.table, h, b);
      }
      forall x ensures Bucketed(c'.live, c'.table, h, x) {
        assert Bucketed(c.live, c.table, h, x);
      }
    }
    HashedInv(c, ext, h, d, true, c'.table);
  }

  // ---------------------------------------------------------------- allocation

  /** What the allocator guarantees about the new dentry, its name buffer and its inline bytes. */
  predicate AllocReady(c: Cache, id: Id, text: seq<char>, buf: Buf, pad: seq<char>) {
    && id !in c.live && buf !in c.bufs
    && |pad| == (if |text| < DNAME_INLINE_LEN then DNAME_INLINE_LEN - |text| else DNAME_INLINE_LEN)
  }

  function AllocExt(ext: map<Id, nat>, id: Id, parent: Id): map<Id, nat> {
    (if parent == id then ext else Release(ext, parent))[id := 1]
  }

  lemma AllocTree(live: map<Id, Dentry>, live': map<Id, Dentry>, id: Id, parent: Id, e: Dentry)
    requires TreeOk(live) && Acyclic(live) && id !in live && e.parent == parent && e.subdirs == []
    requires parent == id || parent in live
    requires live' == (if parent == id then live
                       else live[parent := live[parent].(subdirs := [id] + live[parent].subdirs)])[id := e]
    ensures TreeOk(live') && Acyclic(live')
  {
    forall x ensures Node(live', x) {
      assert Node(live, x) && Node(live, parent);
    }
    var rank :| RankOk(live, rank);
    var rank' := rank[id := if parent == id then 0 else rank[parent] + 1];
    assert rank'.Keys == live'.Keys;
    forall x ensures Ranked(live', rank', x) {
      assert Ranked(live, rank, x) && Node(live, x);
    }
    assert RankOk(live', rank');
  }

  /** An external name brings one new buffer, an inline one none. */
  ghost predicate NewBuf(name: NamePtr, bufs: map<Buf, seq<char>>, bufs': map<Buf, seq<char>>) {
    match name
    case Inline => bufs' == bufs
    case External(b) => b !in bufs && b in bufs' && bufs' - {b} == bufs
  }

  lemma AllocNames(live: map<Id, Dentry>, live': map<Id, Dentry>, bufs: map<Buf, seq<char>>, bufs': map<Buf, seq<char>>, id: Id)
    requires NamesOk(live, bufs) && id !in live && live'.Keys == live.Keys + {id}
    requires forall x :: x in live ==>
      live'[x].name == live[x].name && live'[x].iname == live[x].iname && live'[x].len == live[x].len
    requires NameFits(live', bufs', id)
    requires NewBuf(live'[id].name, bufs, bufs')
    ensures NamesOk(live', bufs')
  {
    forall x ensures NameFits(live', bufs', x) {
      assert NameFits(live, bufs, x);
      assert forall b :: b in bufs ==> b in bufs' && bufs'[b] == bufs[b] by {
        if live'[id].name.External? {
          assert forall b :: b in bufs ==> (bufs' - {live'[id].name.buf})[b] == bufs[b];
        }
      }
    }
    forall x, y ensures SoleOwner(live', x, y) {
      assert SoleOwner(live, x, y) && NameFits(live, bufs, x) && NameFits(live, bufs, y);
    }
    forall b | b in bufs' ensures Owned(live', b) {
      if live'[id].name == External(b) {
      } else {
        assert b in bufs && Owned(live, b);
        var x :| x in live && live[x].name == External(b);
        assert x in live' && live'[x].name == External(b);
      }
    }
  }

  lemma AllocCounts(c: Cache, c': Cache, ext: map<Id, nat>, h: HashFn, id: Id, parent: Id)
    requires CountOk(c.live, ext) && UnusedOk(c.live, c.unused) && HashOk(c.live, c.table, h) && id !in c.live
    requires parent == id || (parent in c.live && ext[parent] > 0)
    requires c'.live.Keys == c.live.Keys + {id} && c'.unused == c.unused && c'.table == c.table
    requires c'.live[id].count == 1 && c'.live[id].subdirs == [] && !c'.live[id].hashed
    requires forall x :: x in c.live ==>
      c'.live[x] == if x == parent then c.live[x].(subdirs := [id] + c.live[x].subdirs) else c.live[x]
    ensures CountOk(c'.live, AllocExt(ext, id, parent)) && UnusedOk(c'.live, c.unused) && HashOk(c'.live, c.table, h)
  {
    var ext' := AllocExt(ext, id, parent);
    assert ext'.Keys == c'.live.Keys;
    forall x ensures Counted(c'.live, ext', x) {
      assert Counted(c.live, ext, x);
    }
    forall x ensures Listed(c'.live, c.unused, x) {
      assert Listed(c.live, c.unused, x);
    }
    forall b | 0 <= b < |c.table| ensures ChainOk(c'.live, c.table, h, b) {
      assert ChainOk(c.live, c.table, h, b);
    }
    forall x ensures Bucketed(c'.live, c.table, h, x) {
      assert Bucketed(c.live, c.table, h, x);
    }
  }

  lemma AllocBufs(c: Cache, id: Id, parent: Id, hash: nat, text: seq<char>, buf: Buf, pad: seq<char>)
    requires AllocReady(c, id, text, buf, pad) && (parent == id || parent in c.live)
    ensures var c' := Alloc(c, id, parent, hash, text, buf, pad);
            id in c'.live && NameFits(c'.live, c'.bufs, id) && NewBuf(c'.live[id].name, c.bufs, c'.bufs)
  {
    assert c.bufs[buf := text] - {buf} == c.bufs;
  }

  lemma AllocShape(c: Cache, id: Id, parent: Id, hash: nat, text: seq<char>, buf: Buf, pad: seq<char>)
    requires id !in c.live && (parent == id || parent in c.live)
    ensures var c' := Alloc(c, id, parent, hash, text, buf, pad);
            && c'.live.Keys == c.live.Keys + {id}
            && c'.live[id].parent == parent
            && c'.live == (if parent == id then c.live
                           else c.live[parent := c.live[parent].(subdirs := [id] + c.live[parent].subdirs)])[id := c'.live[id]]
            && c'.live[id].count == 1 && c'.live[id].subdirs == [] && !c'.live[id].hashed
            && c'.unused == c.unused && c'.table == c.table
            && c'.nrDentry == c.nrDentry + 1 && c'.nrUnused == c.nrUnused
            && |c'.live| == |c.live| + 1
  {
    var c' := Alloc(c, id, parent, hash, text, buf, pad);
    assert c'.live.Keys == c.live.Keys + {id};
    assert |c'.live.Keys| == |c.live.Keys| + 1;
  }

  lemma AllocGlue(c: Cache, c': Cache, ext: map<Id, nat>, h: HashFn, id: Id, parent: Id)
    requires Inv(c, ext, h) && id !in c.live && c'.live.Keys == c.live.Keys + {id}
    requires parent == id || (parent in c.live && ext[parent] > 0)
    requires c'.live[id].parent == parent
    requires c'.live == (if parent == id then c.live
                         else c.live[parent := c.live[parent].(subdirs := [id] + c.live[parent].subdirs)])[id := c'.live[id]]
    requires c'.live[id].count == 1 && c'.live[id].subdirs == [] && !c'.live[id].hashed
    requires c'.unused == c.unused && c'.table == c.table
    requires c'.nrDentry == c.nrDentry + 1 && c'.nrUnused == c.nrUnused && |c'.live| == |c.live| + 1
    requires NameFits(c'.live, c'.bufs, id)
    requires NewBuf(c'.live[id].name, c.bufs, c'.bufs)
    ensures Inv(c', AllocExt(ext, id, parent), h)
  {
    AllocOthers(c.live, c'.live, id, parent, c'.live[id]);
    AllocTree(c.live, c'.live, id, parent, c'.live[id]);
    AllocRest(c, c', ext, h, id, parent);
  }

  lemma AllocRest(c: Cache, c': Cache, ext: map<Id, nat>, h: HashFn, id: Id, parent: Id)
    requires Inv(c, ext, h) && id !in c.live && c'.live.Keys == c.live.Keys + {id}
    requires parent == id || (parent in c.live && ext[parent] > 0)
    requires forall x :: x in c.live ==>
      c'.live[x] == if x == parent then c.live[x].(subdirs := [id] + c.live[x].subdirs) else c.live[x]
    requires TreeOk(c'.live) && Acyclic(c'.live)
    requires c'.live[id].count == 1 && c'.live[id].subdirs == [] && !c'.live[id].hashed
    requires c'.unused == c.unused && c'.table == c.table
    requires c'.nrDentry == c.nrDentry + 1 && c'.nrUnused == c.nrUnused && |c'.live| == |c.live| + 1
    requires NameFits(c'.live, c'.bufs, id)
    requires NewBuf(c'.live[id].name, c.bufs, c'.bufs)
    ensures Inv(c', AllocExt(ext, id, parent), h)
  {
    var names := NamesOk(c'.live, c'.bufs);
    assert names by {
      AllocNames(c.live, c'.live, c.bufs, c'.bufs, id);
    }
    var ok := Inv(c', AllocExt(ext, id, parent), h);
    assert ok by {
      AllocCounts(c, c', ext, h, id, parent);
    }
  }

  /** What an allocation does to the dentries that exist: the parent gets a child. */
  lemma AllocOthers(live: map<Id, Dentry>, live': map<Id, Dentry>, id: Id, parent: Id, e: Dentry)
    requires id !in live && (parent == id || parent in live)
    requires live' == (if parent == id then live
                       else live[parent := live[parent].(subdirs := [id] + live[parent].subdirs)])[id := e]
    ensures forall x :: x in live ==>
      x in live' && live'[x] == if x == parent then live[x].(subdirs := [id] + live[x].subdirs) else live[x]
  {
  }

  lemma AllocInv(c: Cache, ext: map<Id, nat>, h: HashFn, id: Id, parent: Id,
                 hash: nat, text: seq<char>, buf: Buf, pad: seq<char>)
    requires Inv(c, ext, h) && AllocReady(c, id, text, buf, pad)
    requires parent == id || (parent in ext && ext[parent] > 0)
    ensures parent == id || parent in c.live
    ensures Inv(Alloc(c, id, parent, hash, text, buf, pad), AllocExt(ext, id, parent), h)
  {
    var c' := Alloc(c, id, parent, hash, text, buf, pad);
    AllocShape(c, id, parent, hash, text, buf, pad);
    AllocBufs(c, id, parent, hash, text, buf, pad);
    AllocGlue(c, c', ext, h, id, parent);
  }
}
