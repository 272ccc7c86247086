/** What every region of the dentry cache does to the lookups: which dentry a name finds before
    and after it. */
module DcacheLookups {
  import opened Options
  import opened Seqs
  import opened DcacheModel
  import opened DcacheSafety
  import opened DcacheMove
  import opened DcacheRuns

  // ---------------------------------------------------------------- scans

  /** A scan depends on nothing but which entries match. */
  lemma {:induction false} ScanSame(c: Cache, c': Cache, s: seq<Id>, k: Key)
    requires forall x :: x in s ==> (Matches(c', x, k) <==> Matches(c, x, k))
    ensures Scan(c', s, k) == Scan(c, s, k)
  {
    if s != [] {
      assert s[0] in s;
      ScanSame(c, c', s[1..], k);
    }
  }

  /** Taking an entry out of a chain: it is not found, and whoever was found in spite of it still is. */
  lemma ScanOut(c: Cache, s: seq<Id>, d: Id, k: Key)
    ensures Scan(c, Without(s, d), k) != Some(d)
    ensures Scan(c, s, k) != Some(d) ==> Scan(c, Without(s, d), k) == Scan(c, s, k)
  {
    ScanIn(c, s, k);
    ScanIn(c, Without(s, d), k);
    match Scan(c, s, k)
    case None =>
    case Some(t) => if t != d { ScanSkip(c, s, d, t, k); }
  }

  /** The lookups after `d` is gone from the hash queues: no name finds it, and every name that
      found another dentry, or none, finds the same. */
  ghost predicate Unfound(c: Cache, c': Cache, h: HashFn, d: Id, k: Key) {
    && Find(c', h, k) != Some(d)
    && (Find(c, h, k) != Some(d) ==> Find(c', h, k) == Find(c, h, k))
  }

  lemma OutOfChains(c: Cache, c': Cache, h: HashFn, d: Id, k: Key)
    requires HashOk(c.live, c.table, h) && |c'.table| == |c.table|
    requires forall b :: 0 <= b < |c.table| ==> c'.table[b] == Without(c.table[b], d)
    requires forall x :: x in c.live && x != d ==> (Matches(c', x, k) <==> Matches(c, x, k))
    ensures Unfound(c, c', h, d, k)
  {
    var b := h(k.parent, k.hash);
    var s := c.table[b];
    assert ChainOk(c.live, c.table, h, b);
    ScanSame(c, c', Without(s, d), k);
    ScanOut(c, s, d, k);
  }

  // ---------------------------------------------------------------- d_rehash and d_drop

  /** `d_rehash` makes its dentry the one its name finds, and no other name finds anything else. */
  lemma RehashFinds(c: Cache, ext: map<Id, nat>, h: HashFn, d: Id, k: Key)
    requires Inv(c, ext, h) && d in c.live && !c.live[d].hashed
    ensures var o := Rehash(c, h, d);
            o.Done? && Find(o.cache, h, k) == if k == KeyOf(c, d) then Some(d) else Find(c, h, k)
  {
    var c', b := Rehash(c, h, d).cache, h(k.parent, k.hash);
    var s := c.table[b];
    assert NameFits(c.live, c.bufs, d);
    MatchesKey(c, d, k);
    ScanSame(c, c', s, k);
    if b == BucketOf(c, h, d) {
      assert ([d] + s)[1..] == s;
    }
  }

  /** After `d_drop` no name finds the dentry; the other lookups answer as before. */
  lemma DropFinds(c: Cache, ext: map<Id, nat>, h: HashFn, d: Id, k: Key)
    requires Inv(c, ext, h) && d in c.live
    ensures Unfound(c, Drop(c, h, d), h, d, k)
    ensures k != KeyOf(c, d) ==> Find(Drop(c, h, d), h, k) == Find(c, h, k)
  {
    UnhashChains(c, h, d);
    OutOfChains(c, Drop(c, h, d), h, d, k);
    FindExact(c, ext, h, k);
  }

  /** Dropping a dentry and hashing it again puts it first under its name and changes nothing else. */
  lemma DropRehash(c: Cache, ext: map<Id, nat>, h: HashFn, d: Id, k: Key)
    requires Inv(c, ext, h) && d in c.live
    ensures var o := Rehash(Drop(c, h, d), h, d);
            o.Done? && Find(o.cache, h, k) == if k == KeyOf(c, d) then Some(d) else Find(c, h, k)
  {
    DropInv(c, ext, h, d);
    DropFinds(c, ext, h, d, k);
    RehashFinds(Drop(c, h, d), ext, h, d, k);
  }

  // ---------------------------------------------------------------- the other regions

  lemma SameShapeFinds(c: Cache, c': Cache, h: HashFn, k: Key)
    requires SameShape(c.live, c'.live) && c'.table == c.table && c'.bufs == c.bufs
    ensures Find(c', h, k) == Find(c, h, k)
  {
    ScanSame(c, c', Chain(c, h(k.parent, k.hash)), k);
  }

  /** Freeing a dentry and its name takes it out of the lookups and touches no other name. */
  lemma KillFinds(c: Cache, h: HashFn, d: Id, k: Key)
    requires d in c.live && HashOk(c.live, c.table, h) && NamesOk(c.live, c.bufs)
    ensures Unfound(c, Kill(c, h, d).cache, h, d, k)
  {
    var c' := Kill(c, h, d).cache;
    UnhashChains(c, h, d);
    forall x | x in c.live && x != d ensures Matches(c', x, k) <==> Matches(c, x, k) {
      assert SoleOwner(c.live, x, d);
    }
    OutOfChains(c, c', h, d, k);
  }

  lemma UnhashedUnfound(c: Cache, h: HashFn, d: Id, k: Key)
    requires d in c.live && !c.live[d].hashed && HashOk(c.live, c.table, h)
    ensures Find(c, h, k) != Some(d)
  {
    var b := h(k.parent, k.hash);
    assert ChainOk(c.live, c.table, h, b);
    ScanIn(c, c.table[b], k);
  }

  /** `dput` changes no lookup: what it frees was unhashed. */
  lemma PutFinds(c: Cache, h: HashFn, d: Id, k: Key)
    requires d in c.live && c.live[d].count > 0 && HashOk(c.live, c.table, h) && NamesOk(c.live, c.bufs)
    ensures var o := PutStep(c, h, d); !o.Bug? ==> Find(o.cache, h, k) == Find(c, h, k)
  {
    var c1 := c.(live := c.live[d := c.live[d].(count := c.live[d].count - 1)]);
    SameShapeFinds(c, c1, h, k);
    var o := PutStep(c, h, d);
    if o.Freed? {
      SameHashOk(c, c1, h);
      KillFinds(c1, h, d, k);
      UnhashedUnfound(c1, h, d, k);
    } else if o.Done? {
      SameShapeFinds(c, o.cache, h, k);
    }
  }

  lemma SameHashOk(c: Cache, c': Cache, h: HashFn)
    requires HashOk(c.live, c.table, h) && NamesOk(c.live, c.bufs)
    requires SameShape(c.live, c'.live) && c'.table == c.table && c'.bufs == c.bufs
    ensures HashOk(c'.live, c'.table, h) && NamesOk(c'.live, c'.bufs)
  {
    SameNamesOk(c.live, c'.live, c.bufs);
    forall b | 0 <= b < |c.table| ensures ChainOk(c'.live, c.table, h, b) {
      assert ChainOk(c.live, c.table, h, b);
    }
    forall x ensures Bucketed(c'.live, c.table, h, x) {
      assert Bucketed(c.live, c.table, h, x);
    }
  }

  /** A pass of `prune_dcache` changes the lookups exactly by the dentry it frees. */
  lemma PruneFinds(c: Cache, h: HashFn, d: Id, k: Key)
    requires c.unused != [] && d == c.unused[|c.unused| - 1] && d in c.live
    requires HashOk(c.live, c.table, h) && NamesOk(c.live, c.bufs)
    ensures match PruneStep(c, h)
            case Bug => true
            case Done(c') => Find(c', h, k) == Find(c, h, k)
            case Freed(c', _, _) => d !in c'.live && Unfound(c, c', h, d, k)
  {
    var o := PruneStep(c, h);
    if o.Freed? {
      var c1 := c.(unused := c.unused[..|c.unused| - 1], nrUnused := c.nrUnused - 1);
      SameShapeFinds(c, c1, h, k);
      KillFinds(c1, h, d, k);
    } else if o.Done? {
      SameShapeFinds(c, o.cache, h, k);
    }
  }

  /** A new dentry is unhashed, so no name finds it yet, and the others are found as before. */
  lemma AllocFinds(c: Cache, ext: map<Id, nat>, h: HashFn, id: Id, parent: Id,
                   hash: nat, text: seq<char>, buf: Buf, pad: seq<char>, k: Key)
    requires Inv(c, ext, h) && AllocReady(c, id, text, buf, pad) && (parent == id || parent in c.live)
    ensures Find(Alloc(c, id, parent, hash, text, buf, pad), h, k) == Find(c, h, k)
  {
    var c', b := Alloc(c, id, parent, hash, text, buf, pad), h(k.parent, k.hash);
    assert ChainOk(c.live, c.table, h, b);
    forall x | x in c.table[b] ensures Matches(c', x, k) <==> Matches(c, x, k) {
      assert NameFits(c.live, c.bufs, x);
    }
    ScanSame(c, c', c.table[b], k);
  }

  lemma LookupFinds(c: Cache, h: HashFn, key: Key, k: Key)
    ensures Find(Lookup(c, h, key), h, k) == Find(c, h, k)
  {
    SameShapeFinds(c, Lookup(c, h, key), h, k);
  }

  /** The region takes `d` out of the lookups. */
  predicate Forgets(w: World, r: Region, w': World, d: Id)
    requires w.World? && w'.World?
  {
    match r
    case Prune => d !in w'.cache.live
    case DDrop(x) => d == x
    case DInvalidate(x, isDir) => d == x && d in w.cache.live && !(w.cache.live[d].count > 1 && isDir)
    case _ => false
  }

  /** What `k` finds after a region, from what it found before: a rehashed dentry under its own
      name, no dentry that the region drops, invalidates or frees, and otherwise the same. */
  ghost predicate Answers(w: World, h: HashFn, r: Region, w': World, k: Key) {
    && w.World? && w'.World?
    && var f, f' := Find(w.cache, h, k), Find(w'.cache, h, k);
       if r.DRehash? && r.d in w.cache.live && k == KeyOf(w.cache, r.d) then f' == Some(r.d)
       else if f.Some? && Forgets(w, r, w', f.value) then f' != f
       else f' == f
  }

  lemma PutAnswers(w: World, h: HashFn, r: Region, k: Key)
    requires Good(w, h) && Legal(w, r) && r.Dput?
    ensures Answers(w, h, r, Exec(w, h, r), k)
  {
    PutInv(w.cache, w.ext, h, r.d);
    PutFinds(w.cache, h, r.d, k);
  }

  lemma PruneAnswers(w: World, h: HashFn, r: Region, k: Key)
    requires Good(w, h) && r.Prune?
    ensures Answers(w, h, r, Exec(w, h, r), k)
  {
    var c := w.cache;
    FindLive(c, h, k);
    if c.unused != [] {
      var d := c.unused[|c.unused| - 1];
      PruneInv(c, w.ext, h);
      PruneFinds(c, h, d, k);
      PruneKeys(c, h, d);
    }
  }

  lemma FindLive(c: Cache, h: HashFn, k: Key)
    ensures Find(c, h, k).Some? ==> Find(c, h, k).value in c.live
  {
    ScanIn(c, Chain(c, h(k.parent, k.hash)), k);
  }

  lemma PruneKeys(c: Cache, h: HashFn, d: Id)
    requires c.unused != [] && d == c.unused[|c.unused| - 1] && d in c.live
    ensures match PruneStep(c, h)
            case Bug => true
            case Done(c') => c'.live.Keys == c.live.Keys
            case Freed(c', _, _) => c'.live.Keys == c.live.Keys - {d}
  {
    KillShape(c, h, d);
  }

  lemma HashAnswers(w: World, h: HashFn, r: Region, k: Key)
    requires Good(w, h) && Legal(w, r) && (r.DDrop? || r.DInvalidate? || r.DRehash?)
    ensures Answers(w, h, r, Exec(w, h, r), k)
  {
    FindLive(w.cache, h, k);
    if r.DRehash? {
      RehashFinds(w.cache, w.ext, h, r.d, k);
    } else {
      assert Counted(w.cache.live, w.ext, r.d);
      DropFinds(w.cache, w.ext, h, r.d, k);
      if r.DInvalidate? && !w.cache.live[r.d].hashed {
        UnhashedUnfound(w.cache, h, r.d, k);
      }
    }
  }

  lemma AllocAnswers(w: World, h: HashFn, r: Region, k: Key)
    requires Good(w, h) && Legal(w, r) && r.DAlloc?
    ensures Answers(w, h, r, Exec(w, h, r), k)
  {
    var c := w.cache;
    assert r.parent == r.id || r.parent in c.live;
    AllocFinds(c, w.ext, h, r.id, r.parent, r.hash, r.text, r.buf, r.pad, k);
  }

  lemma OtherAnswers(w: World, h: HashFn, r: Region, k: Key)
    requires w.World? && Legal(w, r) && (r.Dget? || r.DgetLocked? || r.DLookup? || r.Select?)
    ensures Answers(w, h, r, Exec(w, h, r), k)
  {
    if r.DLookup? {
      LookupFinds(w.cache, h, r.key, k);
    } else {
      SameShapeFinds(w.cache, Exec(w, h, r).cache, h, k);
    }
  }

  /** What every name finds after every region but a rename, which is the subject of `MoveFind`. */
  lemma FindAfter(w: World, h: HashFn, r: Region, k: Key)
    requires Good(w, h) && Legal(w, r) && !r.DMove?
    ensures Answers(w, h, r, Exec(w, h, r), k)
  {
    match r
    case Dput(_) => PutAnswers(w, h, r, k);
    case Prune => PruneAnswers(w, h, r, k);
    case DDrop(_) => HashAnswers(w, h, r, k);
    case DInvalidate(_, _) => HashAnswers(w, h, r, k);
    case DRehash(_) => HashAnswers(w, h, r, k);
    case DAlloc(_, _, _, _, _, _) => AllocAnswers(w, h, r, k);
    case _ => OtherAnswers(w, h, r, k);
  }
}
