/** Runs: any number of threads execute the regions of the dentry cache in any order. */
module DcacheRuns {
  import opened Seqs
  import opened DcacheModel
  import opened DcacheSafety
  import opened DcacheMove

  /** One region, as some thread executes it. */
  datatype Region =
    | Dget(d: Id)
    | DgetLocked(d: Id)
    | Dput(d: Id)
    | Prune
    | DAlloc(id: Id, parent: Id, hash: nat, text: seq<char>, buf: Buf, pad: seq<char>)
    | DLookup(key: Key)
    | DDrop(d: Id)
    | DInvalidate(d: Id, isDir: bool)
    | DRehash(d: Id)
    | DMove(d: Id, t: Id)
    | Select(unused: seq<Id>)

  datatype World = World(cache: Cache, ext: map<Id, nat>) | Crashed

  /** What the callers promise: they hold the references they work on, `dget` is not called on a
      count of 0, `d_rehash` on an unhashed dentry only, and a rename does not move a directory
      below itself. `Select` stands for any reordering of the unused list. */
  ghost predicate Legal(w: World, r: Region)
    requires w.World?
  {
    var c, ext := w.cache, w.ext;
    match r
    case Dget(d) => d in c.live && c.live[d].count > 0
    case DgetLocked(d) => d in c.live
    case Dput(d) => d in ext && ext[d] > 0
    case Prune => true
    case DAlloc(id, parent, _, text, buf, pad) =>
      AllocReady(c, id, text, buf, pad) && (parent == id || (parent in ext && ext[parent] > 0))
    case DLookup(key) => true
    case DDrop(d) => d in ext && ext[d] > 0
    case DInvalidate(d, _) => d in ext && ext[d] > 0
    case DRehash(d) => d in ext && ext[d] > 0 && d in c.live && !c.live[d].hashed
    case DMove(d, t) => MoveReady(c, ext, d, t) && MoveAllowed(c.live, d, t)
    case Select(unused) =>
      NoDup(unused) && |unused| == |c.unused| && forall d :: d in unused <==> d in c.unused
  }

  function After(ext: map<Id, nat>, o: Outcome): World {
    if o.Bug? then Crashed else World(o.cache, Owing(ext, o))
  }

  /** The world after a region; a BUG() check that fires stops it. */
  function Exec(w: World, h: HashFn, r: Region): World
    requires w.World?
  {
    var c, ext := w.cache, w.ext;
    match r
    case Dget(d) => if d in c.live && c.live[d].count > 0 then World(Get(c, d), Hold(ext, d)) else Crashed
    case DgetLocked(d) => if d in c.live then World(GetLocked(c, d), Hold(ext, d)) else Crashed
    case Dput(d) =>
      if d in c.live && c.live[d].count > 0 then After(Release(ext, d), PutStep(c, h, d)) else Crashed
    case Prune =>
      if c.unused == [] then w
      else if c.unused[|c.unused| - 1] in c.live then After(ext, PruneStep(c, h)) else Crashed
    case DAlloc(id, parent, hash, text, buf, pad) =>
      if parent == id || parent in c.live
      then World(Alloc(c, id, parent, hash, text, buf, pad), AllocExt(ext, id, parent)) else Crashed
    case DLookup(key) =>
      World(Lookup(c, h, key), match Find(c, h, key) case None => ext case Some(d) => Hold(ext, d))
    case DDrop(d) => if d in c.live then World(Drop(c, h, d), ext) else Crashed
    case DInvalidate(d, isDir) =>
      if d !in c.live then Crashed
      else if !c.live[d].hashed || (c.live[d].count > 1 && isDir) then w
      else World(Drop(c, h, d), ext)
    case DRehash(d) => if d in c.live then After(ext, Rehash(c, h, d)) else Crashed
    case DMove(d, t) => if d in c.live && t in c.live then World(Move(c, h, d, t), ext) else Crashed
    case Select(unused) => World(c.(unused := unused), ext)
  }

  ghost predicate Good(w: World, h: HashFn) {
    w.World? && Inv(w.cache, w.ext, h)
  }

  /** The cache at boot, with `n` hash queues. */
  function Boot(n: nat): World { World(Cache(map[], [], seq(n, i => []), map[], 0, 0), map[]) }

  lemma BootGood(h: HashFn, n: nat)
    requires forall p, x :: h(p, x) < n
    ensures Good(Boot(n), h)
  {
    var c := Boot(n).cache;
    var rank: map<Id, nat> := map[];
    assert RankOk(c.live, rank);
  }

  lemma ExecGood(w: World, h: HashFn, r: Region)
    requires Good(w, h) && Legal(w, r)
    ensures Good(Exec(w, h, r), h)
  {
    var c, ext := w.cache, w.ext;
    match r
    case Dget(d) => GetInv(c, ext, h, d);
    case DgetLocked(d) => GetLockedInv(c, ext, h, d);
    case Dput(d) => PutInv(c, ext, h, d);
    case Prune => if c.unused != [] { PruneInv(c, ext, h); }
    case DAlloc(id, parent, hash, text, buf, pad) => AllocInv(c, ext, h, id, parent, hash, text, buf, pad);
    case DLookup(key) => LookupInv(c, ext, h, key);
    case DDrop(d) => DropInv(c, ext, h, d);
    case DInvalidate(d, isDir) => DropInv(c, ext, h, d);
    case DRehash(d) => RehashInv(c, ext, h, d);
    case DMove(d, t) => MoveInv(c, ext, h, d, t);
    case Select(unused) => ReorderInv(c, ext, h, unused);
  }

  /** The world after a whole run; every region must be legal where it starts. */
  ghost predicate LegalRun(w: World, h: HashFn, run: seq<Region>)
    decreases |run|
  {
    run == [] || (w.World? && Legal(w, run[0]) && LegalRun(Exec(w, h, run[0]), h, run[1..]))
  }

  function Execute(w: World, h: HashFn, run: seq<Region>): World
    decreases |run|
  {
    if run == [] || w.Crashed? then w else Execute(Exec(w, h, run[0]), h, run[1..])
  }

  /** Safety over every run: counts, lists, hash queues, names and statistics stay exact and no
      BUG() check ever fires. */
  lemma {:induction false} RunGood(w: World, h: HashFn, run: seq<Region>)
    requires Good(w, h) && LegalRun(w, h, run)
    ensures Good(Execute(w, h, run), h)
    decreases |run|
  {
    if run != [] {
      ExecGood(w, h, run[0]);
      RunGood(Exec(w, h, run[0]), h, run[1..]);
    }
  }

  /** A dentry disappears only in a region that found it childless and without any reference but
      the one being put. */
  lemma FreedUnreferenced(w: World, h: HashFn, r: Region, d: Id)
    requires Good(w, h) && Legal(w, r) && d in w.cache.live
    ensures var w' := Exec(w, h, r);
            w'.World? && (d !in w'.cache.live ==>
              w.cache.live[d].subdirs == [] && (w.ext[d] == 0 || (r == Dput(d) && w.ext[d] == 1)))
  {
    ExecGood(w, h, r);
    var c, ext := w.cache, w.ext;
    match r
    case Dput(e) => PutFrees(w, h, e, d);
    case Prune => PruneFrees(w, h, d);
    case DMove(a, b) => MoveAllowedApart(c.live, a, b); MoveShape(c, h, a, b);
    case DLookup(key) => LookupInv(c, ext, h, key);
    case _ =>
  }

  lemma PutFrees(w: World, h: HashFn, e: Id, d: Id)
    requires Good(w, h) && Legal(w, Dput(e)) && d in w.cache.live
    ensures var w' := Exec(w, h, Dput(e));
            w'.World? ==> d !in w'.cache.live ==> w.cache.live[d].subdirs == [] && d == e && w.ext[d] == 1
  {
    PutInv(w.cache, w.ext, h, e);
    assert Node(w.cache.live, e);
  }

  lemma PruneFrees(w: World, h: HashFn, d: Id)
    requires Good(w, h) && d in w.cache.live
    ensures var w' := Exec(w, h, Prune);
            w'.World? ==> d !in w'.cache.live ==> w.cache.live[d].subdirs == [] && w.ext[d] == 0
  {
    if w.cache.unused != [] {
      PruneInv(w.cache, w.ext, h);
      assert Node(w.cache.live, w.cache.unused[|w.cache.unused| - 1]);
    }
  }
}
