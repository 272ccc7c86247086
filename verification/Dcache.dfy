/** The loops of fs/dcache.c, run by one thread: the upward cascade of `dput`, pruning from the
    tail of the unused list, the stackless tree walk, and shrinking below a dentry. */
module Dcache {
  import opened Options
  import opened Seqs
  import opened DcacheModel
  import opened DcacheSafety
  import opened DcacheMove
  import opened DcacheWalk
  import opened DcacheRuns

  // ---------------------------------------------------------------- the whole of dput

  /** `dput` with its cascade: each freed dentry hands over a put of its parent. */
  function PutAll(w: World, h: HashFn, d: Id): World
    decreases if w.World? then |w.cache.live| else 0
  {
    if w.Crashed? || d !in w.cache.live || w.cache.live[d].count == 0 then Crashed
    else
      var o := PutStep(w.cache, h, d);
      var w' := Exec(w, h, Dput(d));
      match o
      case Freed(c', _, Some(p)) => if |c'.live| < |w.cache.live| then PutAll(w', h, p) else Crashed
      case _ => w'
  }

  /** The parent a region of `dput` leaves to be put. */
  function Owed(o: Outcome): Option<Id> {
    if o.Freed? then o.owed else None
  }

  function Flagged(live: map<Id, Dentry>): set<Id> {
    set d | d in live && live[d].referenced
  }

  /** Live dentries plus REFERENCED flags: what pruning uses up. */
  function Measure(c: Cache): nat {
    |c.live| + |Flagged(c.live)|
  }

  /** The dentries of `live'` are dentries of `live` with the same parents and no new flags. */
  ghost predicate Shrunk(live: map<Id, Dentry>, live': map<Id, Dentry>) {
    && live'.Keys <= live.Keys
    && forall x :: x in live' ==>
         live'[x].parent == live[x].parent && live'[x].hashed == live[x].hashed &&
         (live'[x].referenced ==> live[x].referenced)
  }

  lemma ShrunkMeasure(c: Cache, c': Cache)
    requires Shrunk(c.live, c'.live)
    ensures Measure(c') <= Measure(c)
    ensures c'.live.Keys != c.live.Keys ==> |c'.live| < |c.live| && Measure(c') < Measure(c)
    ensures Flagged(c'.live) != Flagged(c.live) ==> Measure(c') < Measure(c)
  {
    SubsetCard(c'.live.Keys, c.live.Keys);
    SubsetCard(Flagged(c'.live), Flagged(c.live));
  }

  lemma {:induction false} SubsetCard(a: set<Id>, b: set<Id>)
    requires a <= b
    ensures |a| <= |b| && (a != b ==> |a| < |b|)
  {
    if a != {} {
      var x :| x in a;
      SubsetCard(a - {x}, b - {x});
      assert a != b ==> a - {x} != b - {x} by {
        if a - {x} == b - {x} {
          assert a == (a - {x}) + {x} && b == (b - {x}) + {x};
        }
      }
    }
  }

  lemma {:induction false} ShrunkUp(live: map<Id, Dentry>, live': map<Id, Dentry>, x: Id, n: nat)
    requires Shrunk(live, live') && TreeOk(live') && x in live'
    ensures Up(live', x, n) == Up(live, x, n)
    decreases n
  {
    if n > 0 {
      assert Node(live', x);
      ShrunkUp(live, live', live[x].parent, n - 1);
    }
  }

  lemma ShrunkAncestor(live: map<Id, Dentry>, live': map<Id, Dentry>, a: Id, x: Id)
    requires Shrunk(live, live') && TreeOk(live') && x in live' && Ancestor(live', a, x)
    ensures Ancestor(live, a, x)
  {
    var n: nat :| Up(live', x, n) == a;
    ShrunkUp(live, live', x, n);
  }

  lemma StepShrinks(c: Cache, h: HashFn, o: Outcome, d: Id)
    requires d in c.live && !o.Bug?
    requires (c.live[d].count > 0 && o == PutStep(c, h, d)) ||
             (c.unused != [] && c.unused[|c.unused| - 1] == d && o == PruneStep(c, h))
    ensures Shrunk(c.live, o.cache.live)
    ensures o.cache.live.Keys == if o.Freed? then c.live.Keys - {d} else c.live.Keys
    ensures o.Freed? ==> o.d == d && o.owed == (if c.live[d].parent == d then None else Some(c.live[d].parent))
  {
    if o.Freed? {
      if c.live[d].count > 0 && o == PutStep(c, h, d) {
        KillShape(c.(live := c.live[d := c.live[d].(count := c.live[d].count - 1)]), h, d);
      } else {
        KillShape(c.(unused := c.unused[..|c.unused| - 1], nrUnused := c.nrUnused - 1), h, d);
      }
    }
  }

  /** `x` lost one external reference for each time it is `d`; a dentry that is gone had no other. */
  ghost predicate OneLess(ext: map<Id, nat>, ext': map<Id, nat>, d: Id) {
    && ext'.Keys <= ext.Keys
    && (forall x :: x in ext' ==> ext[x] == ext'[x] + (if x == d then 1 else 0))
    && (forall x :: x in ext && x !in ext' ==> ext[x] == (if x == d then 1 else 0))
  }

  /** One reference on `d` is given back, and all that is freed are unhashed, otherwise
      unreferenced dentries on the way from `d` to its root. */
  ghost predicate PutEffect(w: World, w': World, d: Id) {
    && w.World? && w'.World?
    && Shrunk(w.cache.live, w'.cache.live) && OneLess(w.ext, w'.ext, d)
    && forall x :: x in w.cache.live && x !in w'.cache.live ==>
         Ancestor(w.cache.live, x, d) && !w.cache.live[x].hashed
  }

  /** A single pass, seen from the thread that still owes a put of the parent. */
  lemma PutOnce(w: World, h: HashFn, d: Id)
    requires Good(w, h) && d in w.ext && w.ext[d] > 0
    ensures d in w.cache.live && w.cache.live[d].count > 0
    ensures var o, w1 := PutStep(w.cache, h, d), Exec(w, h, Dput(d));
            && Good(w1, h) && !o.Bug? && w1.cache == o.cache && Shrunk(w.cache.live, w1.cache.live)
            && w1.ext == Owing(Release(w.ext, d), o)
            && (o.Done? ==> PutEffect(w, w1, d))
            && (o.Freed? ==>
                  && o.d == d && w.ext[d] == 1 && !w.cache.live[d].hashed && |w1.cache.live| < |w.cache.live|
                  && w1.cache.live.Keys == w.cache.live.Keys - {d}
                  && o.owed == (if w.cache.live[d].parent == d then None else Some(w.cache.live[d].parent)))
  {
    PutInv(w.cache, w.ext, h, d);
    var o := PutStep(w.cache, h, d);
    StepShrinks(w.cache, h, o, d);
    ShrunkMeasure(w.cache, o.cache);
  }

  lemma OneLessChain(ext: map<Id, nat>, ext1: map<Id, nat>, ext': map<Id, nat>, d: Id, p: Id)
    requires d in ext && ext[d] == 1 && p in ext && p != d
    requires ext1 == Hold(Release(ext, d) - {d}, p) && OneLess(ext1, ext', p)
    ensures OneLess(ext, ext', d)
  {
  }

  lemma ShrunkTrans(l0: map<Id, Dentry>, l1: map<Id, Dentry>, l2: map<Id, Dentry>)
    requires Shrunk(l0, l1) && Shrunk(l1, l2)
    ensures Shrunk(l0, l2)
  {
  }

  lemma PutChain(w: World, w1: World, w': World, d: Id, p: Id)
    requires w.World? && w1.World? && PutEffect(w1, w', p) && TreeOk(w1.cache.live)
    requires d in w.cache.live && d in w.ext && w.ext[d] == 1 && !w.cache.live[d].hashed
    requires p == w.cache.live[d].parent && p != d && p in w1.cache.live && p in w.ext
    requires Shrunk(w.cache.live, w1.cache.live)
    requires w1.cache.live.Keys == w.cache.live.Keys - {d} && w1.ext == Hold(Release(w.ext, d) - {d}, p)
    ensures PutEffect(w, w', d)
  {
    var ok := PutEffect(w, w', d);
    assert ok by {
      AncestorStep(w.cache.live, d, d);
      OneLessChain(w.ext, w1.ext, w'.ext, d, p);
      ShrunkTrans(w.cache.live, w1.cache.live, w'.cache.live);
      forall x | x in w.cache.live && x !in w'.cache.live
        ensures Ancestor(w.cache.live, x, d) && !w.cache.live[x].hashed
      {
        if x != d {
          ShrunkAncestor(w.cache.live, w1.cache.live, x, p);
          AncestorStep(w.cache.live, x, d);
        }
      }
    }
  }

  /** `d` is gone, and what is left of the `dput` is that of its parent. */
  ghost predicate StillOwes(w: World, h: HashFn, d: Id, w1: World, p: Id) {
    && w.World? && w1.World? && PutAll(w, h, d) == PutAll(w1, h, p) && |w1.cache.live| < |w.cache.live|
    && d in w.cache.live && d in w.ext && w.ext[d] == 1 && !w.cache.live[d].hashed
    && p == w.cache.live[d].parent && p != d && p in w1.cache.live && p in w.ext
    && Shrunk(w.cache.live, w1.cache.live)
    && w1.cache.live.Keys == w.cache.live.Keys - {d} && w1.ext == Hold(Release(w.ext, d) - {d}, p)
    && p in w1.ext && w1.ext[p] > 0
  }

  /** One pass of the cascade, with the world it leaves and the parent it still has to put. */
  lemma PutPass(w: World, h: HashFn, d: Id) returns (w1: World, next: Option<Id>)
    requires Good(w, h) && d in w.ext && w.ext[d] > 0
    ensures d in w.cache.live && w.cache.live[d].count > 0
    ensures var o := PutStep(w.cache, h, d);
            !o.Bug? && w1 == World(o.cache, Owing(Release(w.ext, d), o)) && next == Owed(o) && Good(w1, h)
    ensures next == None ==> PutAll(w, h, d) == w1 && PutEffect(w, w1, d)
    ensures next != None ==> StillOwes(w, h, d, w1, next.value)
  {
    PutOnce(w, h, d);
    w1 := Exec(w, h, Dput(d));
    next := Owed(PutStep(w.cache, h, d));
    if next == None {
      PutEnds(w, h, d);
    } else {
      PutOwes(w, h, d, next.value);
    }
  }

  lemma PutEnds(w: World, h: HashFn, d: Id)
    requires Good(w, h) && d in w.ext && w.ext[d] > 0 && d in w.cache.live && w.cache.live[d].count > 0
    requires Owed(PutStep(w.cache, h, d)) == None
    ensures PutAll(w, h, d) == Exec(w, h, Dput(d)) && PutEffect(w, PutAll(w, h, d), d)
  {
    PutOnce(w, h, d);
    AncestorStep(w.cache.live, d, d);
  }

  lemma PutOwes(w: World, h: HashFn, d: Id, p: Id)
    requires Good(w, h) && d in w.ext && w.ext[d] > 0 && d in w.cache.live && w.cache.live[d].count > 0
    requires Owed(PutStep(w.cache, h, d)) == Some(p)
    ensures StillOwes(w, h, d, Exec(w, h, Dput(d)), p)
  {
    PutOwesLive(w, h, d, p);
    PutOwesRefs(w, h, d, p);
    PutAllStep(w, h, d, p);
  }

  lemma PutOwesLive(w: World, h: HashFn, d: Id, p: Id)
    requires Good(w, h) && d in w.ext && w.ext[d] > 0 && d in w.cache.live && w.cache.live[d].count > 0
    requires Owed(PutStep(w.cache, h, d)) == Some(p)
    ensures
      var w1 := Exec(w, h, Dput(d));
      && w1.World? && |w1.cache.live| < |w.cache.live| && !w.cache.live[d].hashed
      && p == w.cache.live[d].parent && p != d && p in w1.cache.live && p in w.ext
      && Shrunk(w.cache.live, w1.cache.live) && w1.cache.live.Keys == w.cache.live.Keys - {d}
  {
    PutOnce(w, h, d);
    assert Node(w.cache.live, d);
  }

  lemma PutOwesRefs(w: World, h: HashFn, d: Id, p: Id)
    requires Good(w, h) && d in w.ext && w.ext[d] > 0 && d in w.cache.live && w.cache.live[d].count > 0
    requires Owed(PutStep(w.cache, h, d)) == Some(p)
    ensures
      var w1 := Exec(w, h, Dput(d));
      && w1.World? && w.ext[d] == 1 && w1.ext == Hold(Release(w.ext, d) - {d}, p) && p in w1.ext && w1.ext[p] > 0
  {
    PutOnce(w, h, d);
    assert Node(w.cache.live, d);
  }

  lemma PutAllStep(w: World, h: HashFn, d: Id, p: Id)
    requires Good(w, h) && d in w.ext && w.ext[d] > 0 && d in w.cache.live && w.cache.live[d].count > 0
    requires Owed(PutStep(w.cache, h, d)) == Some(p)
    ensures PutAll(w, h, d) == PutAll(Exec(w, h, Dput(d)), h, p)
  {
    PutOnce(w, h, d);
  }

  /** The effect of a whole `dput`. */
  lemma {:induction false} PutAllEffect(w: World, h: HashFn, d: Id)
    requires Good(w, h) && d in w.ext && w.ext[d] > 0
    ensures Good(PutAll(w, h, d), h) && PutEffect(w, PutAll(w, h, d), d)
    decreases |w.cache.live|
  {
    var w1, next := PutPass(w, h, d);
    if next != None {
      var p := next.value;
      PutAllEffect(w1, h, p);
      PutChain(w, w1, PutAll(w1, h, p), d, p);
    }
  }

  /** `d_alloc`: `dget(parent)` and then the locked region. */
  function Allocated(w: World, id: Id, parent: Id, hash: nat, text: seq<char>, buf: Buf, pad: seq<char>): World
    requires w.World? && (parent == id || parent in w.cache.live)
  {
    var c, ext := if parent == id then w.cache else Get(w.cache, parent), if parent == id then w.ext else Hold(w.ext, parent);
    World(Alloc(c, id, parent, hash, text, buf, pad), AllocExt(ext, id, parent))
  }

  lemma AllocGood(w: World, h: HashFn, id: Id, parent: Id, hash: nat, text: seq<char>, buf: Buf, pad: seq<char>)
    requires Good(w, h) && AllocReady(w.cache, id, text, buf, pad)
    requires parent == id || (parent in w.cache.live && w.cache.live[parent].count > 0)
    ensures Good(Allocated(w, id, parent, hash, text, buf, pad), h)
  {
    var c, ext := w.cache, w.ext;
    if parent != id {
      GetInv(c, ext, h, parent);
      c, ext := Get(c, parent), Hold(ext, parent);
    }
    AllocInv(c, ext, h, id, parent, hash, text, buf, pad);
  }

  /** A new dentry carries the name it was given and one reference, and costs nobody any. */
  lemma AllocatedFresh(w: World, h: HashFn, id: Id, parent: Id, hash: nat, text: seq<char>, buf: Buf, pad: seq<char>)
    requires Good(w, h) && AllocReady(w.cache, id, text, buf, pad) && (parent == id || parent in w.cache.live)
    ensures var w' := Allocated(w, id, parent, hash, text, buf, pad);
            && w'.ext == w.ext[id := 1] && id in w'.cache.live
            && !w'.cache.live[id].hashed && KeyOf(w'.cache, id) == Key(parent, hash, text)
  {
  }

  // ---------------------------------------------------------------- one pass of prune_dcache

  /** `prune_one_dentry` ends with a `dput` of the parent. */
  function PrunePass(w: World, h: HashFn): World {
    if w.Crashed? || w.cache.unused == [] then w
    else if w.cache.unused[|w.cache.unused| - 1] !in w.cache.live then Crashed
    else
      match PruneStep(w.cache, h)
      case Freed(_, _, Some(p)) => PutAll(Exec(w, h, Prune), h, p)
      case _ => Exec(w, h, Prune)
  }

  /** No external reference changes; only dentries without any are gone. */
  ghost predicate SameRefs(ext: map<Id, nat>, ext': map<Id, nat>) {
    && ext'.Keys <= ext.Keys
    && (forall x :: x in ext' ==> ext'[x] == ext[x])
    && (forall x :: x in ext && x !in ext' ==> ext[x] == 0)
  }

  ghost predicate PruneEffect(w: World, w': World) {
    && w.World? && w'.World?
    && Shrunk(w.cache.live, w'.cache.live) && SameRefs(w.ext, w'.ext)
  }

  lemma PruneFacts(w: World, h: HashFn, d: Id)
    requires Good(w, h) && w.cache.unused != [] && d == w.cache.unused[|w.cache.unused| - 1]
    ensures d in w.cache.live
    ensures var o, w1 := PruneStep(w.cache, h), Exec(w, h, Prune);
            && !o.Bug? && Good(w1, h) && w1.cache == o.cache && w1.ext == Owing(w.ext, o)
            && Shrunk(w.cache.live, w1.cache.live) && Measure(w1.cache) < Measure(w.cache)
            && (o.Freed? ==>
                  && o.d == d && w.ext[d] == 0 && w.cache.live[d].parent in w.cache.live
                  && o.owed == (if w.cache.live[d].parent == d then None else Some(w.cache.live[d].parent)))
  {
    var c := w.cache;
    PruneInv(c, w.ext, h);
    var o := PruneStep(c, h);
    StepShrinks(c, h, o, d);
    ShrunkMeasure(c, o.cache);
    if o.Freed? {
      assert Node(c.live, d);
    } else {
      assert d in Flagged(c.live) && d !in Flagged(o.cache.live);
    }
  }

  lemma PruneOnce(w: World, h: HashFn) returns (w1: World, next: Option<Id>, d: Id)
    requires Good(w, h) && w.cache.unused != []
    ensures d == w.cache.unused[|w.cache.unused| - 1] && d in w.cache.live
    ensures var o := PruneStep(w.cache, h); !o.Bug? && w1 == World(o.cache, Owing(w.ext, o)) && next == Owed(o)
    ensures Good(w1, h) && Shrunk(w.cache.live, w1.cache.live) && Measure(w1.cache) < Measure(w.cache)
    ensures next == None ==> PrunePass(w, h) == w1 && SameRefs(w.ext, w1.ext)
    ensures next != None ==>
      && PrunePass(w, h) == PutAll(w1, h, next.value) && d in w.ext && w.ext[d] == 0
      && next.value in w.ext && next.value != d && w1.ext == Hold(w.ext - {d}, next.value)
  {
    d := w.cache.unused[|w.cache.unused| - 1];
    PruneFacts(w, h, d);
    var o := PruneStep(w.cache, h);
    w1 := Exec(w, h, Prune);
    next := Owed(o);
  }

  lemma PutRefs(ext: map<Id, nat>, ext1: map<Id, nat>, ext': map<Id, nat>, d: Id, p: Id)
    requires d in ext && ext[d] == 0 && p in ext && p != d && ext1 == Hold(ext - {d}, p) && OneLess(ext1, ext', p)
    ensures SameRefs(ext, ext')
  {
  }

  /** Each pass of `prune_dcache` uses up a live dentry or a REFERENCED flag. */
  lemma PrunePassEffect(w: World, h: HashFn)
    requires Good(w, h) && w.cache.unused != []
    ensures var w' := PrunePass(w, h);
            Good(w', h) && PruneEffect(w, w') && Measure(w'.cache) < Measure(w.cache)
  {
    var w1, next, d := PruneOnce(w, h);
    if next != None {
      var p := next.value;
      PutAllEffect(w1, h, p);
      var w' := PutAll(w1, h, p);
      PutRefs(w.ext, w1.ext, w'.ext, d, p);
      ShrunkTrans(w.cache.live, w1.cache.live, w'.cache.live);
      ShrunkMeasure(w1.cache, w'.cache);
    }
  }

  /** The dentry at the end of the list is gone afterwards, or none is. */
  ghost predicate Gone(w: World, h: HashFn, live': map<Id, Dentry>) {
    && w.World? && w.cache.unused != []
    && var d := w.cache.unused[|w.cache.unused| - 1];
       d in w.cache.live && if PruneStep(w.cache, h).Freed? then d !in live' else live'.Keys == w.cache.live.Keys
  }

  lemma PruneGone(w: World, h: HashFn)
    requires Good(w, h) && w.cache.unused != []
    ensures PrunePass(w, h).World? && Gone(w, h, PrunePass(w, h).cache.live)
  {
    var w1, next, d := PruneOnce(w, h);
    StepShrinks(w.cache, h, PruneStep(w.cache, h), d);
    if next != None {
      PutAllEffect(w1, h, next.value);
    }
  }

  /** A pass frees a dentry exactly if it takes one off the list for good; the dput of the parent may free more. */
  lemma GoneCounts(w: World, h: HashFn, live': map<Id, Dentry>)
    requires Gone(w, h, live') && live'.Keys <= w.cache.live.Keys
    ensures PruneStep(w.cache, h).Freed? <==> |live'| < |w.cache.live|
  {
    assert |live'| == |live'.Keys| && |w.cache.live| == |w.cache.live.Keys|;
    SubsetCard(live'.Keys, w.cache.live.Keys);
  }

  // ---------------------------------------------------------------- the code

  class DentryCache {
    const h: HashFn
    var live: map<Id, Dentry>
    var unused: seq<Id>
    var table: seq<seq<Id>>
    var bufs: map<Buf, seq<char>>
    var nrDentry: int
    var nrUnused: int
    ghost var ext: map<Id, nat>

    ghost function View(): Cache
      reads this
    {
      Cache(live, unused, table, bufs, nrDentry, nrUnused)
    }

    ghost function W(): World
      reads this
    {
      World(View(), ext)
    }

    ghost predicate Valid()
      reads this
    {
      Good(W(), h)
    }

    /** Unlinks and frees a dentry; both callers then put the parent. */
    method FreeDentry(d: Id) returns (parent: Id)
      requires d in live
      modifies this`live, this`table, this`bufs, this`nrDentry
      ensures View() == Kill(old(View()), h, d).cache && parent == old(live[d].parent)
    {
      var e := live[d];
      parent := e.parent;
      var b := h(parent, e.hash);
      if b < |table| {
        table := table[b := Without(table[b], d)];
      }
      live := live[d := e.(hashed := false)];
      if parent != d && parent in live {
        live := live[parent := live[parent].(subdirs := Without(live[parent].subdirs, d))];
      }
      nrDentry := nrDentry - 1;
      if e.name.External? {
        bufs := bufs - {e.name.buf};
      }
      live := live - {d};
    }

    /** The region of `dput` under the lock; the BUG() at line 131 is never reached. */
    method PutRegion(d: Id) returns (next: Option<Id>)
      requires Valid() && d in ext && ext[d] > 0
      modifies this
      ensures d in old(live) && old(live)[d].count > 0
      ensures var o := PutStep(old(View()), h, d);
              !o.Bug? && View() == o.cache && ext == Owing(Release(old(ext), d), o) && next == Owed(o)
    {
      ghost var w := W();
      PutInv(w.cache, w.ext, h, d);
      ghost var o := PutStep(w.cache, h, d);
      ext := Owing(Release(ext, d), o);
      live := live[d := live[d].(count := live[d].count - 1)];
      if live[d].count > 0 {
        return None;
      }
      assert d !in unused;
      if live[d].hashed {
        unused := [d] + unused;
        nrUnused := nrUnused + 1;
        return None;
      }
      var parent := FreeDentry(d);
      next := if d == parent then None else Some(parent);
    }

    /** `dput`: the loop that stands in for the tail recursion ends. */
    method Dput(dentry: Id)
      requires Valid() && dentry in ext && ext[dentry] > 0
      modifies this
      ensures Valid() && W() == PutAll(old(W()), h, dentry)
    {
      var next := Some(dentry);
      ghost var goal := PutAll(W(), h, dentry);
      while next != None
        invariant Valid()
        invariant next != None ==> next.value in ext && ext[next.value] > 0
        invariant next == None ==> W() == goal
        invariant next != None ==> PutAll(W(), h, next.value) == goal
        decreases |live|, next.Some?
      {
        ghost var w := W();
        ghost var w1, n1 := PutPass(w, h, next.value);
        next := PutRegion(next.value);
        assert W() == w1 && next == n1;
      }
    }

    /** The locked part of one pass of `prune_dcache`; the BUG() at line 349 is never reached. */
    method PruneRegion() returns (freed: bool, next: Option<Id>)
      requires Valid() && unused != []
      modifies this
      ensures old(unused)[|old(unused)| - 1] in old(live)
      ensures var o := PruneStep(old(View()), h);
              !o.Bug? && View() == o.cache && ext == Owing(old(ext), o) && next == Owed(o) && freed == o.Freed?
    {
      ghost var c := View();
      PruneInv(c, ext, h);
      ghost var o := PruneStep(c, h);
      var d := unused[|unused| - 1];
      unused := unused[..|unused| - 1];
      freed, next := !live[d].referenced, None;
      if freed {
        nrUnused := nrUnused - 1;
        assert live[d].count == 0;
        ghost var mid := View();
        assert mid == c.(unused := c.unused[..|c.unused| - 1], nrUnused := c.nrUnused - 1);
        var parent := FreeDentry(d);
        next := if parent == d then None else Some(parent);
        assert o == Kill(mid, h, d);
      } else {
        live := live[d := live[d].(referenced := false)];
        unused := [d] + unused;
        assert View() == o.cache;
      }
      ext := Owing(ext, o);
    }

    method PruneOne() returns (freed: bool)
      requires Valid() && unused != []
      modifies this
      ensures Valid() && PruneEffect(old(W()), W()) && Measure(View()) < Measure(old(View()))
      ensures freed <==> |live| < |old(live)|
    {
      ghost var w := W();
      ghost var w1, n1, d := PruneOnce(w, h);
      var next;
      freed, next := PruneRegion();
      if next != None {
        Dput(next.value);
      }
      assert W() == PrunePass(w, h);
      PrunePassEffect(w, h);
      PruneGone(w, h);
      GoneCounts(w, h, live);
    }

    /** `prune_dcache`: frees `count` dentries or empties the unused list; a count that is not
        positive never runs out. */
    method PruneDcache(count: int) returns (ghost pruned: nat)
      requires Valid()
      modifies this
      ensures Valid() && PruneEffect(old(W()), W())
      ensures old(unused) != [] ==> Measure(View()) < Measure(old(View()))
      ensures unused == [] || (0 < count && pruned == count)
      ensures |live| + pruned <= |old(live)|
    {
      var left := count;
      pruned := 0;
      ghost var w0, first := W(), true;
      while unused != []
        invariant Valid() && PruneEffect(w0, W())
        invariant if first then W() == w0 else Measure(View()) < Measure(w0.cache)
        invariant left == count - pruned && (count > 0 ==> left > 0) && |live| + pruned <= |w0.cache.live|
        decreases Measure(View())
      {
        ghost var w := W();
        var freed := PruneOne();
        PruneEffectTrans(w0, w, W());
        SubsetCard(live.Keys, w.cache.live.Keys);
        first := false;
        if freed {
          left := left - 1;
          pruned := pruned + 1;
          if left == 0 {
            break;
          }
        }
      }
    }

    /** `select_parent`: the walk without a stack visits every descendant once and moves the
        unused ones to the end of the unused list where pruning starts. */
    method SelectParent(parent: Id) returns (found: nat, ghost visited: seq<Id>)
      requires Valid() && parent in live
      modifies this`unused
      ensures Valid()
      ensures NoDup(visited) && forall x :: x in visited <==> x in live && x != parent && Ancestor(live, parent, x)
      ensures unused == Retail(live, old(unused), visited) && found == |Zeros(live, visited)|
    {
      ghost var rank :| RankOk(live, rank);
      ghost var top := RankBound(rank, rank.Keys);
      AncestorStep(live, parent, parent);
      var thisParent, next: nat := parent, 0;
      found, visited := 0, [];
      while true
        invariant OnWalk(live, rank, top, parent, thisParent, next, visited)
        invariant unused == Retail(live, old(unused), visited) && found == |Zeros(live, visited)|
        decreases |Rest(live, rank, top, parent, thisParent, next)|, rank[thisParent]
      {
        if next < |live[thisParent].subdirs| {
          var dentry := live[thisParent].subdirs[next];
          WalkStep(live, rank, top, parent, thisParent, next, visited, dentry);
          VisitOne(live, old(unused), visited, dentry);
          next := next + 1;
          visited := visited + [dentry];
          if live[dentry].count == 0 {
            unused := Without(unused, dentry) + [dentry];
            found := found + 1;
          }
          if live[dentry].subdirs != [] {
            thisParent, next := dentry, 0;
          }
        } else if thisParent != parent {
          WalkUp(live, rank, top, parent, thisParent, visited);
          next := IndexOf(live[live[thisParent].parent].subdirs, thisParent) + 1;
          thisParent := live[thisParent].parent;
        } else {
          break;
        }
      }
      WalkDone(live, rank, top, parent, visited);
      RetailTail(live, old(unused), visited);
      ReorderInv(old(View()), ext, h, unused);
    }

    /** `shrink_dcache_parent` ends, and then everything left below the parent is in use: no
        descendant has count 0, so every remaining leaf is held by somebody. */
    method ShrinkDcacheParent(parent: Id)
      requires Valid() && parent in ext && ext[parent] > 0
      modifies this
      ensures Valid() && PruneEffect(old(W()), W()) && parent in live
      ensures forall x :: x in live && x != parent && Ancestor(live, parent, x) ==> live[x].count > 0
      ensures forall x :: x in live && x != parent && Ancestor(live, parent, x) && live[x].subdirs == [] ==> ext[x] > 0
    {
      while true
        invariant Valid() && PruneEffect(old(W()), W()) && parent in ext && ext[parent] > 0
        decreases Measure(View())
      {
        ghost var before := unused;
        ghost var w := W();
        var found, visited := SelectParent(parent);
        RetailTail(live, before, visited);
        if found == 0 {
          forall x | x in live && x != parent && Ancestor(live, parent, x)
            ensures live[x].count > 0 && (live[x].subdirs == [] ==> ext[x] > 0)
          {
            ZerosIn(live, visited, x);
            assert Counted(live, ext, x);
          }
          break;
        }
        ghost var w1 := W();
        ghost var pruned := PruneDcache(found);
        PruneEffectTrans(old(W()), w1, W());
      }
    }

    /** The chain walk of `d_lookup`: it succeeds exactly when a hashed child of that parent has
        that name. */
    method ScanChain(key: Key) returns (found: Option<Id>)
      requires Valid()
      ensures found == Find(View(), h, key)
      ensures found.Some? <==> exists d :: d in live && live[d].hashed && KeyOf(View(), d) == key
    {
      FindExact(View(), ext, h, key);
      var chain := table[h(key.parent, key.hash)];
      var i := 0;
      while i < |chain|
        invariant 0 <= i <= |chain|
        invariant Scan(View(), chain[i..], key) == Find(View(), h, key)
      {
        if chain[i] in live && SameKey(chain[i], key) {
          return Some(chain[i]);
        }
        i := i + 1;
      }
      return None;
    }

    /** `d_lookup`: a hit is referenced and leaves the unused list. */
    method DLookup(key: Key) returns (found: Option<Id>)
      requires Valid()
      modifies this
      ensures Valid() && View() == Lookup(old(View()), h, key) && found == Find(old(View()), h, key)
    {
      LookupInv(View(), ext, h, key);
      found := ScanChain(key);
      if found.Some? {
        Hit(found.value);
        ext := Hold(ext, found.value);
      }
    }

    /** `__dget_locked` on the dentry found, and its second chance. */
    method Hit(d: Id)
      requires d in live
      modifies this`live, this`unused, this`nrUnused
      ensures var g := GetLocked(old(View()), d);
              View() == g.(live := g.live[d := g.live[d].(referenced := true)])
    {
      live := live[d := live[d].(count := live[d].count + 1)];
      if d in unused {
        nrUnused := nrUnused - 1;
        unused := Without(unused, d);
      }
      live := live[d := live[d].(referenced := true)];
    }

    /** The comparisons of hash, parent, length and bytes in `d_lookup`. */
    predicate SameKey(d: Id, key: Key)
      reads this
      requires d in live
    {
      && live[d].hash == key.hash && live[d].parent == key.parent && live[d].len == |key.text|
      && Text(Cache(live, unused, table, bufs, nrDentry, nrUnused), d) == key.text
    }

    /** `is_subdir`: the walk up ends and answers ancestry. */
    method IsSubdir(newDentry: Id, oldDentry: Id) returns (result: bool)
      requires Valid() && newDentry in live
      ensures result <==> Ancestor(live, oldDentry, newDentry)
    {
      var d := newDentry;
      ghost var rank :| RankOk(live, rank);
      while d != oldDentry
        invariant d in live && (Ancestor(live, oldDentry, d) <==> Ancestor(live, oldDentry, newDentry))
        decreases rank[d]
      {
        var parent := live[d].parent;
        AncestorStep(live, oldDentry, d);
        assert Node(live, d) && Ranked(live, rank, d);
        if parent == d {
          if Ancestor(live, oldDentry, d) {
            WayUp(live, oldDentry, d);
          }
          return false;
        }
        d := parent;
      }
      AncestorStep(live, oldDentry, d);
      return true;
    }

    /** The hash queue part of `d_move`. */
    method MoveQueues(d: Id, t: Id)
      requires d in live && t in live
      modifies this`live, this`table
      ensures View() == MoveHash(old(View()), h, d, t)
    {
      var bd := h(live[d].parent, live[d].hash);
      if bd < |table| {
        table := table[bd := Without(table[bd], d)];
      }
      live := live[d := live[d].(hashed := false)];
      var bt := h(live[t].parent, live[t].hash);
      if live[t].hashed && bt < |table| {
        table := table[bt := InsertAfter(table[bt], t, d)];
      }
      live := live[d := live[d].(hashed := live[t].hashed)];
      if bt < |table| {
        table := table[bt := Without(table[bt], t)];
      }
      live := live[t := live[t].(hashed := false)];
    }

    /** `d_move`. */
    method DMove(d: Id, t: Id)
      requires Valid() && MoveReady(View(), ext, d, t) && MoveAllowed(live, d, t)
      modifies this`live, this`table
      ensures Valid() && View() == Move(old(View()), h, d, t)
    {
      MoveInv(View(), ext, h, d, t);
      MoveQueues(d, t);
      live := Detach(live, d);
      live := Detach(live, t);
      var e, f := live[d], live[t];
      live := live[d := e.(iname := f.iname, name := f.name, parent := f.parent, len := f.len, hash := f.hash)];
      live := live[t := f.(name := e.name, parent := e.parent, len := e.len, hash := e.hash)];
      live := Attach(live, t);
      live := Attach(live, d);
    }

    /** `dget`, which must not be called on a count of 0. */
    method Dget(d: Id)
      requires Valid() && d in live && live[d].count > 0
      modifies this`live, this`ext
      ensures Valid() && View() == Get(old(View()), d) && ext == Hold(old(ext), d)
    {
      GetInv(View(), ext, h, d);
      live := live[d := live[d].(count := live[d].count + 1)];
      ext := Hold(ext, d);
    }

    /** The fields of a new dentry; a long name gets a buffer of its own. */
    method NewDentry(id: Id, hash: nat, text: seq<char>, buf: Buf, pad: seq<char>) returns (e: Dentry)
      modifies this`bufs
      ensures var inline := |text| < DNAME_INLINE_LEN;
              && e == Fresh(id, hash, |text|, if inline then Inline else External(buf), if inline then text + pad else pad)
              && bufs == if inline then old(bufs) else old(bufs)[buf := text]
    {
      var name, iname := External(buf), pad;
      if |text| > DNAME_INLINE_LEN - 1 {
        bufs := bufs[buf := text];
      } else {
        name, iname := Inline, text + pad;
      }
      e := Dentry(1, id, [], false, false, hash, |text|, name, iname);
    }

    /** What `d_alloc` does once it has the memory. */
    method LinkNew(id: Id, parent: Id, hash: nat, text: seq<char>, buf: Buf, pad: seq<char>)
      requires id !in live && (parent == id || parent in live)
      modifies this`live, this`bufs, this`nrDentry
      ensures View() == Allocated(old(W()), id, parent, hash, text, buf, pad).cache
    {
      var e := NewDentry(id, hash, text, buf, pad);
      if parent != id {
        live := live[parent := live[parent].(count := live[parent].count + 1)];
        e := e.(parent := parent);
        live := live[parent := live[parent].(subdirs := [id] + live[parent].subdirs)];
      }
      live := live[id := e];
      nrDentry := nrDentry + 1;
    }

    /** `d_alloc` and, with `parent == id`, `d_alloc_root`; `got` says whether memory was found. */
    method DAlloc(id: Id, parent: Id, hash: nat, text: seq<char>, buf: Buf, pad: seq<char>, got: bool) returns (r: Option<Id>)
      requires Valid() && AllocReady(View(), id, text, buf, pad)
      requires parent == id || (parent in live && live[parent].count > 0)
      modifies this
      ensures Valid()
      ensures !got ==> r == None && W() == old(W())
      ensures got ==> r == Some(id) && W() == Allocated(old(W()), id, parent, hash, text, buf, pad)
    {
      if !got {
        return None;
      }
      AllocGood(W(), h, id, parent, hash, text, buf, pad);
      ghost var w' := Allocated(W(), id, parent, hash, text, buf, pad);
      LinkNew(id, parent, hash, text, buf, pad);
      ext := w'.ext;
      return Some(id);
    }
  }

  lemma PruneEffectTrans(w0: World, w1: World, w2: World)
    requires PruneEffect(w0, w1) && PruneEffect(w1, w2)
    ensures PruneEffect(w0, w2)
  {
  }

  // ---------------------------------------------------------------- the walk's loop invariant

  /** The walk stands at child `i` of `p`: what it has visited and what is left make up the preorder. */
  ghost predicate OnWalk(live: map<Id, Dentry>, rank: map<Id, nat>, top: nat, root: Id, p: Id, i: nat, visited: seq<Id>) {
    && Walkable(live, rank, top) && root in live && p in live && i <= |live[p].subdirs| && Ancestor(live, root, p)
    && visited + Rest(live, rank, top, root, p, i) == From(live, rank, top, root, 0)
  }

  lemma {:induction false} WalkStep(live: map<Id, Dentry>, rank: map<Id, nat>, top: nat, root: Id, p: Id, i: nat, visited: seq<Id>, x: Id)
    requires OnWalk(live, rank, top, root, p, i, visited) && i < |live[p].subdirs| && x == live[p].subdirs[i]
    ensures x in live
    ensures OnWalk(live, rank, top, root, x, 0, visited + [x])
    ensures |Rest(live, rank, top, root, x, 0)| < |Rest(live, rank, top, root, p, i)|
    ensures live[x].subdirs == [] ==>
      OnWalk(live, rank, top, root, p, i + 1, visited + [x]) &&
      |Rest(live, rank, top, root, p, i + 1)| < |Rest(live, rank, top, root, p, i)|
  {
    RestDown(live, rank, top, root, p, i, x);
    var r := Rest(live, rank, top, root, x, 0);
    assert visited + ([x] + r) == (visited + [x]) + r;
    if live[x].subdirs == [] {
      assert r == Rest(live, rank, top, root, p, i + 1);
    }
  }

  lemma {:induction false} WalkUp(live: map<Id, Dentry>, rank: map<Id, nat>, top: nat, root: Id, p: Id, visited: seq<Id>)
    requires p in live && p != root && OnWalk(live, rank, top, root, p, |live[p].subdirs|, visited)
    ensures var q := live[p].parent;
            && q in live && p in live[q].subdirs && rank[q] < rank[p]
            && OnWalk(live, rank, top, root, q, IndexOf(live[q].subdirs, p) + 1, visited)
            && Rest(live, rank, top, root, q, IndexOf(live[q].subdirs, p) + 1) ==
               Rest(live, rank, top, root, p, |live[p].subdirs|)
  {
    RestUp(live, rank, top, root, p);
  }

  lemma {:induction false} WalkDone(live: map<Id, Dentry>, rank: map<Id, nat>, top: nat, root: Id, visited: seq<Id>)
    requires root in live && OnWalk(live, rank, top, root, root, |live[root].subdirs|, visited)
    ensures NoDup(visited) && forall x :: x in visited <==> x in live && x != root && Ancestor(live, root, x)
  {
    assert visited == From(live, rank, top, root, 0);
    FromNoDup(live, rank, top, root, 0);
    forall x ensures x in visited <==> x in live && x != root && Ancestor(live, root, x) {
      BelowExact(live, rank, top, root, x);
    }
  }

  lemma {:induction false} VisitOne(live: map<Id, Dentry>, unused: seq<Id>, visited: seq<Id>, x: Id)
    requires x in live
    ensures Retail(live, unused, visited + [x]) ==
            var u := Retail(live, unused, visited); if live[x].count == 0 then Without(u, x) + [x] else u
    ensures |Zeros(live, visited + [x])| == |Zeros(live, visited)| + if live[x].count == 0 then 1 else 0
  {
    assert (visited + [x])[..|visited|] == visited;
  }
}
