/** In which order `prune_dcache` takes the unused dentries, and which of them it spares, told from
    the history of a run and not from the list. */
module DcacheHistory {
  import opened Options
  import opened Seqs
  import opened DcacheModel
  import opened DcacheSafety
  import opened DcacheMove
  import opened DcacheRuns

  /** `rested[d]` is when `d` last came to rest: when it became unused, or when a pass of
      `prune_dcache` spared it. `found` holds the dentries that a lookup has returned since the
      last pass that examined them. */
  datatype History = History(now: nat, rested: map<Id, nat>, found: set<Id>)

  /** The dentry the next pass of `prune_dcache` examines. */
  function Oldest(c: Cache): Option<Id> {
    if c.unused == [] then None else Some(c.unused[|c.unused| - 1])
  }

  /** `d` is at rest after the region, and it was not before or the region has examined it. */
  predicate Rests(w: World, r: Region, w': World, d: Id) {
    && w.World? && w'.World? && d in w'.cache.unused
    && (d in w.cache.unused ==> r.Prune? && Oldest(w.cache) == Some(d))
  }

  /** The history after region `r` has led from `w` to `w'`. */
  function Note(k: History, w: World, h: HashFn, r: Region, w': World): History
    requires w.World? && w'.World?
  {
    var found :=
      match r
      case DLookup(key) => (match Find(w.cache, h, key) case None => k.found case Some(d) => k.found + {d})
      case Prune => (match Oldest(w.cache) case None => k.found case Some(d) => k.found - {d})
      case _ => k.found;
    History(k.now + 1,
            map d | d in w'.cache.unused ::
              if Rests(w, r, w', d) || d !in k.rested then k.now else k.rested[d],
            found * w'.cache.live.Keys)
  }

  /** The unused list runs from the latest to the earliest rest. */
  ghost predicate Aged(k: History, c: Cache) {
    && (forall d :: d in c.unused ==> d in k.rested && k.rested[d] < k.now)
    && forall i, j :: 0 <= i < j < |c.unused| ==> k.rested[c.unused[j]] < k.rested[c.unused[i]]
  }

  /** The REFERENCED flag marks exactly the dentries found since they were last examined. */
  ghost predicate Marked(k: History, c: Cache) {
    && (forall d :: d in k.found ==> d in c.live)
    && forall d :: d in c.live ==> (c.live[d].referenced <==> d in k.found)
  }

  // ---------------------------------------------------------------- one region

  /** Entries of the shorter list stand in the same order in the longer one. */
  lemma {:induction false} WithoutAt(s: seq<Id>, x: Id, i: nat, j: nat) returns (i': nat, j': nat)
    requires i < j < |Without(s, x)|
    ensures i' < j' < |s| && s[i'] == Without(s, x)[i] && s[j'] == Without(s, x)[j]
  {
    var t := Without(s[1..], x);
    WithoutStep(s, x);
    if s[0] == x {
      i', j' := WithoutAt(s[1..], x, i, j);
      i', j' := i' + 1, j' + 1;
    } else {
      assert Without(s, x)[j] == t[j - 1];
      if i == 0 {
        j' := PlaceOf(s[1..], x, j - 1);
        i', j' := 0, j' + 1;
      } else {
        i', j' := WithoutAt(s[1..], x, i - 1, j - 1);
        i', j' := i' + 1, j' + 1;
      }
    }
  }

  lemma PlaceOf(s: seq<Id>, x: Id, j: nat) returns (j': nat)
    requires j < |Without(s, x)|
    ensures j' < |s| && s[j'] == Without(s, x)[j]
  {
    assert Without(s, x)[j] in Without(s, x);
    j' :| 0 <= j' < |s| && s[j'] == Without(s, x)[j];
  }

  /** Leaving the list keeps the order of the others. */
  lemma AgedWithout(k: History, c: Cache, c': Cache, x: Id)
    requires Aged(k, c) && c'.unused == Without(c.unused, x)
    ensures Aged(k, c')
  {
    forall i, j | 0 <= i < j < |c'.unused| ensures k.rested[c'.unused[j]] < k.rested[c'.unused[i]] {
      var i', j' := WithoutAt(c.unused, x, i, j);
    }
  }

  /** Times may be forgotten of dentries that are not on the list, and time passes. */
  lemma AgedLater(k: History, k': History, c: Cache)
    requires Aged(k, c) && k.now <= k'.now
    requires forall d :: d in c.unused ==> d in k'.rested && k'.rested[d] == k.rested[d]
    ensures Aged(k', c)
  {
    assert forall i :: 0 <= i < |c.unused| ==> c.unused[i] in c.unused;
  }

  /** A dentry that rests now goes to the front. */
  lemma AgedFront(k: History, k': History, c: Cache, c': Cache, d: Id)
    requires Aged(k, c) && k.now < k'.now && c'.unused == [d] + c.unused && d !in c.unused
    requires d in k'.rested && k'.rested[d] == k.now
    requires forall x :: x in c.unused ==> x in k'.rested && k'.rested[x] == k.rested[x]
    ensures Aged(k', c')
  {
    assert forall i :: 0 < i < |c'.unused| ==> c'.unused[i] == c.unused[i - 1] && c'.unused[i] in c.unused;
  }

  /** The list after a region: some dentry `x` left it or stayed, and some `d` came to its front or
      none. A dentry that comes was not on the list, or it is the one that was examined. */
  ghost predicate Relisted(c: Cache, c': Cache, out: Option<Id>, front: Option<Id>) {
    var rest := match out case None => c.unused case Some(x) => Without(c.unused, x);
    c'.unused == match front case None => rest case Some(d) => [d] + rest
  }

  /** What region `r` takes off the unused list, and what it puts there. */
  lemma RelistedBy(w: World, h: HashFn, r: Region) returns (out: Option<Id>, front: Option<Id>)
    requires Good(w, h) && Legal(w, r) && !r.Select?
    ensures Exec(w, h, r).World?
    ensures Relisted(w.cache, Exec(w, h, r).cache, out, front)
    ensures front.Some? ==>
      if r.Prune? then out == front && Oldest(w.cache) == front else front.value !in w.cache.unused
    ensures r.Prune? && Oldest(w.cache).Some? ==> out == Oldest(w.cache)
  {
    var c := w.cache;
    ExecGood(w, h, r);
    out, front := None, None;
    match r
    case DgetLocked(d) => if d in c.unused { out := Some(d); }
    case DLookup(key) => out := HitLeaves(c, h, key);
    case Dput(d) => front := PutRests(c, h, d);
    case Prune =>
      if c.unused != [] {
        out, front := PruneRests(c, h);
      }
    case _ =>
  }

  lemma HitLeaves(c: Cache, h: HashFn, key: Key) returns (out: Option<Id>)
    ensures Relisted(c, Lookup(c, h, key), out, None)
  {
    out := Find(c, h, key);
    if out.Some? && out.value !in c.live { out := None; }
  }

  lemma PutRests(c: Cache, h: HashFn, d: Id) returns (front: Option<Id>)
    requires d in c.live && c.live[d].count > 0
    ensures var o := PutStep(c, h, d); !o.Bug? ==> Relisted(c, o.cache, None, front)
    ensures !PutStep(c, h, d).Bug? && front.Some? ==> front.value !in c.unused
  {
    front := if c.live[d].count == 1 && c.live[d].hashed then Some(d) else None;
  }

  lemma PruneRests(c: Cache, h: HashFn) returns (out: Option<Id>, front: Option<Id>)
    requires c.unused != [] && NoDup(c.unused) && c.unused[|c.unused| - 1] in c.live
    ensures out == Oldest(c) && (front.Some? ==> front == out)
    ensures var o := PruneStep(c, h); !o.Bug? ==> Relisted(c, o.cache, out, front)
  {
    out := Oldest(c);
    front := if c.live[out.value].referenced then out else None;
    var n := |c.unused| - 1;
    WithoutSplit(c.unused, n);
    assert c.unused[..n] + c.unused[n + 1..] == c.unused[..n];
  }

  /** Whatever leaves, the list stays in the order of the rests. */
  lemma AgedRelisted(k: History, w: World, h: HashFn, r: Region, w': World, out: Option<Id>, front: Option<Id>)
    requires w.World? && w'.World? && Aged(k, w.cache) && Relisted(w.cache, w'.cache, out, front)
    requires front.Some? ==>
      if r.Prune? then out == front && Oldest(w.cache) == front else front.value !in w.cache.unused
    requires r.Prune? && Oldest(w.cache).Some? ==> out == Oldest(w.cache)
    ensures Aged(Note(k, w, h, r, w'), w'.cache)
  {
    var k' := Note(k, w, h, r, w');
    var c1 := match out case None => w.cache case Some(x) => w.cache.(unused := Without(w.cache.unused, x));
    if out.Some? {
      AgedWithout(k, w.cache, c1, out.value);
    }
    match front
    case None => AgedLater(k, k', w'.cache);
    case Some(d) => AgedFront(k, k', c1, w'.cache, d);
  }

  lemma AgedAfter(k: History, w: World, h: HashFn, r: Region, w': World)
    requires Good(w, h) && Legal(w, r) && !r.Select? && w' == Exec(w, h, r) && Aged(k, w.cache)
    ensures w'.World? && Aged(Note(k, w, h, r, w'), w'.cache)
  {
    var out, front := RelistedBy(w, h, r);
    AgedRelisted(k, w, h, r, w', out, front);
  }

  // ---------------------------------------------------------------- the REFERENCED flag

  /** Which dentries carry the flag after region `r`. */
  ghost predicate Reflagged(w: World, h: HashFn, r: Region, w': World) {
    && w.World? && w'.World?
    && forall d :: d in w'.cache.live ==>
         (w'.cache.live[d].referenced <==>
            || (r.DLookup? && Find(w.cache, h, r.key) == Some(d))
            || (d in w.cache.live && w.cache.live[d].referenced && !(r.Prune? && Oldest(w.cache) == Some(d))))
  }

  lemma MarkedReflagged(k: History, w: World, h: HashFn, r: Region, w': World)
    requires w.World? && w'.World? && Marked(k, w.cache) && Reflagged(w, h, r, w')
    ensures Marked(Note(k, w, h, r, w'), w'.cache)
  {
  }

  lemma ReflaggedBy(w: World, h: HashFn, r: Region)
    requires Good(w, h) && Legal(w, r)
    ensures Reflagged(w, h, r, Exec(w, h, r))
  {
    ExecGood(w, h, r);
    match r
    case Dput(_) => ReflaggedPut(w, h, r);
    case Prune => ReflaggedPut(w, h, r);
    case DMove(_, _) => ReflaggedMove(w, h, r);
    case _ => ReflaggedOther(w, h, r);
  }

  lemma ReflaggedPut(w: World, h: HashFn, r: Region)
    requires w.World? && Exec(w, h, r).World? && (r.Dput? || r.Prune?)
    ensures Reflagged(w, h, r, Exec(w, h, r))
  {
    if r.Dput? {
      PutFlags(w.cache, h, r.d);
    } else if w.cache.unused != [] {
      PruneFlags(w.cache, h);
    }
  }

  lemma ReflaggedMove(w: World, h: HashFn, r: Region)
    requires w.World? && TreeOk(w.cache.live) && Legal(w, r) && r.DMove?
    ensures Reflagged(w, h, r, Exec(w, h, r))
  {
    MoveAllowedApart(w.cache.live, r.d, r.t);
    MoveShape(w.cache, h, r.d, r.t);
  }

  lemma ReflaggedOther(w: World, h: HashFn, r: Region)
    requires w.World? && Exec(w, h, r).World? && Legal(w, r) && !r.Dput? && !r.Prune? && !r.DMove?
    ensures Reflagged(w, h, r, Exec(w, h, r))
  {
    if r.DLookup? {
      LookupFlags(w.cache, h, r.key);
    }
  }

  lemma LookupFlags(c: Cache, h: HashFn, key: Key)
    ensures var c' := Lookup(c, h, key);
            && c'.live.Keys == c.live.Keys
            && forall d :: d in c.live ==> (c'.live[d].referenced <==> c.live[d].referenced || Find(c, h, key) == Some(d))
  {
  }

  lemma PutFlags(c: Cache, h: HashFn, d: Id)
    requires d in c.live && c.live[d].count > 0
    ensures var o := PutStep(c, h, d);
            !o.Bug? ==> forall x :: x in o.cache.live ==>
              x in c.live && o.cache.live[x].referenced == c.live[x].referenced
  {
    KillShape(c.(live := c.live[d := c.live[d].(count := c.live[d].count - 1)]), h, d);
  }

  lemma PruneFlags(c: Cache, h: HashFn)
    requires c.unused != [] && c.unused[|c.unused| - 1] in c.live
    ensures var o := PruneStep(c, h);
            !o.Bug? ==> forall x :: x in o.cache.live ==>
              x in c.live && (o.cache.live[x].referenced <==> c.live[x].referenced && Oldest(c) != Some(x))
  {
    KillShape(c.(unused := c.unused[..|c.unused| - 1], nrUnused := c.nrUnused - 1), h, c.unused[|c.unused| - 1]);
  }

  // ---------------------------------------------------------------- runs

  /** The history of a whole run. */
  function Recorded(k: History, w: World, h: HashFn, run: seq<Region>): History
    decreases |run|
  {
    if run == [] || w.Crashed? then k
    else
      var w' := Exec(w, h, run[0]);
      if w'.Crashed? then k else Recorded(Note(k, w, h, run[0], w'), w', h, run[1..])
  }

  /** After every run, the REFERENCED flags are those of the dentries found since last examined. */
  lemma {:induction false} RunMarked(k: History, w: World, h: HashFn, run: seq<Region>)
    requires Good(w, h) && LegalRun(w, h, run) && Marked(k, w.cache)
    ensures Execute(w, h, run).World? && Marked(Recorded(k, w, h, run), Execute(w, h, run).cache)
    decreases |run|
  {
    if run != [] {
      var w' := Exec(w, h, run[0]);
      ExecGood(w, h, run[0]);
      ReflaggedBy(w, h, run[0]);
      MarkedReflagged(k, w, h, run[0], w');
      RunMarked(Note(k, w, h, run[0], w'), w', h, run[1..]);
    }
  }

  /** After every run without a `select_parent`, the unused list is in the order of the rests. */
  lemma {:induction false} RunAged(k: History, w: World, h: HashFn, run: seq<Region>)
    requires Good(w, h) && LegalRun(w, h, run) && Aged(k, w.cache)
    requires forall i :: 0 <= i < |run| ==> !run[i].Select?
    ensures Execute(w, h, run).World? && Aged(Recorded(k, w, h, run), Execute(w, h, run).cache)
    decreases |run|
  {
    if run != [] {
      var w' := Exec(w, h, run[0]);
      ExecGood(w, h, run[0]);
      AgedAfter(k, w, h, run[0], w');
      RunAged(Note(k, w, h, run[0], w'), w', h, run[1..]);
    }
  }

  /** `d` is the unused dentry that came to rest before all others. */
  ghost predicate Longest(k: History, c: Cache, d: Id) {
    && d in c.unused
    && forall x :: x in c.unused && x != d ==> d in k.rested && x in k.rested && k.rested[d] < k.rested[x]
  }

  /** What a pass of `prune_dcache` does to the dentry that has rested longest: it frees it exactly
      if no lookup has found it since it was last examined, and otherwise keeps it, to be examined
      after all others. */
  ghost predicate Examines(w: World, h: HashFn, k: History, d: Id) {
    && w.World?
    && var w' := Exec(w, h, Prune);
       && w'.World? && (d !in w'.cache.live <==> d !in k.found)
       && (d in w'.cache.live ==> w'.cache.unused == [d] + Without(w.cache.unused, d))
  }

  /** One unused dentry has rested longest, if there are any, and that one is examined next. */
  ghost predicate PrunesOldest(w: World, h: HashFn, k: History) {
    && w.World?
    && (w.cache.unused != [] ==> exists d: Id :: Longest(k, w.cache, d))
    && forall d: Id :: Longest(k, w.cache, d) ==> Examines(w, h, k, d)
  }

  lemma Verdict(w: World, h: HashFn, k: History)
    requires Good(w, h) && Marked(k, w.cache) && Aged(k, w.cache)
    ensures PrunesOldest(w, h, k)
  {
    OldestRested(k, w.cache);
    forall d: Id | Longest(k, w.cache, d) ensures Examines(w, h, k, d) {
      Examined(w, h, k, d);
    }
  }

  lemma RunVerdict(k: History, w: World, h: HashFn, run: seq<Region>)
    requires Good(w, h) && LegalRun(w, h, run) && Marked(k, w.cache) && Aged(k, w.cache)
    requires forall i :: 0 <= i < |run| ==> !run[i].Select?
    ensures PrunesOldest(Execute(w, h, run), h, Recorded(k, w, h, run))
  {
    var w', k' := Execute(w, h, run), Recorded(k, w, h, run);
    var ok := PrunesOldest(w', h, k');
    assert ok by {
      RunGood(w, h, run);
      RunMarked(k, w, h, run);
      RunAged(k, w, h, run);
      Verdict(w', h, k');
    }
  }

  /** `prune_dcache` after any run from boot. */
  lemma PruneVerdict(h: HashFn, n: nat, run: seq<Region>)
    requires (forall p, x :: h(p, x) < n) && LegalRun(Boot(n), h, run)
    requires forall i :: 0 <= i < |run| ==> !run[i].Select?
    ensures PrunesOldest(Execute(Boot(n), h, run), h, Recorded(History(0, map[], {}), Boot(n), h, run))
  {
    BootGood(h, n);
    RunVerdict(History(0, map[], {}), Boot(n), h, run);
  }

  /** The end of the list is the one that rested first. */
  lemma OldestRested(k: History, c: Cache)
    requires Aged(k, c) && NoDup(c.unused)
    ensures c.unused != [] ==> exists d: Id :: Longest(k, c, d)
    ensures forall d: Id :: Longest(k, c, d) ==> Oldest(c) == Some(d)
  {
    if c.unused != [] {
      var e := c.unused[|c.unused| - 1];
      assert e in c.unused;
      forall x | x in c.unused && x != e ensures k.rested[e] < k.rested[x] {
        var i :| 0 <= i < |c.unused| && c.unused[i] == x;
      }
      assert Longest(k, c, e);
    }
  }

  lemma Examined(w: World, h: HashFn, k: History, d: Id)
    requires Good(w, h) && Marked(k, w.cache) && Oldest(w.cache) == Some(d)
    ensures Examines(w, h, k, d)
  {
    assert Listed(w.cache.live, w.cache.unused, d);
    Spared(w.cache, h, d);
  }

  lemma Spared(c: Cache, h: HashFn, d: Id)
    requires Oldest(c) == Some(d) && NoDup(c.unused) && d in c.live && c.live[d].count == 0
    ensures var o := PruneStep(c, h);
            && !o.Bug? && (d in o.cache.live <==> c.live[d].referenced)
            && (c.live[d].referenced ==> o.cache.unused == [d] + Without(c.unused, d))
  {
    var out, front := PruneRests(c, h);
  }
}
