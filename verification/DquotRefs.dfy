/**
 * The reference protocol of the disk quota cache.  The big kernel lock makes the stretches between
 * blocking points atomic; each is one step here, so a run is any interleaving of the operations.
 * References are held by inode slots, by threads on their way through an operation, and, as
 * duplicates, by threads working on a quota they found in an inode.
 */
module DquotRefs {
  import opened Options
  import opened Seqs

  type Ptr = nat

  /** Superblock, quota type and id. */
  datatype Key = Key(sb: nat, kind: nat, id: nat)

  datatype Dquot = Dquot(key: Key, count: nat, dup: nat, dirty: bool, hashed: bool)

  type HashFn = Key -> nat

  datatype World = World(
    dqs: map<Ptr, Dquot>,
    chains: map<nat, seq<Ptr>>,
    free: seq<Ptr>,
    inuse: seq<Ptr>,
    slots: seq<Option<Ptr>>,
    held: multiset<Ptr>,
    dups: multiset<Ptr>)

  // ---------------------------------------------------------------- invariant

  /** The inode slots that point to `p`. */
  function Slots(s: seq<Option<Ptr>>, p: Ptr): nat {
    if s == [] then 0 else (if s[0] == Some(p) then 1 else 0) + Slots(s[1..], p)
  }

  /** Counts are exact, and a duplicate never stands without an ordinary reference. */
  ghost predicate Counted(w: World, p: Ptr) {
    p in w.dqs &&
    var d := w.dqs[p];
    && d.dup == w.dups[p] && d.count == Slots(w.slots, p) + w.held[p] + w.dups[p]
    && (0 < d.dup ==> d.dup < d.count)
  }

  /** Unused quotas, and only those, are on the free list; they are clean. */
  ghost predicate Placed(w: World, p: Ptr) {
    p in w.dqs && p in w.inuse && (p in w.free <==> w.dqs[p].count == 0) && (w.dqs[p].dirty ==> 0 < w.dqs[p].count)
  }

  function Chain(w: World, b: nat): seq<Ptr> { if b in w.chains then w.chains[b] else [] }

  /** A hashed quota is on the chain of its key, an unhashed one on none. */
  ghost predicate Hashed(w: World, h: HashFn, p: Ptr) {
    p in w.dqs && (w.dqs[p].hashed ==> p in Chain(w, h(w.dqs[p].key)))
  }

  ghost predicate OnChain(w: World, h: HashFn, b: nat, p: Ptr) {
    p in Chain(w, b) ==> p in w.dqs && w.dqs[p].hashed && h(w.dqs[p].key) == b
  }

  /** No two quotas for the same superblock, type and id. */
  ghost predicate Distinct(w: World, p: Ptr, q: Ptr) {
    p in w.dqs && q in w.dqs && w.dqs[p].hashed && w.dqs[q].hashed && w.dqs[p].key == w.dqs[q].key ==> p == q
  }

  ghost predicate Known(w: World, p: Ptr) {
    0 < Slots(w.slots, p) || p in w.held || p in w.dups || p in w.free || p in w.inuse ==> p in w.dqs
  }

  ghost predicate Each(w: World, h: HashFn, p: Ptr) {
    Known(w, p) && (p in w.dqs ==> Counted(w, p) && Placed(w, p) && Hashed(w, h, p))
  }

  ghost predicate Inv(w: World, h: HashFn) {
    && NoDup(w.free) && NoDup(w.inuse)
    && (forall p: Ptr {:trigger Each(w, h, p)} :: Each(w, h, p))
    && (forall b: nat {:trigger NoDup(Chain(w, b))} :: NoDup(Chain(w, b)))
    && (forall b: nat, p: Ptr {:trigger OnChain(w, h, b, p)} :: OnChain(w, h, b, p))
    && (forall p: Ptr, q: Ptr {:trigger Distinct(w, p, q)} :: Distinct(w, p, q))
  }

  // ---------------------------------------------------------------- the operations as steps

  function Find(w: World, chain: seq<Ptr>, key: Key): Option<Ptr> {
    if chain == [] then None else
    if chain[0] in w.dqs && w.dqs[chain[0]].key == key then Some(chain[0]) else Find(w, chain[1..], key)
  }

  datatype Step =
    | Duplicate(slot: nat)
    | PutDuplicate(p: Ptr)
    | Put(p: Ptr)
    | Write(p: Ptr)
    | MarkDirty(p: Ptr)
    | Get(key: Key)
    | Create(p: Ptr, key: Key)
    | Insert(p: Ptr, key: Key)
    | Attach(slot: nat, p: Ptr)
    | Detach(slot: nat)
    | Swap(slot: nat, p: Ptr)
    | Prune

  /** Does dqput have to wait for duplicates, or to write first? */
  predicate PutBlocks(d: Dquot) {
    (0 < d.dup && d.count <= d.dup + 1) || (d.count <= 1 && d.dirty)
  }

  /** When a step can be taken: its thread holds what it works on, and waits where the code waits. */
  predicate Enabled(w: World, h: HashFn, s: Step) {
    match s
    case Duplicate(i) => i < |w.slots| && w.slots[i].Some? && w.slots[i].value in w.dqs
    case PutDuplicate(p) => p in w.dups && p in w.dqs
    case Put(p) => p in w.held && p in w.dqs && !PutBlocks(w.dqs[p])
    case Write(p) => p in w.held && p in w.dqs
    case MarkDirty(p) => p in w.dqs && 0 < w.dqs[p].count
    case Get(key) => Find(w, Chain(w, h(key)), key).Some?
    case Create(p, _) => p !in w.dqs
    case Insert(p, key) => p in w.held && p in w.dqs && !w.dqs[p].hashed && Find(w, Chain(w, h(key)), key).None?
    case Attach(i, p) => i < |w.slots| && w.slots[i].None? && p in w.held
    case Detach(i) => i < |w.slots| && w.slots[i].Some?
    case Swap(i, p) => i < |w.slots| && w.slots[i].Some? && p in w.held
    case Prune => w.free != [] && w.free[|w.free| - 1] in w.dqs
  }

  function Less(m: multiset<Ptr>, p: Ptr): multiset<Ptr> { m - multiset{p} }

  function Next(w: World, h: HashFn, s: Step): World
    requires Enabled(w, h, s)
  {
    match s
    case Duplicate(i) =>
      var p := w.slots[i].value;
      var d := w.dqs[p];
      w.(dqs := w.dqs[p := d.(count := d.count + 1, dup := d.dup + 1)], dups := w.dups + multiset{p})
    case PutDuplicate(p) =>
      var d := w.dqs[p];
      if d.dup == 0 || d.count == 0 then w else
      w.(dqs := w.dqs[p := d.(count := d.count - 1, dup := d.dup - 1)], dups := Less(w.dups, p))
    case Put(p) =>
      var d := w.dqs[p];
      if d.count == 0 then w else
      w.(dqs := w.dqs[p := d.(count := d.count - 1)], held := Less(w.held, p),
         free := if d.count > 1 then w.free else w.free + [p])
    case Write(p) => w.(dqs := w.dqs[p := w.dqs[p].(dirty := false)])
    case MarkDirty(p) => w.(dqs := w.dqs[p := w.dqs[p].(dirty := true)])
    case Get(key) =>
      var p := Find(w, Chain(w, h(key)), key).value;
      if p !in w.dqs then w else
      var d := w.dqs[p];
      w.(dqs := w.dqs[p := d.(count := d.count + 1)], held := w.held + multiset{p},
         free := if d.count == 0 then Without(w.free, p) else w.free)
    case Create(p, key) =>
      w.(dqs := w.dqs[p := Dquot(key, 1, 0, false, false)], held := w.held + multiset{p}, inuse := w.inuse + [p])
    case Insert(p, key) =>
      var b := h(key);
      w.(dqs := w.dqs[p := w.dqs[p].(key := key, hashed := true)], chains := w.chains[b := [p] + Chain(w, b)])
    case Attach(i, p) => w.(slots := w.slots[i := Some(p)], held := Less(w.held, p))
    case Detach(i) => w.(slots := w.slots[i := None], held := w.held + multiset{w.slots[i].value})
    case Swap(i, p) => w.(slots := w.slots[i := Some(p)], held := Less(w.held, p) + multiset{w.slots[i].value})
    case Prune =>
      var p := w.free[|w.free| - 1];
      var b := h(w.dqs[p].key);
      w.(dqs := w.dqs - {p}, free := Without(w.free, p), inuse := Without(w.inuse, p),
         chains := if w.dqs[p].hashed then w.chains[b := Without(Chain(w, b), p)] else w.chains)
  }

  // ---------------------------------------------------------------- every step keeps the invariant

  function One(b: bool): nat { if b then 1 else 0 }

  lemma {:induction false} SlotsUpdate(s: seq<Option<Ptr>>, i: nat, x: Option<Ptr>, p: Ptr)
    requires i < |s|
    ensures Slots(s[i := x], p) == Slots(s, p) - One(s[i] == Some(p)) + One(x == Some(p))
    ensures One(s[i] == Some(p)) <= Slots(s, p)
    decreases i
  {
    var u := s[i := x];
    if i == 0 {
      assert u[1..] == s[1..];
    } else {
      assert u[1..] == s[1..][i - 1 := x];
      SlotsUpdate(s[1..], i - 1, x, p);
    }
  }

  /** Nothing about `q` changes. */
  ghost predicate Unmoved(w: World, v: World, q: Ptr) {
    && (q in v.dqs <==> q in w.dqs) && (q in w.dqs ==> v.dqs[q] == w.dqs[q])
    && Slots(v.slots, q) == Slots(w.slots, q) && v.held[q] == w.held[q] && v.dups[q] == w.dups[q]
    && (q in v.free <==> q in w.free) && (q in v.inuse <==> q in w.inuse)
  }

  /** A step that touches one quota, and not its identity. */
  lemma LocalStep(w: World, v: World, h: HashFn, p: Ptr)
    requires Inv(w, h) && p in w.dqs && p in v.dqs && NoDup(v.free) && v.inuse == w.inuse && v.chains == w.chains
    requires v.dqs[p].key == w.dqs[p].key && v.dqs[p].hashed == w.dqs[p].hashed
    requires Each(v, h, p)
    requires forall q: Ptr {:trigger Unmoved(w, v, q)} :: q != p ==> Unmoved(w, v, q)
    ensures Inv(v, h)
  {
    forall q: Ptr ensures Each(v, h, q) {
      if q != p {
        assert Each(w, h, q) && Unmoved(w, v, q);
      }
    }
    forall b: nat ensures NoDup(Chain(v, b)) {
      assert NoDup(Chain(w, b));
    }
    forall b: nat, q: Ptr ensures OnChain(v, h, b, q) {
      assert OnChain(w, h, b, q);
      assert q != p ==> Unmoved(w, v, q);
    }
    forall q: Ptr, r: Ptr ensures Distinct(v, q, r) {
      assert Distinct(w, q, r);
      assert q != p ==> Unmoved(w, v, q);
      assert r != p ==> Unmoved(w, v, r);
    }
  }

  lemma DuplicateInv(w: World, h: HashFn, s: Step)
    requires Inv(w, h) && s.Duplicate? && Enabled(w, h, s)
    ensures Inv(Next(w, h, s), h)
  {
    var v, p := Next(w, h, s), w.slots[s.slot].value;
    assert Each(w, h, p);
    SlotsUpdate(w.slots, s.slot, None, p);
    LocalStep(w, v, h, p);
  }

  /** dqputduplicate never drops the last reference. */
  lemma PutDuplicateKeeps(w: World, h: HashFn, p: Ptr)
    requires Inv(w, h) && Enabled(w, h, PutDuplicate(p))
    ensures 0 < w.dqs[p].dup && 0 < Next(w, h, PutDuplicate(p)).dqs[p].count
    ensures Next(w, h, PutDuplicate(p)).dqs[p].count == w.dqs[p].count - 1
  {
    assert Each(w, h, p);
  }

  lemma PutDuplicateInv(w: World, h: HashFn, s: Step)
    requires Inv(w, h) && s.PutDuplicate? && Enabled(w, h, s)
    ensures Inv(Next(w, h, s), h)
  {
    assert Each(w, h, s.p);
    LocalStep(w, Next(w, h, s), h, s.p);
  }

  lemma PutInv(w: World, h: HashFn, s: Step)
    requires Inv(w, h) && s.Put? && Enabled(w, h, s)
    ensures Inv(Next(w, h, s), h)
  {
    assert Each(w, h, s.p);
    LocalStep(w, Next(w, h, s), h, s.p);
  }

  lemma DirtyInv(w: World, h: HashFn, s: Step)
    requires Inv(w, h) && (s.Write? || s.MarkDirty?) && Enabled(w, h, s)
    ensures Inv(Next(w, h, s), h)
  {
    assert Each(w, h, s.p);
    LocalStep(w, Next(w, h, s), h, s.p);
  }

  lemma {:induction false} FindIn(w: World, chain: seq<Ptr>, key: Key)
    ensures Find(w, chain, key).Some? ==>
      var p := Find(w, chain, key).value;
      p in chain && p in w.dqs && w.dqs[p].key == key
    ensures Find(w, chain, key).None? ==> forall p :: p in chain && p in w.dqs ==> w.dqs[p].key != key
  {
    if chain != [] {
      FindIn(w, chain[1..], key);
    }
  }

  lemma GetInv(w: World, h: HashFn, s: Step)
    requires Inv(w, h) && s.Get? && Enabled(w, h, s)
    ensures Inv(Next(w, h, s), h)
  {
    FindIn(w, Chain(w, h(s.key)), s.key);
    var p := Find(w, Chain(w, h(s.key)), s.key).value;
    assert Each(w, h, p);
    WithoutNoDup(w.free, p);
    LocalStep(w, Next(w, h, s), h, p);
  }

  lemma AttachInv(w: World, h: HashFn, s: Step)
    requires Inv(w, h) && s.Attach? && Enabled(w, h, s)
    ensures Inv(Next(w, h, s), h)
  {
    var v := Next(w, h, s);
    assert Each(w, h, s.p);
    SlotsUpdate(w.slots, s.slot, Some(s.p), s.p);
    forall q: Ptr | q != s.p ensures Unmoved(w, v, q) {
      SlotsUpdate(w.slots, s.slot, Some(s.p), q);
    }
    LocalStep(w, v, h, s.p);
  }

  lemma DetachInv(w: World, h: HashFn, s: Step)
    requires Inv(w, h) && s.Detach? && Enabled(w, h, s)
    ensures Inv(Next(w, h, s), h)
  {
    var v, p := Next(w, h, s), w.slots[s.slot].value;
    assert Each(w, h, p);
    SlotsUpdate(w.slots, s.slot, None, p);
    forall q: Ptr | q != p ensures Unmoved(w, v, q) {
      SlotsUpdate(w.slots, s.slot, None, q);
    }
    LocalStep(w, v, h, p);
  }

  /** The pointer swap of dquot_transfer is a detach and an attach. */
  lemma SwapInv(w: World, h: HashFn, s: Step)
    requires Inv(w, h) && s.Swap? && Enabled(w, h, s)
    ensures Inv(Next(w, h, s), h)
  {
    var v := Next(w, h, Detach(s.slot));
    DetachInv(w, h, Detach(s.slot));
    AttachInv(v, h, Attach(s.slot, s.p));
    assert Less(w.held, s.p) + multiset{w.slots[s.slot].value} == Less(v.held, s.p);
    assert v.slots[s.slot := Some(s.p)] == w.slots[s.slot := Some(s.p)];
    assert Next(v, h, Attach(s.slot, s.p)) == Next(w, h, s);
  }

  lemma CreateInv(w: World, h: HashFn, s: Step)
    requires Inv(w, h) && s.Create? && Enabled(w, h, s)
    ensures Inv(Next(w, h, s), h)
  {
    var v, p := Next(w, h, s), s.p;
    assert Each(w, h, p);
    forall q: Ptr ensures Each(v, h, q) {
      assert Each(w, h, q);
      assert q in v.inuse <==> q in w.inuse || q == p;
    }
    forall b: nat ensures NoDup(Chain(v, b)) {
      assert NoDup(Chain(w, b));
    }
    forall b: nat, q: Ptr ensures OnChain(v, h, b, q) {
      assert OnChain(w, h, b, q);
    }
    forall q: Ptr, r: Ptr ensures Distinct(v, q, r) {
      assert Distinct(w, q, r);
    }
  }

  lemma InsertChain(w: World, h: HashFn, s: Step, b: nat, q: Ptr)
    requires Inv(w, h) && s.Insert? && Enabled(w, h, s)
    ensures q in Chain(Next(w, h, s), b) <==> q in Chain(w, b) || (q == s.p && b == h(s.key))
    ensures NoDup(Chain(Next(w, h, s), b)) && s.p !in Chain(w, b)
  {
    assert OnChain(w, h, b, s.p);
    assert NoDup(Chain(w, b));
    var c := [s.p] + Chain(w, b);
    assert forall i :: 0 < i < |c| ==> c[i] == Chain(w, b)[i - 1];
  }

  lemma InsertInv(w: World, h: HashFn, s: Step)
    requires Inv(w, h) && s.Insert? && Enabled(w, h, s)
    ensures Inv(Next(w, h, s), h)
  {
    var v, p := Next(w, h, s), s.p;
    forall q: Ptr ensures Each(v, h, q) {
      assert Each(w, h, q);
      if q in w.dqs {
        InsertChain(w, h, s, h(v.dqs[q].key), q);
      }
    }
    forall b: nat ensures NoDup(Chain(v, b)) {
      InsertChain(w, h, s, b, p);
    }
    forall b: nat, q: Ptr ensures OnChain(v, h, b, q) {
      assert OnChain(w, h, b, q);
      InsertChain(w, h, s, b, q);
    }
    FindIn(w, Chain(w, h(s.key)), s.key);
    forall q: Ptr, r: Ptr ensures Distinct(v, q, r) {
      assert Distinct(w, q, r);
      assert Each(w, h, q) && Each(w, h, r);
    }
  }

  lemma PruneChain(w: World, h: HashFn, b: nat, q: Ptr)
    requires Inv(w, h) && Enabled(w, h, Prune)
    ensures q in Chain(Next(w, h, Prune), b) <==> q in Chain(w, b) && q != w.free[|w.free| - 1]
    ensures NoDup(Chain(Next(w, h, Prune), b))
  {
    var p := w.free[|w.free| - 1];
    assert OnChain(w, h, b, p);
    assert NoDup(Chain(w, b));
    WithoutNoDup(Chain(w, b), p);
  }

  /** A pruned quota is unused and clean: nobody holds a reference to it. */
  lemma PrunedUnused(w: World, h: HashFn)
    requires Inv(w, h) && Enabled(w, h, Prune)
    ensures
      var p := w.free[|w.free| - 1];
      && w.dqs[p].count == 0 && w.dqs[p].dup == 0 && !w.dqs[p].dirty
      && Slots(w.slots, p) == 0 && p !in w.held && p !in w.dups
  {
    var p := w.free[|w.free| - 1];
    assert p in w.free;
    assert Each(w, h, p);
  }

  lemma PruneInv(w: World, h: HashFn)
    requires Inv(w, h) && Enabled(w, h, Prune)
    ensures Inv(Next(w, h, Prune), h)
  {
    var v, p := Next(w, h, Prune), w.free[|w.free| - 1];
    PrunedUnused(w, h);
    WithoutNoDup(w.free, p);
    WithoutNoDup(w.inuse, p);
    forall q: Ptr ensures Each(v, h, q) {
      assert Each(w, h, q);
      if q in v.dqs {
        PruneChain(w, h, h(v.dqs[q].key), q);
      }
    }
    forall b: nat ensures NoDup(Chain(v, b)) {
      PruneChain(w, h, b, p);
    }
    forall b: nat, q: Ptr ensures OnChain(v, h, b, q) {
      assert OnChain(w, h, b, q);
      PruneChain(w, h, b, q);
    }
    forall q: Ptr, r: Ptr ensures Distinct(v, q, r) {
      assert Distinct(w, q, r);
    }
  }

  lemma StepInv(w: World, h: HashFn, s: Step)
    requires Inv(w, h) && Enabled(w, h, s)
    ensures Inv(Next(w, h, s), h)
  {
    match s
    case Duplicate(_) => DuplicateInv(w, h, s);
    case PutDuplicate(_) => PutDuplicateInv(w, h, s);
    case Put(_) => PutInv(w, h, s);
    case Write(_) => DirtyInv(w, h, s);
    case MarkDirty(_) => DirtyInv(w, h, s);
    case Get(_) => GetInv(w, h, s);
    case Create(_, _) => CreateInv(w, h, s);
    case Insert(_, _) => InsertInv(w, h, s);
    case Attach(_, _) => AttachInv(w, h, s);
    case Detach(_) => DetachInv(w, h, s);
    case Swap(_, _) => SwapInv(w, h, s);
    case Prune => PruneInv(w, h);
  }

  // ---------------------------------------------------------------- runs

  predicate EnabledRun(w: World, h: HashFn, steps: seq<Step>)
    decreases |steps|
  {
    steps != [] ==> Enabled(w, h, steps[0]) && EnabledRun(Next(w, h, steps[0]), h, steps[1..])
  }

  function Run(w: World, h: HashFn, steps: seq<Step>): World
    requires EnabledRun(w, h, steps)
    decreases |steps|
  {
    if steps == [] then w else Run(Next(w, h, steps[0]), h, steps[1..])
  }

  /** The invariant holds after every interleaving of the operations. */
  lemma {:induction false} RunInv(w: World, h: HashFn, steps: seq<Step>)
    requires Inv(w, h) && EnabledRun(w, h, steps)
    ensures Inv(Run(w, h, steps), h)
    decreases |steps|
  {
    if steps != [] {
      StepInv(w, h, steps[0]);
      RunInv(Next(w, h, steps[0]), h, steps[1..]);
    }
  }

  function Empty(slots: nat): World {
    World(map[], map[], [], [], seq(slots, i => None), multiset{}, multiset{})
  }

  lemma {:induction false} NoSlots(s: seq<Option<Ptr>>, p: Ptr)
    requires forall i :: 0 <= i < |s| ==> s[i] == None
    ensures Slots(s, p) == 0
  {
    if s != [] {
      NoSlots(s[1..], p);
    }
  }

  lemma EmptyInv(slots: nat, h: HashFn)
    ensures Inv(Empty(slots), h)
  {
    var w := Empty(slots);
    forall p: Ptr ensures Each(w, h, p) {
      NoSlots(w.slots, p);
    }
  }

  /** From an empty cache, after any run: a duplicate implies an ordinary reference, a held or dirty
      quota is not on the free list, and a lookup key names at most one quota. */
  lemma Protocol(slots: nat, h: HashFn, steps: seq<Step>, p: Ptr, q: Ptr)
    requires EnabledRun(Empty(slots), h, steps)
    ensures
      var w := Run(Empty(slots), h, steps);
      && (p in w.dqs && 0 < w.dqs[p].dup ==> w.dqs[p].dup < w.dqs[p].count)
      && (p in w.free ==> p in w.dqs && w.dqs[p].count == 0 && !w.dqs[p].dirty)
      && (p in w.held || p in w.dups || 0 < Slots(w.slots, p) ==> p in w.dqs && 0 < w.dqs[p].count)
      && Distinct(w, p, q)
  {
    EmptyInv(slots, h);
    RunInv(Empty(slots), h, steps);
    var w := Run(Empty(slots), h, steps);
    assert Each(w, h, p);
    assert Distinct(w, p, q);
  }

  /** A dqput that cannot go on waits for a duplicate to go, or has a write to do that lets it go on. */
  lemma PutWaitsForDuplicates(w: World, h: HashFn, p: Ptr)
    requires Inv(w, h) && p in w.held && p in w.dqs && PutBlocks(w.dqs[p])
    ensures p in w.dups || (w.dqs[p].dirty && Enabled(w, h, Write(p)))
    ensures p !in w.dups ==> Enabled(Next(w, h, Write(p)), h, Put(p))
  {
    assert Each(w, h, p);
  }

  // ---------------------------------------------------------------- the code between blocking points

  /** The world moved from `w` to `v` by one step. */
  ghost predicate Took(w: World, v: World, h: HashFn, s: Step) { Enabled(w, h, s) && v == Next(w, h, s) }

  /** How one pass of dqput ends: waiting for duplicates, writing first, or done. */
  datatype PutResult = WaitDuplicates | WriteFirst | Released

  /** How one pass of dqget ends. */
  datatype GetResult = Found(p: Ptr) | Inserted(p: Ptr) | NeedEmpty

  class DquotCache {
    const h: HashFn
    var dqs: map<Ptr, Dquot>
    var chains: map<nat, seq<Ptr>>
    var free: seq<Ptr>
    var inuse: seq<Ptr>
    ghost var slots: seq<Option<Ptr>>
    ghost var held: multiset<Ptr>
    ghost var dups: multiset<Ptr>

    ghost function State(): World
      reads this
    {
      World(dqs, chains, free, inuse, slots, held, dups)
    }

    ghost predicate Valid()
      reads this
    {
      Inv(State(), h)
    }

    /** find_dquot */
    method FindDquot(key: Key) returns (r: Option<Ptr>)
      requires Valid()
      ensures r == Find(State(), Chain(State(), h(key)), key)
      ensures r.Some? <==> exists p :: p in dqs && dqs[p].hashed && dqs[p].key == key
    {
      var chain := if h(key) in chains then chains[h(key)] else [];
      var i := 0;
      r := None;
      while i < |chain| && r.None?
        invariant 0 <= i <= |chain|
        invariant r.None? ==> Find(State(), chain, key) == Find(State(), chain[i..], key)
        invariant r.Some? ==> r == Find(State(), chain, key)
        decreases |chain| - i, if r.None? then 1 else 0
      {
        assert OnChain(State(), h, h(key), chain[i]);
        if dqs[chain[i]].key == key {
          r := Some(chain[i]);
        } else {
          assert chain[i..][1..] == chain[i + 1..];
          i := i + 1;
        }
      }
      FindIn(State(), chain, key);
      if r.Some? {
        assert OnChain(State(), h, h(key), r.value);
      } else {
        forall p | p in dqs && dqs[p].hashed ensures dqs[p].key != key {
          assert Each(State(), h, p);
        }
      }
    }

    /** One pass of dqput from `we_slept`. */
    method DqputPass(p: Ptr) returns (r: PutResult)
      requires Valid() && p in held && p in dqs
      modifies this
      ensures Valid() && slots == old(slots) && dups == old(dups)
      ensures r.Released? ==> Took(old(State()), State(), h, Put(p))
      ensures !r.Released? ==> State() == old(State()) && PutBlocks(dqs[p])
      ensures r.WaitDuplicates? ==> 0 < dqs[p].dup
      ensures r.WriteFirst? ==> dqs[p].dirty
    {
      assert Each(State(), h, p);
      if dqs[p].dup > 0 && dqs[p].count - dqs[p].dup <= 1 {
        return WaitDuplicates;
      }
      if dqs[p].count <= 1 && dqs[p].dirty {
        return WriteFirst;
      }
      DropReference(p);
      r := Released;
    }

    /** The end of dqput: one reference less, and the last one puts the quota on the free list. */
    method DropReference(p: Ptr)
      requires Valid() && Enabled(State(), h, Put(p)) && 0 < dqs[p].count
      modifies this
      ensures Valid() && Took(old(State()), State(), h, Put(p)) && slots == old(slots) && dups == old(dups)
    {
      PutInv(State(), h, Put(p));
      held := Less(held, p);
      if dqs[p].count > 1 {
        dqs := dqs[p := dqs[p].(count := dqs[p].count - 1)];
        return;
      }
      dqs := dqs[p := dqs[p].(count := dqs[p].count - 1)];
      free := free + [p];
    }

    /** One pass of dqget from `we_slept`, with the spare quota it has allocated, if any. */
    method DqgetPass(key: Key, empty: Option<Ptr>) returns (r: GetResult)
      requires Valid() && (empty.Some? ==> empty.value in held && empty.value in dqs && !dqs[empty.value].hashed)
      modifies this
      ensures Valid() && slots == old(slots) && dups == old(dups)
      ensures r.Found? ==> Took(old(State()), State(), h, Get(key)) && r.p in dqs && dqs[r.p].hashed && dqs[r.p].key == key
      ensures r.Inserted? ==> empty == Some(r.p) && Took(old(State()), State(), h, Insert(r.p, key))
      ensures r.NeedEmpty? ==> empty.None? && State() == old(State())
      ensures !r.Found? ==> forall p :: p in old(dqs) && old(dqs)[p].hashed ==> old(dqs)[p].key != key
    {
      var found := FindDquot(key);
      if found.None? {
        if empty.None? {
          return NeedEmpty;
        }
        var p, b := empty.value, h(key);
        InsertInv(State(), h, Insert(p, key));
        dqs := dqs[p := dqs[p].(key := key, hashed := true)];
        chains := chains[b := [p] + (if b in chains then chains[b] else [])];
        return Inserted(p);
      }
      TakeReference(found.value, key);
      r := Found(found.value);
    }

    /** A cached quota gains a reference; an unused one leaves the free list. */
    method TakeReference(p: Ptr, key: Key)
      requires Valid() && Find(State(), Chain(State(), h(key)), key) == Some(p)
      modifies this
      ensures Valid() && Took(old(State()), State(), h, Get(key)) && slots == old(slots) && dups == old(dups)
      ensures p in dqs && dqs[p].hashed && dqs[p].key == key
    {
      FindIn(State(), Chain(State(), h(key)), key);
      assert OnChain(State(), h, h(key), p);
      GetInv(State(), h, Get(key));
      if dqs[p].count == 0 {
        free := Without(free, p);
      }
      dqs := dqs[p := dqs[p].(count := dqs[p].count + 1)];
      held := held + multiset{p};
    }

    /** prune_dqcache: quotas go from the end of the free list, where dqput puts them, so the one released
        last goes first; nothing goes that anyone can still reach. */
    method PruneDqcache(count: nat)
      requires Valid()
      modifies this
      ensures Valid() && slots == old(slots) && held == old(held) && dups == old(dups)
      ensures |free| == if count < |old(free)| then |old(free)| - count else 0
      ensures forall p :: p in old(dqs) && 0 < old(dqs)[p].count ==> p in dqs && dqs[p] == old(dqs)[p]
    {
      var left := count;
      while free != [] && left > 0
        invariant 0 <= left <= count && Valid() && slots == old(slots) && held == old(held) && dups == old(dups)
        invariant |free| + (count - left) == |old(free)|
        invariant forall p :: p in old(dqs) && 0 < old(dqs)[p].count ==> p in dqs && dqs[p] == old(dqs)[p]
        decreases |free|
      {
        PruneLast();
        left := left - 1;
      }
    }

    method PruneLast()
      requires Valid() && free != []
      modifies this
      ensures Valid() && Took(old(State()), State(), h, Prune) && |free| == |old(free)| - 1
      ensures slots == old(slots) && held == old(held) && dups == old(dups)
      ensures forall p :: p in old(dqs) && 0 < old(dqs)[p].count ==> p in dqs && dqs[p] == old(dqs)[p]
    {
      var p := free[|free| - 1];
      assert p in free;
      assert Each(State(), h, p);
      PruneInv(State(), h);
      WithoutNoDup(free, p);
      if dqs[p].hashed {
        var b := h(dqs[p].key);
        chains := chains[b := Without(if b in chains then chains[b] else [], p)];
      }
      free := Without(free, p);
      inuse := Without(inuse, p);
      dqs := dqs - {p};
    }
  }
}
