/**
 * Who waits for whom in the disk quota cache.  A thread of dquot_transfer duplicates the quotas of an
 * inode and gets others, one of each type, and then lets go type by type: the duplicate first, then
 * the reference, where it may have to sleep until nobody has a duplicate of that quota.  The other
 * operations are threads with references only, or with duplicates only.
 */
module DquotThreads {
  import opened Options
  import Refs = DquotRefs

  type Ptr = Refs.Ptr

  type Thread = nat

  const MAXQUOTAS: nat := 2

  /** `Asleep(k)`: in __wait_dup_drop for the quota of type `k`. */
  datatype Phase = Gather | Release(k: nat) | Asleep(k: nat)

  /** `from[2t + k]` and `to[2t + k]`: the duplicate and the reference of type `k` that thread `t` has. */
  datatype System = System(w: Refs.World, from: seq<Option<Ptr>>, to: seq<Option<Ptr>>, phase: seq<Phase>)

  function At(t: Thread, k: nat): nat { 2 * t + k }

  datatype Act =
    | Other(s: Refs.Step)
    | Take(t: Thread, k: nat, p: Ptr)
    | Duplicate(t: Thread, k: nat, slot: nat)
    | Exchange(t: Thread, k: nat, slot: nat)
    | Begin(t: Thread)
    | DropDuplicate(t: Thread)
    | DropReference(t: Thread)
    | WriteBack(t: Thread)
    | Forward(t: Thread)
    | Sleep(t: Thread)
    | Wake(t: Thread)

  /** A hashed quota of this type. */
  predicate Typed(w: Refs.World, p: Ptr, k: nat) {
    p in w.dqs && w.dqs[p].hashed && w.dqs[p].key.kind == k
  }

  /** A reference that no thread here accounts for. */
  ghost predicate Spare(s: System, p: Ptr) { Refs.Slots(s.to, p) < s.w.held[p] }

  /** Steps of others leave the duplicates and the references of these threads alone. */
  ghost predicate Foreign(s: System, r: Refs.Step) {
    match r
    case Duplicate(_) => false
    case PutDuplicate(_) => false
    case Put(p) => Spare(s, p)
    case Attach(_, p) => Spare(s, p)
    case Swap(_, p) => Spare(s, p)
    case _ => true
  }

  ghost predicate Fits(s: System, t: Thread, k: nat) {
    t < |s.phase| && k < MAXQUOTAS && At(t, k) < |s.from| && At(t, k) < |s.to|
  }

  /** The thread is letting go of type `k`. */
  ghost predicate Releasing(s: System, t: Thread, k: nat) {
    Fits(s, t, k) && s.phase[t] == Release(k)
  }

  /** The test of dqput: the reference is the last one to the quota that is no duplicate. */
  ghost predicate LastReference(s: System, t: Thread, k: nat) {
    && Fits(s, t, k) && s.from[At(t, k)] == None && s.to[At(t, k)].Some?
    && var p := s.to[At(t, k)].value;
       p in s.w.dqs && 0 < s.w.dqs[p].dup && s.w.dqs[p].count <= s.w.dqs[p].dup + 1
  }

  ghost predicate Can(s: System, h: Refs.HashFn, a: Act) {
    match a
    case Other(r) => Refs.Enabled(s.w, h, r) && Foreign(s, r)
    case Take(t, k, p) => Fits(s, t, k) && s.phase[t] == Gather && s.to[At(t, k)] == None && Typed(s.w, p, k) && Spare(s, p)
    case Duplicate(t, k, i) =>
      && Fits(s, t, k) && s.phase[t] == Gather && s.from[At(t, k)] == None
      && Refs.Enabled(s.w, h, Refs.Duplicate(i)) && Typed(s.w, s.w.slots[i].value, k)
    case Exchange(t, k, i) =>
      && Fits(s, t, k) && s.phase[t] == Gather && s.from[At(t, k)].Some? && s.to[At(t, k)].Some?
      && Refs.Enabled(s.w, h, Refs.Swap(i, s.to[At(t, k)].value)) && s.w.slots[i] == s.from[At(t, k)]
    case Begin(t) => Fits(s, t, 0) && s.phase[t] == Gather
    case DropDuplicate(t) =>
      t < |s.phase| && s.phase[t].Release? && var k := s.phase[t].k;
      Fits(s, t, k) && s.from[At(t, k)].Some? && Refs.Enabled(s.w, h, Refs.PutDuplicate(s.from[At(t, k)].value))
    case DropReference(t) =>
      t < |s.phase| && s.phase[t].Release? && var k := s.phase[t].k;
      && Fits(s, t, k) && s.from[At(t, k)] == None && s.to[At(t, k)].Some?
      && Refs.Enabled(s.w, h, Refs.Put(s.to[At(t, k)].value))
    case WriteBack(t) =>
      t < |s.phase| && s.phase[t].Release? && var k := s.phase[t].k;
      && Fits(s, t, k) && s.from[At(t, k)] == None && s.to[At(t, k)].Some?
      && Refs.Enabled(s.w, h, Refs.Write(s.to[At(t, k)].value))
    case Forward(t) =>
      t < |s.phase| && s.phase[t].Release? && var k := s.phase[t].k;
      Fits(s, t, k) && s.from[At(t, k)] == None && s.to[At(t, k)] == None
    case Sleep(t) => t < |s.phase| && s.phase[t].Release? && LastReference(s, t, s.phase[t].k)
    case Wake(t) =>
      t < |s.phase| && s.phase[t].Asleep? && var k := s.phase[t].k;
      Fits(s, t, k) && s.to[At(t, k)].Some? && s.to[At(t, k)].value in s.w.dqs && s.w.dqs[s.to[At(t, k)].value].dup == 0
  }

  ghost function Do(s: System, h: Refs.HashFn, a: Act): System
    requires Can(s, h, a)
  {
    match a
    case Other(r) => s.(w := Refs.Next(s.w, h, r))
    case Take(t, k, p) => s.(to := s.to[At(t, k) := Some(p)])
    case Duplicate(t, k, i) =>
      s.(w := Refs.Next(s.w, h, Refs.Duplicate(i)), from := s.from[At(t, k) := s.w.slots[i]])
    case Exchange(t, k, i) =>
      s.(w := Refs.Next(s.w, h, Refs.Swap(i, s.to[At(t, k)].value)), to := s.to[At(t, k) := s.from[At(t, k)]])
    case Begin(t) => s.(phase := s.phase[t := Release(0)])
    case DropDuplicate(t) =>
      var j := At(t, s.phase[t].k);
      s.(w := Refs.Next(s.w, h, Refs.PutDuplicate(s.from[j].value)), from := s.from[j := None])
    case DropReference(t) =>
      var j := At(t, s.phase[t].k);
      s.(w := Refs.Next(s.w, h, Refs.Put(s.to[j].value)), to := s.to[j := None])
    case WriteBack(t) => s.(w := Refs.Next(s.w, h, Refs.Write(s.to[At(t, s.phase[t].k)].value)))
    case Forward(t) => s.(phase := s.phase[t := if s.phase[t].k == 0 then Release(1) else Gather])
    case Sleep(t) => s.(phase := s.phase[t := Asleep(s.phase[t].k)])
    case Wake(t) => s.(phase := s.phase[t := Release(s.phase[t].k)])
  }

  // ---------------------------------------------------------------- invariant

  /** The threads' duplicates are all there are, and their references are among those held. */
  ghost predicate Owned(s: System, p: Ptr) {
    s.w.dups[p] == Refs.Slots(s.from, p) && Refs.Slots(s.to, p) <= s.w.held[p]
  }

  ghost predicate Sorted(s: System, j: nat)
    requires j < |s.from| && j < |s.to|
  {
    && (s.from[j].Some? ==> Typed(s.w, s.from[j].value, j % 2))
    && (s.to[j].Some? ==> Typed(s.w, s.to[j].value, j % 2))
  }

  /** A thread letting go of type 1 has let go of type 0; one that sleeps has no duplicate of that type. */
  ghost predicate Cleared(s: System, t: Thread)
    requires t < |s.phase| && |s.from| == |s.to| == 2 * |s.phase|
  {
    s.phase[t] != Gather ==>
      && s.phase[t].k < MAXQUOTAS && (s.phase[t].k == 1 ==> s.from[At(t, 0)] == None && s.to[At(t, 0)] == None)
      && (s.phase[t].Asleep? ==> s.from[At(t, s.phase[t].k)] == None && s.to[At(t, s.phase[t].k)].Some?)
  }

  ghost predicate Inv(s: System, h: Refs.HashFn) {
    && Refs.Inv(s.w, h) && |s.from| == |s.to| == 2 * |s.phase|
    && (forall p: Ptr {:trigger Owned(s, p)} :: Owned(s, p))
    && (forall j: nat {:trigger Sorted(s, j)} :: j < |s.from| ==> Sorted(s, j))
    && (forall t: Thread {:trigger Cleared(s, t)} :: t < |s.phase| ==> Cleared(s, t))
  }

  lemma SomeSlot(s: seq<Option<Ptr>>, j: nat, p: Ptr)
    requires j < |s| && s[j] == Some(p)
    ensures 0 < Refs.Slots(s, p)
  {
    Refs.SlotsUpdate(s, j, None, p);
  }

  /** A quota in use keeps its identity. */
  lemma KeepsKey(w: Refs.World, h: Refs.HashFn, r: Refs.Step, p: Ptr, k: nat)
    requires Refs.Inv(w, h) && Refs.Enabled(w, h, r) && Typed(w, p, k) && (p in w.held || p in w.dups)
    ensures Typed(Refs.Next(w, h, r), p, k)
  {
    assert Refs.Each(w, h, p);
    if r.Prune? {
      Refs.PrunedUnused(w, h);
    }
  }

  lemma OwnedUse(s: System, h: Refs.HashFn, j: nat)
    requires Inv(s, h) && j < |s.from|
    ensures s.from[j].Some? ==> s.from[j].value in s.w.dups
    ensures s.to[j].Some? ==> s.to[j].value in s.w.held
  {
    if s.from[j].Some? {
      SomeSlot(s.from, j, s.from[j].value);
      assert Owned(s, s.from[j].value);
    }
    if s.to[j].Some? {
      SomeSlot(s.to, j, s.to[j].value);
      assert Owned(s, s.to[j].value);
    }
  }

  lemma SortedKeeps(s: System, h: Refs.HashFn, r: Refs.Step, s': System, j: nat)
    requires Inv(s, h) && Refs.Enabled(s.w, h, r) && s'.w == Refs.Next(s.w, h, r) && j < |s.from|
    requires |s'.from| == |s.from| && |s'.to| == |s.to|
    requires s'.from[j] == None || s'.from[j] == s.from[j]
    requires s'.to[j] == None || s'.to[j] == s.to[j] || s'.to[j] == s.from[j]
    ensures Sorted(s', j)
  {
    assert Sorted(s, j);
    OwnedUse(s, h, j);
    if s.from[j].Some? {
      KeepsKey(s.w, h, r, s.from[j].value, j % 2);
    }
    if s.to[j].Some? {
      KeepsKey(s.w, h, r, s.to[j].value, j % 2);
    }
  }

  // ---------------------------------------------------------------- every act keeps the invariant

  lemma ForeignOwned(s: System, h: Refs.HashFn, r: Refs.Step, p: Ptr)
    requires Inv(s, h) && Refs.Enabled(s.w, h, r) && Foreign(s, r)
    ensures Owned(s.(w := Refs.Next(s.w, h, r)), p)
  {
    assert Owned(s, p);
  }

  lemma OtherInv(s: System, h: Refs.HashFn, a: Act)
    requires Inv(s, h) && a.Other? && Can(s, h, a)
    ensures Inv(Do(s, h, a), h)
  {
    var s' := Do(s, h, a);
    Refs.StepInv(s.w, h, a.s);
    forall p: Ptr ensures Owned(s', p) {
      ForeignOwned(s, h, a.s, p);
    }
    forall j: nat | j < |s'.from| ensures Sorted(s', j) {
      SortedKeeps(s, h, a.s, s', j);
    }
    forall t: Thread | t < |s'.phase| ensures Cleared(s', t) {
      assert Cleared(s, t);
    }
  }

  lemma Parity(t: Thread, k: nat)
    requires k < 2
    ensures At(t, k) % 2 == k
  {
  }

  lemma TakeInv(s: System, h: Refs.HashFn, a: Act)
    requires Inv(s, h) && a.Take? && Can(s, h, a)
    ensures Inv(Do(s, h, a), h)
  {
    var s' := Do(s, h, a);
    forall p: Ptr ensures Owned(s', p) {
      assert Owned(s, p);
      Refs.SlotsUpdate(s.to, At(a.t, a.k), Some(a.p), p);
    }
    forall j: nat | j < |s'.from| ensures Sorted(s', j) {
      assert Sorted(s, j);
      Parity(a.t, a.k);
    }
    forall t: Thread | t < |s'.phase| ensures Cleared(s', t) {
      assert Cleared(s, t);
    }
  }

  lemma DuplicateInv(s: System, h: Refs.HashFn, a: Act)
    requires Inv(s, h) && a.Duplicate? && Can(s, h, a)
    ensures Inv(Do(s, h, a), h)
  {
    var s', r, j0 := Do(s, h, a), Refs.Duplicate(a.slot), At(a.t, a.k);
    var q := s.w.slots[a.slot].value;
    Refs.StepInv(s.w, h, r);
    forall p: Ptr ensures Owned(s', p) {
      assert Owned(s, p);
      Refs.SlotsUpdate(s.from, j0, Some(q), p);
    }
    forall j: nat | j < |s'.from| ensures Sorted(s', j) {
      if j == j0 {
        SortedKeeps(s, h, r, s'.(from := s'.from[j0 := None]), j);
      } else {
        SortedKeeps(s, h, r, s', j);
      }
    }
    forall t: Thread | t < |s'.phase| ensures Cleared(s', t) {
      assert Cleared(s, t);
    }
  }

  lemma ExchangeInv(s: System, h: Refs.HashFn, a: Act)
    requires Inv(s, h) && a.Exchange? && Can(s, h, a)
    ensures Inv(Do(s, h, a), h)
  {
    var s', j0 := Do(s, h, a), At(a.t, a.k);
    var r := Refs.Swap(a.slot, s.to[j0].value);
    Refs.StepInv(s.w, h, r);
    forall p: Ptr ensures Owned(s', p) {
      assert Owned(s, p);
      Refs.SlotsUpdate(s.to, j0, s.from[j0], p);
    }
    forall j: nat | j < |s'.from| ensures Sorted(s', j) {
      SortedKeeps(s, h, r, s', j);
    }
    forall t: Thread | t < |s'.phase| ensures Cleared(s', t) {
      assert Cleared(s, t);
    }
  }

  lemma DropDuplicateInv(s: System, h: Refs.HashFn, a: Act)
    requires Inv(s, h) && a.DropDuplicate? && Can(s, h, a)
    ensures Inv(Do(s, h, a), h)
  {
    var s', j0 := Do(s, h, a), At(a.t, s.phase[a.t].k);
    var q := s.from[j0].value;
    var r := Refs.PutDuplicate(q);
    Refs.StepInv(s.w, h, r);
    Refs.PutDuplicateKeeps(s.w, h, q);
    forall p: Ptr ensures Owned(s', p) {
      assert Owned(s, p);
      Refs.SlotsUpdate(s.from, j0, None, p);
    }
    forall j: nat | j < |s'.from| ensures Sorted(s', j) {
      SortedKeeps(s, h, r, s', j);
    }
    forall t: Thread | t < |s'.phase| ensures Cleared(s', t) {
      assert Cleared(s, t);
    }
  }

  lemma DropReferenceOwned(s: System, h: Refs.HashFn, a: Act, p: Ptr)
    requires Inv(s, h) && a.DropReference? && Can(s, h, a)
    ensures Owned(Do(s, h, a), p)
  {
    var j0 := At(a.t, s.phase[a.t].k);
    assert Owned(s, p) && Refs.Each(s.w, h, s.to[j0].value);
    Refs.SlotsUpdate(s.to, j0, None, p);
  }

  lemma DropReferenceInv(s: System, h: Refs.HashFn, a: Act)
    requires Inv(s, h) && a.DropReference? && Can(s, h, a)
    ensures Inv(Do(s, h, a), h)
  {
    var s', j0 := Do(s, h, a), At(a.t, s.phase[a.t].k);
    var r := Refs.Put(s.to[j0].value);
    Refs.StepInv(s.w, h, r);
    forall p: Ptr ensures Owned(s', p) {
      DropReferenceOwned(s, h, a, p);
    }
    forall j: nat | j < |s'.from| ensures Sorted(s', j) {
      SortedKeeps(s, h, r, s', j);
    }
    forall t: Thread | t < |s'.phase| ensures Cleared(s', t) {
      assert Cleared(s, t);
    }
  }

  lemma WriteBackInv(s: System, h: Refs.HashFn, a: Act)
    requires Inv(s, h) && a.WriteBack? && Can(s, h, a)
    ensures Inv(Do(s, h, a), h)
  {
    var s', r := Do(s, h, a), Refs.Write(s.to[At(a.t, s.phase[a.t].k)].value);
    Refs.StepInv(s.w, h, r);
    forall p: Ptr ensures Owned(s', p) {
      assert Owned(s, p);
    }
    forall j: nat | j < |s'.from| ensures Sorted(s', j) {
      SortedKeeps(s, h, r, s', j);
    }
    forall t: Thread | t < |s'.phase| ensures Cleared(s', t) {
      assert Cleared(s, t);
    }
  }

  lemma PhaseInv(s: System, h: Refs.HashFn, a: Act)
    requires Inv(s, h) && (a.Begin? || a.Forward? || a.Sleep? || a.Wake?) && Can(s, h, a)
    ensures Inv(Do(s, h, a), h)
  {
    var s' := Do(s, h, a);
    forall p: Ptr ensures Owned(s', p) {
      assert Owned(s, p);
    }
    forall j: nat | j < |s'.from| ensures Sorted(s', j) {
      assert Sorted(s, j);
    }
    forall t: Thread | t < |s'.phase| ensures Cleared(s', t) {
      assert Cleared(s, t);
    }
  }

  lemma DoInv(s: System, h: Refs.HashFn, a: Act)
    requires Inv(s, h) && Can(s, h, a)
    ensures Inv(Do(s, h, a), h)
  {
    match a
    case Other(_) => OtherInv(s, h, a);
    case Take(_, _, _) => TakeInv(s, h, a);
    case Duplicate(_, _, _) => DuplicateInv(s, h, a);
    case Exchange(_, _, _) => ExchangeInv(s, h, a);
    case Begin(_) => PhaseInv(s, h, a);
    case DropDuplicate(_) => DropDuplicateInv(s, h, a);
    case DropReference(_) => DropReferenceInv(s, h, a);
    case WriteBack(_) => WriteBackInv(s, h, a);
    case Forward(_) => PhaseInv(s, h, a);
    case Sleep(_) => PhaseInv(s, h, a);
    case Wake(_) => PhaseInv(s, h, a);
  }

  // ---------------------------------------------------------------- runs

  ghost predicate CanRun(s: System, h: Refs.HashFn, acts: seq<Act>)
    decreases |acts|
  {
    acts != [] ==> Can(s, h, acts[0]) && CanRun(Do(s, h, acts[0]), h, acts[1..])
  }

  ghost function Run(s: System, h: Refs.HashFn, acts: seq<Act>): System
    requires CanRun(s, h, acts)
    decreases |acts|
  {
    if acts == [] then s else Run(Do(s, h, acts[0]), h, acts[1..])
  }

  lemma {:induction false} RunInv(s: System, h: Refs.HashFn, acts: seq<Act>)
    requires Inv(s, h) && CanRun(s, h, acts)
    ensures Inv(Run(s, h, acts), h)
    decreases |acts|
  {
    if acts != [] {
      DoInv(s, h, acts[0]);
      RunInv(Do(s, h, acts[0]), h, acts[1..]);
    }
  }

  /** An empty cache and threads that have nothing. */
  function Boot(slots: nat, threads: nat): System {
    System(Refs.Empty(slots), seq(2 * threads, i => None), seq(2 * threads, i => None), seq(threads, i => Gather))
  }

  lemma BootInv(slots: nat, threads: nat, h: Refs.HashFn)
    ensures Inv(Boot(slots, threads), h)
  {
    var s := Boot(slots, threads);
    Refs.EmptyInv(slots, h);
    forall p: Ptr ensures Owned(s, p) {
      Refs.NoSlots(s.from, p);
      Refs.NoSlots(s.to, p);
    }
  }

  // ---------------------------------------------------------------- waiting

  /** The thread sleeps and the quota still has a duplicate, or it is about to go to sleep.  More references do
      not wake a sleeper, only the last duplicate going does. */
  ghost predicate Waits(s: System, t: Thread, k: nat) {
    && Fits(s, t, k)
    && ((s.phase[t] == Release(k) && LastReference(s, t, k))
        || (s.phase[t] == Asleep(k) && s.to[At(t, k)].Some? && s.to[At(t, k)].value in s.w.dqs
            && 0 < s.w.dqs[s.to[At(t, k)].value].dup))
  }

  lemma {:induction false} SlotOf(s: seq<Option<Ptr>>, p: Ptr) returns (j: nat)
    requires 0 < Refs.Slots(s, p)
    ensures j < |s| && s[j] == Some(p)
  {
    if s[0] == Some(p) {
      j := 0;
    } else {
      var i := SlotOf(s[1..], p);
      j := i + 1;
    }
  }

  /** Who has a duplicate of a quota of type `k`. */
  lemma Duplicator(s: System, h: Refs.HashFn, p: Ptr, k: nat) returns (u: Thread)
    requires Inv(s, h) && Typed(s.w, p, k) && 0 < s.w.dqs[p].dup
    ensures Fits(s, u, k) && s.from[At(u, k)] == Some(p)
  {
    assert Owned(s, p) && Refs.Each(s.w, h, p);
    var j := SlotOf(s.from, p);
    assert Sorted(s, j);
    u := j / 2;
    assert j == At(u, k);
  }

  /** A thread with a duplicate of type `k` can only wait at an earlier type. */
  lemma WaitsEarlier(s: System, h: Refs.HashFn, u: Thread, k: nat, i: nat)
    requires Inv(s, h) && Fits(s, u, k) && s.from[At(u, k)].Some? && Waits(s, u, i)
    ensures i < k
  {
    assert Cleared(s, u);
  }

  /** Whoever waits does so for the duplicate of another thread, never for one of its own; and if that thread
      waits too, it does so for a quota of an earlier type. */
  lemma WaitsForOther(s: System, h: Refs.HashFn, t: Thread, k: nat) returns (u: Thread)
    requires Inv(s, h) && Waits(s, t, k)
    ensures Fits(s, u, k) && u != t && s.from[At(u, k)] == s.to[At(t, k)]
    ensures forall i: nat :: Fits(s, t, i) ==> s.from[At(t, i)] != s.to[At(t, k)]
    ensures forall i: nat :: Waits(s, u, i) ==> i < k
  {
    var p := s.to[At(t, k)].value;
    assert Sorted(s, At(t, k)) && Cleared(s, t);
    u := Duplicator(s, h, p, k);
    forall i: nat | Fits(s, t, i) ensures s.from[At(t, i)] != Some(p) {
      assert Sorted(s, At(t, i));
    }
    forall i: nat | Waits(s, u, i) ensures i < k {
      WaitsEarlier(s, h, u, k, i);
    }
  }

  /** Why the duplicate goes first: with the duplicate still there, putting the last other reference to the same
      quota, as a transfer has to, would wait for the thread itself. */
  lemma ReferenceFirstWaits(s: System, h: Refs.HashFn, t: Thread, k: nat)
    requires Inv(s, h) && Fits(s, t, k) && s.from[At(t, k)].Some? && s.to[At(t, k)] == s.from[At(t, k)]
    ensures
      var p := s.to[At(t, k)].value;
      && p in s.w.dqs && 0 < s.w.dqs[p].dup
      && (Refs.Enabled(s.w, h, Refs.Put(p)) <==> s.w.dqs[p].dup + 1 < s.w.dqs[p].count)
  {
    var p := s.to[At(t, k)].value;
    assert Sorted(s, At(t, k)) && Refs.Each(s.w, h, p);
    OwnedUse(s, h, At(t, k));
  }

  /** The acts of one thread. */
  predicate By(a: Act, t: Thread) { !a.Other? && a.t == t }

  /** And it would wait for ever: whatever the others do, the duplicate of a thread that sleeps stays. */
  lemma {:induction false} OwnDuplicateLasts(s: System, h: Refs.HashFn, acts: seq<Act>, t: Thread, k: nat, p: Ptr)
    requires Inv(s, h) && CanRun(s, h, acts) && forall i :: 0 <= i < |acts| ==> !By(acts[i], t)
    requires Fits(s, t, k) && s.from[At(t, k)] == Some(p)
    ensures var s' := Run(s, h, acts); p in s'.w.dqs && 0 < s'.w.dqs[p].dup
    decreases |acts|
  {
    if acts == [] {
      assert Refs.Each(s.w, h, p);
      OwnedUse(s, h, At(t, k));
    } else {
      DoInv(s, h, acts[0]);
      OthersKeep(s, h, acts[0], t, k);
      assert forall i :: 0 <= i < |acts[1..]| ==> acts[1..][i] == acts[i + 1];
      OwnDuplicateLasts(Do(s, h, acts[0]), h, acts[1..], t, k, p);
    }
  }

  lemma OthersKeep(s: System, h: Refs.HashFn, a: Act, t: Thread, k: nat)
    requires Can(s, h, a) && !By(a, t) && Fits(s, t, k)
    ensures Fits(Do(s, h, a), t, k) && Do(s, h, a).from[At(t, k)] == s.from[At(t, k)]
  {
  }

  /** The thread has something to let go of, or is on its way through the release loop. */
  ghost predicate Active(s: System, t: Thread) {
    t < |s.phase| && |s.from| == |s.to| == 2 * |s.phase| &&
    (s.phase[t] != Gather || s.from[2 * t].Some? || s.from[2 * t + 1].Some? || s.to[2 * t].Some? || s.to[2 * t + 1].Some?)
  }

  ghost predicate Stuck(s: System, t: Thread) { exists k: nat :: Waits(s, t, k) }

  /** No deadlock: among the threads that are not done, one does not wait. */
  lemma SomeoneGoesOn(s: System, h: Refs.HashFn, t: Thread) returns (u: Thread)
    requires Inv(s, h) && Active(s, t)
    ensures Active(s, u) && !Stuck(s, u)
  {
    u := t;
    if k: nat :| Waits(s, t, k) {
      var v := WaitsForOther(s, h, t, k);
      u := v;
      if i: nat :| Waits(s, v, i) {
        u := WaitsForOther(s, h, v, i);
      }
    }
  }

  // ---------------------------------------------------------------- completion

  function One(o: Option<Ptr>): nat { if o.Some? then 1 else 0 }

  /** What a thread with this much in its hands still has to do. */
  function Todo(ph: Phase, f0: Option<Ptr>, f1: Option<Ptr>, t0: Option<Ptr>, t1: Option<Ptr>): nat {
    var n := One(f0) + One(f1) + One(t0) + One(t1);
    n + match ph case Gather => (if n == 0 then 0 else 3) case Release(k) => (if k == 0 then 2 else 1) case Asleep(k) => (if k == 0 then 3 else 2)
  }

  ghost function Work(s: System, t: Thread): nat
    requires t < |s.phase| && |s.from| == |s.to| == 2 * |s.phase|
  {
    Todo(s.phase[t], s.from[2 * t], s.from[2 * t + 1], s.to[2 * t], s.to[2 * t + 1])
  }

  ghost function Total(s: System, n: nat): nat
    requires n <= |s.phase| && |s.from| == |s.to| == 2 * |s.phase|
  {
    if n == 0 then 0 else Total(s, n - 1) + Work(s, n - 1)
  }

  lemma {:induction false} TotalLess(s: System, s': System, t: Thread, n: nat)
    requires n <= |s.phase| == |s'.phase| && |s.from| == |s.to| == |s'.from| == |s'.to| == 2 * |s.phase|
    requires t < |s.phase| && Work(s', t) < Work(s, t)
    requires forall u: Thread :: u < |s.phase| && u != t ==> Work(s', u) == Work(s, u)
    ensures t < n ==> Total(s', n) < Total(s, n)
    ensures n <= t ==> Total(s', n) == Total(s, n)
  {
    if n > 0 {
      TotalLess(s, s', t, n - 1);
    }
  }

  ghost predicate Closer(s: System, h: Refs.HashFn, s': System) {
    Inv(s', h) && |s'.phase| == |s.phase| && Inv(s, h) && Total(s', |s'.phase|) < Total(s, |s.phase|)
  }

  /** The act that a thread takes which does not wait and need not write. */
  ghost predicate Moves(s: System, a: Act, t: Thread) {
    a == Begin(t) || a == DropDuplicate(t) || a == DropReference(t) || a == Forward(t) || a == Wake(t)
  }

  lemma MoveCounts(s: System, h: Refs.HashFn, a: Act, t: Thread)
    requires Inv(s, h) && Moves(s, a, t) && Can(s, h, a) && Active(s, t)
    ensures Closer(s, h, Do(s, h, a))
  {
    DoInv(s, h, a);
    assert Cleared(s, t);
    MoveWorks(s, h, a, t);
    TotalLess(s, Do(s, h, a), t, |s.phase|);
  }

  lemma MoveWorks(s: System, h: Refs.HashFn, a: Act, t: Thread)
    requires Moves(s, a, t) && Can(s, h, a) && Active(s, t) && Cleared(s, t)
    ensures
      var s' := Do(s, h, a);
      && |s'.phase| == |s.phase| && |s'.from| == |s.from| && |s'.to| == |s.to|
      && Work(s', t) < Work(s, t) && forall u: Thread :: u < |s.phase| && u != t ==> Work(s', u) == Work(s, u)
  {
  }

  /** What a thread that does not wait does next. */
  lemma NextMove(s: System, h: Refs.HashFn, t: Thread) returns (acts: seq<Act>)
    requires Inv(s, h) && Active(s, t) && !Stuck(s, t)
    ensures CanRun(s, h, acts) && Closer(s, h, Run(s, h, acts))
  {
    assert Cleared(s, t);
    if s.phase[t] == Gather {
      acts := Single(s, h, Begin(t), t);
    } else if s.phase[t].Asleep? {
      var k := s.phase[t].k;
      assert Sorted(s, At(t, k)) && !Waits(s, t, k);
      acts := Single(s, h, Wake(t), t);
    } else {
      var k := s.phase[t].k;
      var j := At(t, k);
      assert Sorted(s, j);
      OwnedUse(s, h, j);
      if s.from[j].Some? {
        acts := Single(s, h, DropDuplicate(t), t);
      } else if s.to[j].None? {
        acts := Single(s, h, Forward(t), t);
      } else if Refs.Enabled(s.w, h, Refs.Put(s.to[j].value)) {
        acts := Single(s, h, DropReference(t), t);
      } else {
        acts := WriteFirst(s, h, t, k);
      }
    }
  }

  lemma Single(s: System, h: Refs.HashFn, a: Act, t: Thread) returns (acts: seq<Act>)
    requires Inv(s, h) && Moves(s, a, t) && Can(s, h, a) && Active(s, t)
    ensures CanRun(s, h, acts) && Closer(s, h, Run(s, h, acts))
  {
    MoveCounts(s, h, a, t);
    acts := [a];
    assert acts[1..] == [];
  }

  /** The last reference to a dirty quota: write, then let go. */
  lemma WriteFirst(s: System, h: Refs.HashFn, t: Thread, k: nat) returns (acts: seq<Act>)
    requires Inv(s, h) && Releasing(s, t, k) && s.from[At(t, k)] == None && s.to[At(t, k)].Some? && !Waits(s, t, k)
    requires !Refs.Enabled(s.w, h, Refs.Put(s.to[At(t, k)].value))
    ensures CanRun(s, h, acts) && Closer(s, h, Run(s, h, acts))
  {
    var p := s.to[At(t, k)].value;
    assert Sorted(s, At(t, k));
    OwnedUse(s, h, At(t, k));
    assert Refs.Each(s.w, h, p);
    var s' := Do(s, h, WriteBack(t));
    DoInv(s, h, WriteBack(t));
    MoveCounts(s', h, DropReference(t), t);
    SameWork(s, s', |s.phase|);
    acts := TwoActs(s, h, WriteBack(t), DropReference(t));
  }

  lemma TwoActs(s: System, h: Refs.HashFn, a: Act, b: Act) returns (acts: seq<Act>)
    requires Can(s, h, a) && Can(Do(s, h, a), h, b)
    ensures CanRun(s, h, acts) && Run(s, h, acts) == Do(Do(s, h, a), h, b)
  {
    acts := [a, b];
    var rest := acts[1..];
    assert rest == [b] && rest[1..] == [];
    assert CanRun(Do(s, h, a), h, rest) && Run(Do(s, h, a), h, rest) == Do(Do(s, h, a), h, b);
  }

  lemma {:induction false} SameWork(s: System, s': System, n: nat)
    requires n <= |s.phase| && |s.from| == |s.to| == 2 * |s.phase|
    requires s'.from == s.from && s'.to == s.to && s'.phase == s.phase
    ensures Total(s', n) == Total(s, n)
  {
    if n > 0 {
      SameWork(s, s', n - 1);
    }
  }

  lemma HeadFirst(acts: seq<Act>, more: seq<Act>)
    requires acts != []
    ensures acts + more == [acts[0]] + (acts[1..] + more)
  {
  }

  lemma RunFrom(s: System, h: Refs.HashFn, acts: seq<Act>, a: Act, rest: seq<Act>)
    requires acts == [a] + rest && Can(s, h, a) && CanRun(Do(s, h, a), h, rest)
    ensures CanRun(s, h, acts) && Run(s, h, acts) == Run(Do(s, h, a), h, rest)
  {
    assert acts[0] == a && acts[1..] == rest;
  }

  lemma {:induction false} RunOn(s: System, h: Refs.HashFn, acts: seq<Act>, more: seq<Act>)
    requires CanRun(s, h, acts) && CanRun(Run(s, h, acts), h, more)
    ensures CanRun(s, h, acts + more) && Run(s, h, acts + more) == Run(Run(s, h, acts), h, more)
    decreases |acts|
  {
    if acts == [] {
      assert acts + more == more;
    } else {
      var a, rest := acts[0], acts[1..];
      RunOn(Do(s, h, a), h, rest, more);
      HeadFirst(acts, more);
      RunFrom(s, h, acts + more, a, rest + more);
    }
  }

  /** Nobody has anything left. */
  ghost predicate Quiet(s: System) { forall t: Thread {:trigger Active(s, t)} :: !Active(s, t) }

  /** From every reachable state the threads can all finish: no wait lasts because of the protocol. */
  lemma {:induction false} AllFinish(s: System, h: Refs.HashFn) returns (acts: seq<Act>)
    requires Inv(s, h)
    ensures CanRun(s, h, acts) && Quiet(Run(s, h, acts))
    decreases Total(s, |s.phase|)
  {
    if Quiet(s) {
      acts := [];
    } else {
      var t: Thread :| Active(s, t);
      var u := SomeoneGoesOn(s, h, t);
      var first := NextMove(s, h, u);
      var rest := AllFinish(Run(s, h, first), h);
      RunOn(s, h, first, rest);
      acts := first + rest;
    }
  }

  /** After every run from the start, no thread waits for a duplicate of its own, and the run can be completed. */
  lemma NoDeadlock(slots: nat, threads: nat, h: Refs.HashFn, acts: seq<Act>, t: Thread, k: nat) returns (more: seq<Act>)
    requires CanRun(Boot(slots, threads), h, acts)
    ensures
      var s := Run(Boot(slots, threads), h, acts);
      Waits(s, t, k) ==> forall i: nat :: Fits(s, t, i) ==> s.from[At(t, i)] != s.to[At(t, k)]
    ensures CanRun(Boot(slots, threads), h, acts + more) && Quiet(Run(Boot(slots, threads), h, acts + more))
  {
    BootInv(slots, threads, h);
    RunInv(Boot(slots, threads), h, acts);
    var s := Run(Boot(slots, threads), h, acts);
    if Waits(s, t, k) {
      var _ := WaitsForOther(s, h, t, k);
    }
    more := AllFinish(s, h);
    RunOn(Boot(slots, threads), h, acts, more);
  }
}
