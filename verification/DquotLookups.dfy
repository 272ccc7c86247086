/** What the steps of the quota cache mean to their callers: which quota a key finds, what is dirty,
    and which steps take each other back. */
module DquotLookups {
  import opened Options
  import opened Seqs
  import opened DquotRefs

  /** What find_dquot answers. */
  function Lookup(w: World, h: HashFn, key: Key): Option<Ptr> { Find(w, Chain(w, h(key)), key) }

  ghost predicate Bears(w: World, p: Ptr, key: Key) { p in w.dqs && w.dqs[p].hashed && w.dqs[p].key == key }

  /** A key finds the one hashed quota that bears it. */
  lemma LookupExact(w: World, h: HashFn, key: Key, p: Ptr)
    requires Inv(w, h)
    ensures Lookup(w, h, key) == Some(p) <==> Bears(w, p, key)
    ensures Lookup(w, h, key) == None ==> !Bears(w, p, key)
  {
    var r := Lookup(w, h, key);
    FindIn(w, Chain(w, h(key)), key);
    if r.Some? {
      assert OnChain(w, h, h(key), r.value);
      assert Distinct(w, p, r.value);
    }
    if Bears(w, p, key) {
      assert Each(w, h, p);
    }
  }

  /** The quota that the next pass of prune_dqcache takes. */
  function Victim(w: World): Option<Ptr> { if w.free == [] then None else Some(w.free[|w.free| - 1]) }

  /** What a key finds after a step. */
  function Answer(w: World, h: HashFn, s: Step, key: Key): Option<Ptr> {
    var f := Lookup(w, h, key);
    match s
    case Insert(p, k) => if k == key then Some(p) else f
    case Prune => if f.Some? && f == Victim(w) then None else f
    case _ => f
  }

  /** Steps that move references. */
  predicate Counts(s: Step) { s.Duplicate? || s.PutDuplicate? || s.Put? || s.Get? }

  /** Such a step changes no more of a quota than its counts. */
  lemma CountsOnly(w: World, h: HashFn, s: Step)
    requires Enabled(w, h, s) && Counts(s)
    ensures var v := Next(w, h, s);
            && v.dqs.Keys == w.dqs.Keys
            && forall p :: p in w.dqs ==> v.dqs[p] == w.dqs[p].(count := v.dqs[p].count, dup := v.dqs[p].dup)
  {
    if s.Get? {
      FindIn(w, Chain(w, h(s.key)), s.key);
    }
  }

  lemma BearsAfter(w: World, h: HashFn, s: Step, key: Key, p: Ptr)
    requires Enabled(w, h, s)
    ensures Bears(Next(w, h, s), p, key) <==>
      match s
      case Insert(q, k) => if p == q then k == key else Bears(w, p, key)
      case Prune => Bears(w, p, key) && Victim(w) != Some(p)
      case _ => Bears(w, p, key)
  {
    if Counts(s) {
      CountsOnly(w, h, s);
    }
  }

  /** An inserted quota is found under its key and a pruned one no more; no other lookup changes. */
  lemma LookupAfter(w: World, h: HashFn, s: Step, key: Key)
    requires Inv(w, h) && Enabled(w, h, s)
    ensures Lookup(Next(w, h, s), h, key) == Answer(w, h, s, key)
  {
    var v, a := Next(w, h, s), Answer(w, h, s, key);
    StepInv(w, h, s);
    var f, g := Lookup(w, h, key), Lookup(v, h, key);
    if g.Some? {
      LookupExact(v, h, key, g.value);
      BearsAfter(w, h, s, key, g.value);
      LookupExact(w, h, key, g.value);
    }
    if f.Some? {
      LookupExact(w, h, key, f.value);
      BearsAfter(w, h, s, key, f.value);
      LookupExact(v, h, key, f.value);
    }
    if s.Insert? {
      LookupExact(v, h, key, s.p);
      BearsAfter(w, h, s, key, s.p);
    }
  }

  /** A quota is dirty from mark_dquot_dirty until it is written. */
  lemma DirtyAfter(w: World, h: HashFn, s: Step, p: Ptr)
    requires Enabled(w, h, s) && p in w.dqs && p in Next(w, h, s).dqs
    ensures Next(w, h, s).dqs[p].dirty <==> s == MarkDirty(p) || (w.dqs[p].dirty && s != Write(p))
  {
    if Counts(s) {
      CountsOnly(w, h, s);
    }
  }

  // ---------------------------------------------------------------- steps that take each other back

  lemma MoreLess(m: multiset<Ptr>, p: Ptr)
    ensures Less(m + multiset{p}, p) == m
  {
  }

  lemma DuplicateBack(w: World, h: HashFn, i: nat)
    requires Inv(w, h) && Enabled(w, h, Duplicate(i))
    ensures var v, p := Next(w, h, Duplicate(i)), w.slots[i].value;
            Enabled(v, h, PutDuplicate(p)) && Next(v, h, PutDuplicate(p)) == w
  {
    var v, p := Next(w, h, Duplicate(i)), w.slots[i].value;
    MoreLess(w.dups, p);
    assert Next(v, h, PutDuplicate(p)).dqs == w.dqs;
  }

  lemma AttachBack(w: World, h: HashFn, i: nat, p: Ptr)
    requires Enabled(w, h, Attach(i, p))
    ensures var v := Next(w, h, Attach(i, p)); Enabled(v, h, Detach(i)) && Next(v, h, Detach(i)) == w
  {
    var v := Next(w, h, Attach(i, p));
    assert v.slots[i := None] == w.slots;
    assert v.held + multiset{p} == w.held;
  }

  /** Swapping twice gives the inode its first quota back. */
  lemma SwapBack(w: World, h: HashFn, i: nat, p: Ptr)
    requires Enabled(w, h, Swap(i, p))
    ensures var v, q := Next(w, h, Swap(i, p)), w.slots[i].value;
            Enabled(v, h, Swap(i, q)) && Next(v, h, Swap(i, q)) == w
  {
    var v, q := Next(w, h, Swap(i, p)), w.slots[i].value;
    assert v.slots[i := Some(q)] == w.slots;
    assert Less(v.held, q) + multiset{p} == w.held;
  }

  /** A reference taken by dqget and put again leaves all as it was, except that a quota that was
      unused is now the next to be pruned. */
  lemma GetPut(w: World, h: HashFn, key: Key, p: Ptr)
    requires Inv(w, h) && Lookup(w, h, key) == Some(p)
    ensures Enabled(w, h, Get(key))
    ensures var v := Next(w, h, Get(key));
            Enabled(v, h, Put(p)) ==> Next(v, h, Put(p)) == if w.dqs[p].count > 0 then w else w.(free := Without(w.free, p) + [p])
  {
    FindIn(w, Chain(w, h(key)), key);
    var v := Next(w, h, Get(key));
    if Enabled(v, h, Put(p)) {
      MoreLess(w.held, p);
      assert Next(v, h, Put(p)).dqs == w.dqs;
    }
  }

  /** The quota put last is the first to be pruned. */
  lemma PutPrune(w: World, h: HashFn, p: Ptr)
    requires Inv(w, h) && Enabled(w, h, Put(p)) && w.dqs[p].count == 1
    ensures var v := Next(w, h, Put(p));
            && Enabled(v, h, Prune) && Next(v, h, Prune).dqs == w.dqs - {p} && Next(v, h, Prune).free == w.free
  {
    assert Each(w, h, p);
    var v := Next(w, h, Put(p));
    PutInv(w, h, Put(p));
    WithoutSplit(v.free, |w.free|);
    assert v.free[..|w.free|] == w.free && v.free[|w.free| + 1..] == [];
    assert Next(v, h, Prune).dqs == w.dqs - {p};
  }
}
