/** Grace times: when an operation starts the clock of a soft limit, when it stops it, and that no
    quota stays above a soft limit without a running clock. */
module DquotGrace {
  import opened Options
  import opened DquotSpace

  // ---------------------------------------------------------------- starting

  /** Going over the soft limit starts the clock, unless it is running or the hard limit forbids the bytes. */
  predicate StartsBytes(q: Dquot, d: Id, n: nat, env: Env) {
    OverSoft(q, n) && q.btime == 0 && BytesFit(q, d, n, env)
  }

  predicate StartsInodes(q: Dquot, d: Id, env: Env) {
    !q.fake && q.isoft != 0 && q.curinodes + 1 > q.isoft && q.itime == 0 && InodesFit(q, d, 1, env)
  }

  lemma CheckBytesTimes(q: Dquot, d: Id, n: nat, prealloc: bool, env: Env)
    ensures CheckBytes(q, d, n, prealloc, env).1 ==
      if StartsBytes(q, d, n, env) && !prealloc then q.(btime := env.now + env.bgrace(q.kind)) else q
  {
  }

  lemma CheckInodesTimes(q: Dquot, d: Id, env: Env)
    ensures CheckInodes(q, d, 1, env).1 == if StartsInodes(q, d, env) then q.(itime := env.now + env.igrace(q.kind)) else q
    ensures CheckInodes(q, d, 1, env).0 <==> RoomInodes(q, d, env)
  {
  }

  // ---------------------------------------------------------------- the checking loops

  /** The loop comes as far as the quota of slot `m`: those before it take the allocation. */
  ghost predicate Reached(dqs: Table, qs: seq<Option<Id>>, n: nat, prealloc: bool, env: Env, m: nat)
    requires Known(dqs, qs) && m <= |qs|
  {
    Affords(dqs, qs[..m], n, prealloc, env)
  }

  lemma ReachedTail(dqs: Table, t: Table, qs: seq<Option<Id>>, n: nat, prealloc: bool, env: Env, m: nat, off: nat)
    requires 0 < m <= |qs| && Kinded(dqs, qs, off) && Known(t, qs[1..])
    requires t.Keys == dqs.Keys && forall d :: d in dqs && Some(d) != qs[0] ==> t[d] == dqs[d]
    ensures Reached(dqs, qs, n, prealloc, env, m) <==>
      && Reached(t, qs[1..], n, prealloc, env, m - 1)
      && (qs[0].Some? ==> Takes(dqs[qs[0].value], qs[0].value, n, prealloc, env))
  {
    assert qs[..m][1..] == qs[1..][..m - 1];
    AffordsTail(dqs, t, qs[..m], n, prealloc, env, off);
  }

  /** What the checking loop of dquot_alloc_space does to one quota. */
  lemma {:induction false} CheckAllAt(dqs: Table, qs: seq<Option<Id>>, n: nat, prealloc: bool, env: Env, off: nat, d: Id)
    requires Kinded(dqs, qs, off) && d in dqs
    ensures CheckAll(dqs, qs, n, prealloc, env).1[d] ==
      if Charges(dqs, qs, off, d) && Reached(dqs, qs, n, prealloc, env, dqs[d].kind - off)
      then CheckBytes(dqs[d], d, n, prealloc, env).1 else dqs[d]
    decreases |qs|
  {
    if qs != [] {
      var k := dqs[d].kind - off;
      var t, ok := dqs, true;
      if qs[0].Some? {
        var e := qs[0].value;
        CheckBytesExact(dqs[e], e, n, prealloc, env);
        CheckBytesSame(dqs[e], e, n, prealloc, env);
        var (fits, q) := CheckBytes(dqs[e], e, n, prealloc, env);
        t, ok := dqs[e := q], fits;
      }
      KindedTail(dqs, t, qs, off);
      if 0 < k <= |qs| {
        ReachedTail(dqs, t, qs, n, prealloc, env, k, off);
      }
      if ok {
        CheckAllAt(t, qs[1..], n, prealloc, env, off + 1, d);
      }
    }
  }

  // ---------------------------------------------------------------- what each operation does to the clocks

  /** An allocation starts the clock of a quota exactly if it takes the quota over its soft limit
      and no quota before it has refused; even an allocation that a later quota refuses does. */
  lemma AllocTimes(s: Quota, op: Op, d: Id)
    requires WellFormed(s) && Legal(s, op) && op.Alloc? && d in s.dqs
    ensures d in Step(s, op).1.dqs
    ensures
      var q, q', qs := s.dqs[d], Step(s, op).1.dqs[d], s.inodes[op.i].quotas;
      && q'.itime == q.itime
      && q'.btime == if Some(d) in qs && q.kind < |qs| && Reached(s.dqs, qs, op.n, op.prealloc, op.env, q.kind)
                        && StartsBytes(q, d, op.n, op.env) && !op.prealloc
                     then op.env.now + op.env.bgrace(q.kind) else q.btime
  {
    var ino := s.inodes[op.i];
    var (ok, t) := CheckAll(s.dqs, ino.quotas, op.n, op.prealloc, op.env);
    SlotShare(s.dqs, ino, d);
    CheckAllAt(s.dqs, ino.quotas, op.n, op.prealloc, op.env, 0, d);
    CheckBytesTimes(s.dqs[d], d, op.n, op.prealloc, op.env);
    if ok {
      CheckAllKinds(s.dqs, ino.quotas, op.n, op.prealloc, op.env);
      SlottedKeeps(s.dqs, t, ino.quotas);
      AddAllAt(t, ino.quotas, op.n, 0, d);
    }
  }

  /** A free stops the clock exactly if it takes the quota below its soft limit. */
  lemma FreeTimes(s: Quota, op: Op, d: Id)
    requires WellFormed(s) && Legal(s, op) && op.Free? && d in s.dqs
    ensures d in Step(s, op).1.dqs
    ensures
      var q, q', qs := s.dqs[d], Step(s, op).1.dqs[d], s.inodes[op.i].quotas;
      && q'.itime == q.itime
      && q'.btime == if Some(d) in qs && ToQb(q'.curspace) < q.bsoft then 0 else q.btime
  {
    SubAllAt(s.dqs, s.inodes[op.i].quotas, op.n, 0, d);
    SlotShare(s.dqs, s.inodes[op.i], d);
  }

  /** The quota after the checks of a transfer of one inode with `space` bytes: the clock of the
      bytes is looked at only if the inode has passed. */
  function Checked(q: Dquot, d: Id, space: nat, env: Env): Dquot {
    var i := if StartsInodes(q, d, env) then q.(itime := env.now + env.igrace(q.kind)) else q;
    if RoomInodes(q, d, env) && StartsBytes(q, d, space, env) then i.(btime := env.now + env.bgrace(q.kind)) else i
  }

  lemma CheckedIs(q: Dquot, d: Id, space: nat, env: Env)
    ensures
      var (ok, r) := CheckInodes(q, d, 1, env);
      && Checked(q, d, space, env) == (if ok then CheckBytes(r, d, space, false, env).1 else r)
      && (ok && CheckBytes(r, d, space, false, env).0 <==> RoomInodes(q, d, env) && RoomBytes(q, d, space, env))
  {
    CheckInodesTimes(q, d, env);
    CheckBytesTimes(CheckInodes(q, d, 1, env).1, d, space, false, env);
    CheckBytesExact(CheckInodes(q, d, 1, env).1, d, space, false, env);
  }

  ghost predicate ReachedMove(dqs: Table, from: seq<Option<Id>>, to: seq<Option<Id>>, space: nat, env: Env, m: nat)
    requires |from| == |to| && Known(dqs, to) && m <= |to|
  {
    Welcome(dqs, from[..m], to[..m], space, env)
  }

  lemma ReachedMoveTail(dqs: Table, t: Table, from: seq<Option<Id>>, to: seq<Option<Id>>, space: nat, env: Env, m: nat, off: nat)
    requires |from| == |to| && 0 < m <= |to| && Kinded(dqs, to, off) && Known(t, to[1..])
    requires t.Keys == dqs.Keys && forall d :: d in dqs && Some(d) != to[0] ==> t[d] == dqs[d]
    ensures ReachedMove(dqs, from, to, space, env, m) <==>
      && ReachedMove(t, from[1..], to[1..], space, env, m - 1)
      && (from[0].Some? && to[0].Some? ==>
            RoomInodes(dqs[to[0].value], to[0].value, env) && RoomBytes(dqs[to[0].value], to[0].value, space, env))
  {
    assert to[..m][1..] == to[1..][..m - 1] && from[..m][1..] == from[1..][..m - 1];
    WelcomeTail(dqs, t, from[..m], to[..m], space, env, off);
  }

  /** What the checking loop of dquot_transfer does to one quota. */
  lemma {:induction false} CheckMoveAt(dqs: Table, from: seq<Option<Id>>, to: seq<Option<Id>>, space: nat, env: Env, off: nat, d: Id)
    requires |from| == |to| && Kinded(dqs, to, off) && d in dqs
    ensures CheckMove(dqs, from, to, space, env).1[d] ==
      if Receives(dqs, from, to, off, d) && ReachedMove(dqs, from, to, space, env, dqs[d].kind - off)
      then Checked(dqs[d], d, space, env) else dqs[d]
    decreases |to|
  {
    if to != [] {
      var k := dqs[d].kind - off;
      var t, ok := dqs, true;
      if from[0].Some? && to[0].Some? {
        var e := to[0].value;
        CheckedIs(dqs[e], e, space, env);
        t := dqs[e := Checked(dqs[e], e, space, env)];
        ok := RoomInodes(dqs[e], e, env) && RoomBytes(dqs[e], e, space, env);
        assert CheckMove(dqs, from, to, space, env) ==
          if ok then CheckMove(t, from[1..], to[1..], space, env) else (false, t);
      }
      KindedTail(dqs, t, to, off);
      if 0 < k <= |to| {
        ReachedMoveTail(dqs, t, from, to, space, env, k, off);
      }
      if ok {
        CheckMoveAt(t, from[1..], to[1..], space, env, off + 1, d);
      }
    }
  }

  /** Usage after `n` is taken off, as far as there is any. */
  function Less(a: nat, n: nat): nat { if n <= a then a - n else 0 }

  /** A transfer starts the clocks of a quota that receives the inode, as the checks come to it, and
      stops those of the quota it takes the inode off, if that goes below the soft limit. */
  lemma TransferTimes(s: Quota, op: Op, d: Id)
    requires WellFormed(s) && Legal(s, op) && op.Transfer? && d in s.dqs
    ensures d in Step(s, op).1.dqs
    ensures
      var q, q', ino := s.dqs[d], Step(s, op).1.dqs[d], s.inodes[op.i];
      var on := |ino.quotas| == |op.to| && Receives(s.dqs, ino.quotas, op.to, 0, d)
                && ReachedMove(s.dqs, ino.quotas, op.to, ino.bytes, op.env, q.kind);
      var c := if on then Checked(q, d, ino.bytes, op.env) else q;
      var off := Step(s, op).0 && Gives(ino, op.to, d);
      && q'.itime == (if off && Less(q.curinodes, 1) < q.isoft then 0 else c.itime)
      && q'.btime == (if off && ToQb(Less(q.curspace, ino.bytes)) < q.bsoft then 0 else c.btime)
  {
    var ino := s.inodes[op.i];
    var (ok, t) := CheckMove(s.dqs, ino.quotas, op.to, ino.bytes, op.env);
    CheckMoveAt(s.dqs, ino.quotas, op.to, ino.bytes, op.env, 0, d);
    CheckMoveSame(s.dqs, ino.quotas, op.to, ino.bytes, op.env, d);
    if ok {
      CheckMoveKinds(s.dqs, ino.quotas, op.to, ino.bytes, op.env);
      SlottedKeeps(s.dqs, t, ino.quotas);
      SlottedKeeps(s.dqs, t, op.to);
      MoveTimes(t, ino, op.to, d);
    }
  }

  lemma MoveTimes(t: Table, ino: Inode, to: seq<Option<Id>>, d: Id)
    requires Slotted(t, ino.quotas) && Slotted(t, to) && d in t
    ensures
      var q, q' := t[d], MoveAll(t, ino.quotas, to, ino.bytes)[d];
      && q'.itime == (if Gives(ino, to, d) && Less(q.curinodes, 1) < q.isoft then 0 else q.itime)
      && q'.btime == (if Gives(ino, to, d) && ToQb(Less(q.curspace, ino.bytes)) < q.bsoft then 0 else q.btime)
  {
    MoveAllAt(t, ino.quotas, to, ino.bytes, 0, d);
    GivesSlot(t, ino, to, d);
  }

  // ---------------------------------------------------------------- above a soft limit the clock runs

  predicate Armed(q: Dquot) {
    !q.fake ==>
      && (q.bsoft != 0 && ToQb(q.curspace) > q.bsoft ==> q.btime != 0)
      && (q.isoft != 0 && q.curinodes > q.isoft ==> q.itime != 0)
  }

  /** The clock has started, and no inode is handed to the quota it has already: dquot_transfer is
      only asked to change owners. */
  predicate Sensible(s: Quota, op: Op) {
    match op
    case Alloc(_, _, _, env) => env.now > 0
    case Free(_, _) => true
    case Transfer(i, to, env) =>
      env.now > 0 && i < |s.inodes| && forall k :: 0 <= k < |to| && k < |s.inodes[i].quotas| && to[k].Some? ==> to[k] != s.inodes[i].quotas[k]
  }

  lemma AllocArmed(s: Quota, op: Op, d: Id)
    requires WellFormed(s) && Legal(s, op) && op.Alloc? && d in s.dqs && Armed(s.dqs[d]) && Sensible(s, op)
    ensures d in Step(s, op).1.dqs && Armed(Step(s, op).1.dqs[d])
  {
    var ino := s.inodes[op.i];
    var (ok, t) := CheckAll(s.dqs, ino.quotas, op.n, op.prealloc, op.env);
    SlotShare(s.dqs, ino, d);
    AllocTimes(s, op, d);
    AllocVerdict(s, op);
    CheckAllSame(s.dqs, ino.quotas, op.n, op.prealloc, op.env, d);
    if ok {
      CheckAllKinds(s.dqs, ino.quotas, op.n, op.prealloc, op.env);
      SlottedKeeps(s.dqs, t, ino.quotas);
      AddAllAt(t, ino.quotas, op.n, 0, d);
      if Some(d) in ino.quotas {
        var k := s.dqs[d].kind;
        assert ino.quotas[k] == Some(d);
        assert Takes(s.dqs[d], d, op.n, op.prealloc, op.env);
        AffordsPrefix(s.dqs, ino.quotas, op.n, op.prealloc, op.env, k);
      }
    }
  }

  lemma AffordsPrefix(dqs: Table, qs: seq<Option<Id>>, n: nat, prealloc: bool, env: Env, m: nat)
    requires Known(dqs, qs) && Affords(dqs, qs, n, prealloc, env) && m <= |qs|
    ensures Reached(dqs, qs, n, prealloc, env, m)
  {
    assert forall k :: 0 <= k < m ==> qs[..m][k] == qs[k];
  }

  lemma FreeArmed(s: Quota, op: Op, d: Id)
    requires WellFormed(s) && Legal(s, op) && op.Free? && d in s.dqs && Armed(s.dqs[d])
    ensures d in Step(s, op).1.dqs && Armed(Step(s, op).1.dqs[d])
  {
    SubAllAt(s.dqs, s.inodes[op.i].quotas, op.n, 0, d);
    ToQbMonotone(Step(s, op).1.dqs[d].curspace, s.dqs[d].curspace);
  }

  /** The usage of one quota after the moves of a transfer that does not hand it its own inode. */
  lemma MoveUse(t: Table, ino: Inode, to: seq<Option<Id>>, d: Id)
    requires Slotted(t, ino.quotas) && Slotted(t, to) && d in t
    requires !(Gives(ino, to, d) && Receives(t, ino.quotas, to, 0, d))
    ensures
      var q, q' := t[d], MoveAll(t, ino.quotas, to, ino.bytes)[d];
      && q' == q.(curspace := q'.curspace, curinodes := q'.curinodes, btime := q'.btime, itime := q'.itime)
      && if Gives(ino, to, d) then q'.curspace == Less(q.curspace, ino.bytes) && q'.curinodes == Less(q.curinodes, 1)
         else if Receives(t, ino.quotas, to, 0, d) then q'.curspace == q.curspace + ino.bytes && q'.curinodes == q.curinodes + 1
         else q'.curspace == q.curspace && q'.curinodes == q.curinodes
  {
    MoveAllAt(t, ino.quotas, to, ino.bytes, 0, d);
    GivesSlot(t, ino, to, d);
  }

  lemma ReceivedArmed(q: Dquot, q': Dquot, d: Id, space: nat, env: Env)
    requires Armed(q) && env.now > 0 && RoomInodes(q, d, env) && RoomBytes(q, d, space, env)
    requires q' == Checked(q, d, space, env).(curspace := q.curspace + space, curinodes := q.curinodes + 1)
    ensures Armed(q')
  {
  }

  lemma CheckedArmed(q: Dquot, d: Id, space: nat, env: Env)
    requires Armed(q) && env.now > 0
    ensures Armed(Checked(q, d, space, env))
  {
  }

  lemma GivenArmed(q: Dquot, q': Dquot, space: nat)
    requires Armed(q) && q' == q.(curspace := Less(q.curspace, space), curinodes := Less(q.curinodes, 1), btime := q'.btime, itime := q'.itime)
    requires q'.itime == (if q'.curinodes < q.isoft then 0 else q.itime)
    requires q'.btime == (if ToQb(q'.curspace) < q.bsoft then 0 else q.btime)
    ensures Armed(q')
  {
    ToQbMonotone(q'.curspace, q.curspace);
  }

  lemma NotBoth(s: Quota, op: Op, d: Id)
    requires WellFormed(s) && Legal(s, op) && op.Transfer? && d in s.dqs && Sensible(s, op)
    ensures |s.inodes[op.i].quotas| == |op.to| && !(Gives(s.inodes[op.i], op.to, d) && Receives(s.dqs, s.inodes[op.i].quotas, op.to, 0, d))
  {
    GivesSlot(s.dqs, s.inodes[op.i], op.to, d);
  }

  lemma WelcomePrefix(dqs: Table, from: seq<Option<Id>>, to: seq<Option<Id>>, space: nat, env: Env, m: nat)
    requires |from| == |to| && Known(dqs, to) && Welcome(dqs, from, to, space, env) && m < |to|
    ensures ReachedMove(dqs, from, to, space, env, m)
    ensures from[m].Some? && to[m].Some? ==>
      RoomInodes(dqs[to[m].value], to[m].value, env) && RoomBytes(dqs[to[m].value], to[m].value, space, env)
  {
    assert forall k :: 0 <= k < m ==> to[..m][k] == to[k] && from[..m][k] == from[k];
  }

  lemma TransferArmed(s: Quota, op: Op, d: Id)
    requires WellFormed(s) && Legal(s, op) && op.Transfer? && d in s.dqs && Armed(s.dqs[d]) && Sensible(s, op)
    ensures d in Step(s, op).1.dqs && Armed(Step(s, op).1.dqs[d])
  {
    var ino := s.inodes[op.i];
    var q, qs := s.dqs[d], ino.quotas;
    var (ok, t) := CheckMove(s.dqs, qs, op.to, ino.bytes, op.env);
    CheckMoveAt(s.dqs, qs, op.to, ino.bytes, op.env, 0, d);
    CheckedArmed(q, d, ino.bytes, op.env);
    NotBoth(s, op, d);
    if ok {
      TransferVerdict(s, op);
      if Receives(s.dqs, qs, op.to, 0, d) {
        WelcomePrefix(s.dqs, qs, op.to, ino.bytes, op.env, q.kind);
      }
      CheckMoveKinds(s.dqs, qs, op.to, ino.bytes, op.env);
      SlottedKeeps(s.dqs, t, qs);
      SlottedKeeps(s.dqs, t, op.to);
      MovedArmed(t, q, ino, op.to, d, op.env);
    }
  }

  lemma MovedArmed(t: Table, q: Dquot, ino: Inode, to: seq<Option<Id>>, d: Id, env: Env)
    requires Slotted(t, ino.quotas) && Slotted(t, to) && d in t && Armed(q) && env.now > 0
    requires !(Gives(ino, to, d) && Receives(t, ino.quotas, to, 0, d))
    requires if Receives(t, ino.quotas, to, 0, d)
             then t[d] == Checked(q, d, ino.bytes, env) && RoomInodes(q, d, env) && RoomBytes(q, d, ino.bytes, env)
             else t[d] == q
    ensures Armed(MoveAll(t, ino.quotas, to, ino.bytes)[d])
  {
    var q' := MoveAll(t, ino.quotas, to, ino.bytes)[d];
    MoveUse(t, ino, to, d);
    MoveTimes(t, ino, to, d);
    if Gives(ino, to, d) {
      GivenArmed(q, q', ino.bytes);
    } else if Receives(t, ino.quotas, to, 0, d) {
      ReceivedArmed(q, q', d, ino.bytes, env);
    }
  }

  lemma StepArmed(s: Quota, op: Op, d: Id)
    requires WellFormed(s) && Legal(s, op) && d in s.dqs && Armed(s.dqs[d]) && Sensible(s, op)
    ensures d in Step(s, op).1.dqs && Armed(Step(s, op).1.dqs[d])
  {
    match op
    case Alloc(_, _, _, _) => AllocArmed(s, op, d);
    case Free(_, _) => FreeArmed(s, op, d);
    case Transfer(_, _, _) => TransferArmed(s, op, d);
  }

  ghost predicate SensibleRun(s: Quota, ops: seq<Op>)
    requires WellFormed(s) && LegalRun(s, ops)
    decreases |ops|
  {
    ops != [] ==> Sensible(s, ops[0]) && (StepWellFormed(s, ops[0]); SensibleRun(Step(s, ops[0]).1, ops[1..]))
  }

  /** Over every run of allocations, frees and changes of owner: a quota above a soft limit has its
      clock running, so that the limit binds once the grace time is over. */
  lemma {:induction false} RunArmed(s: Quota, ops: seq<Op>, d: Id)
    requires WellFormed(s) && LegalRun(s, ops) && SensibleRun(s, ops) && d in s.dqs && Armed(s.dqs[d])
    ensures d in Run(s, ops).dqs && Armed(Run(s, ops).dqs[d])
    decreases |ops|
  {
    if ops != [] {
      StepWellFormed(s, ops[0]);
      StepArmed(s, ops[0], d);
      RunArmed(Step(s, ops[0]).1, ops[1..], d);
    }
  }

  /** A quota at twice its soft limit, all of it one inode's, with its clock running until 5. */
  function Above(): Quota {
    Quota(map[0 := Dquot(0, 2048, 1, 0, 1, 0, 0, 5, 0, false)], [Inode([Some(0), None], 2048)])
  }

  function SelfMove(): Op { Transfer(0, [Some(0), None], Env(1, k => 0, k => 0, d => false)) }

  /** Handing the inode to the quota it has stops the clock and leaves the quota as high as it was. */
  lemma SelfMoveDisarms()
    ensures WellFormed(Above()) && Legal(Above(), SelfMove()) && !Sensible(Above(), SelfMove())
    ensures Armed(Above().dqs[0]) && 0 in Step(Above(), SelfMove()).1.dqs && !Armed(Step(Above(), SelfMove()).1.dqs[0])
  {
    var s, op := Above(), SelfMove();
    var ino := s.inodes[0];
    assert Slotted(s.dqs, ino.quotas) && ino.quotas[0] == Some(0) == op.to[0];
    assert Gives(ino, op.to, 0);
    SelfMoveDone(s, op, ino);
  }

  lemma SelfMoveDone(s: Quota, op: Op, ino: Inode)
    requires s == Above() && op == SelfMove() && ino == s.inodes[0] && WellFormed(s) && Legal(s, op) && Gives(ino, op.to, 0)
    ensures 0 in Step(s, op).1.dqs && Step(s, op).1.dqs[0].btime == 0
    ensures var q := Step(s, op).1.dqs[0]; q.curspace >= 2048 && q.bsoft == 1 && !q.fake
  {
    assert Welcome(s.dqs, ino.quotas, op.to, ino.bytes, op.env);
    TransferVerdict(s, op);
    TransferTimes(s, op, 0);
    SelfMoveUse(s, op, 0);
  }

  lemma SelfMoveUse(s: Quota, op: Op, d: Id)
    requires WellFormed(s) && Legal(s, op) && op.Transfer? && d in s.dqs && Step(s, op).0
    requires var ino := s.inodes[op.i]; s.dqs[d].kind < MAXQUOTAS && ino.quotas[s.dqs[d].kind] == op.to[s.dqs[d].kind] == Some(d)
    ensures d in Step(s, op).1.dqs
    ensures
      var q, q' := s.dqs[d], Step(s, op).1.dqs[d];
      q'.curspace >= s.inodes[op.i].bytes && q'.bsoft == q.bsoft && q'.fake == q.fake
  {
    var ino := s.inodes[op.i];
    var t := CheckMove(s.dqs, ino.quotas, op.to, ino.bytes, op.env).1;
    CheckMoveSame(s.dqs, ino.quotas, op.to, ino.bytes, op.env, d);
    CheckMoveKinds(s.dqs, ino.quotas, op.to, ino.bytes, op.env);
    SlottedKeeps(s.dqs, t, ino.quotas);
    SlottedKeeps(s.dqs, t, op.to);
    MoveAllAt(t, ino.quotas, op.to, ino.bytes, 0, d);
  }
}
