/** Disk quota accounting: what an inode uses is charged to its user and its group quota. */
module DquotSpace {
  import opened Options

  const MAXQUOTAS: nat := 2

  type Id = nat

  datatype Dquot = Dquot(kind: nat, curspace: nat, curinodes: nat, bhard: nat, bsoft: nat, ihard: nat, isoft: nat,
                         btime: nat, itime: nat, fake: bool)

  /** An inode: one quota per kind, and the bytes it occupies. */
  datatype Inode = Inode(quotas: seq<Option<Id>>, bytes: nat)

  /** The clock, the grace times per kind, and which quotas the caller may exceed. */
  datatype Env = Env(now: nat, igrace: nat -> nat, bgrace: nat -> nat, ignore: Id -> bool)

  type Table = map<Id, Dquot>

  /** Quota blocks of 1 kB, rounded up. */
  function ToQb(space: nat): nat { (space + 1023) / 1024 }

  /** `ToQb` is the least number of blocks that holds the bytes, so comparing it with a limit is
      comparing the bytes with the limit's bytes. */
  lemma ToQbLeast(space: nat, limit: nat)
    ensures ToQb(space) <= limit <==> space <= 1024 * limit
  {
    var q, r := (space + 1023) / 1024, (space + 1023) % 1024;
    assert space + 1023 == 1024 * q + r;
  }

  // ---------------------------------------------------------------- limit checks

  /** check_idq: may `n` inodes be added?  The soft limit may start its grace time. */
  function CheckInodes(q: Dquot, d: Id, n: nat, env: Env): (bool, Dquot) {
    if n == 0 || q.fake then (true, q) else
    if q.ihard != 0 && q.curinodes + n > q.ihard && !env.ignore(d) then (false, q) else
    if q.isoft != 0 && q.curinodes + n > q.isoft && q.itime != 0 && env.now >= q.itime && !env.ignore(d) then (false, q) else
    if q.isoft != 0 && q.curinodes + n > q.isoft && q.itime == 0 then (true, q.(itime := env.now + env.igrace(q.kind))) else
    (true, q)
  }

  /** check_bdq: may `n` bytes be added? */
  function CheckBytes(q: Dquot, d: Id, n: nat, prealloc: bool, env: Env): (bool, Dquot) {
    if n == 0 || q.fake then (true, q) else
    if q.bhard != 0 && ToQb(q.curspace + n) > q.bhard && !env.ignore(d) then (false, q) else
    if q.bsoft != 0 && ToQb(q.curspace + n) > q.bsoft && q.btime != 0 && env.now >= q.btime && !env.ignore(d) then (false, q) else
    if q.bsoft != 0 && ToQb(q.curspace + n) > q.bsoft && q.btime == 0 then
      if !prealloc then (true, q.(btime := env.now + env.bgrace(q.kind))) else (false, q)
    else (true, q)
  }

  /** Only the grace times differ. */
  predicate SameUsage(q: Dquot, r: Dquot) {
    q.(btime := 0, itime := 0) == r.(btime := 0, itime := 0)
  }

  // ---------------------------------------------------------------- usage

  function Incr(q: Dquot, inodes: nat, space: nat): Dquot {
    q.(curinodes := q.curinodes + inodes, curspace := q.curspace + space)
  }

  /** dquot_decr_inodes: usage stops at 0, and dropping below the soft limit ends the grace time. */
  function DecrInodes(q: Dquot, n: nat): Dquot {
    var c := if q.curinodes > n then q.curinodes - n else 0;
    q.(curinodes := c, itime := if c < q.isoft then 0 else q.itime)
  }

  /** dquot_decr_space */
  function DecrSpace(q: Dquot, n: nat): Dquot {
    var c := if q.curspace > n then q.curspace - n else 0;
    q.(curspace := c, btime := if ToQb(c) < q.bsoft then 0 else q.btime)
  }

  /** The saturating decrement is exact precisely when no more is freed than was charged. */
  lemma DecrExact(q: Dquot, n: nat)
    ensures DecrSpace(q, n).curspace == q.curspace - n <==> n <= q.curspace
    ensures DecrInodes(q, n).curinodes == q.curinodes - n <==> n <= q.curinodes
  {
  }

  // ---------------------------------------------------------------- the operations on tables

  predicate Known(dqs: Table, qs: seq<Option<Id>>) {
    forall k :: 0 <= k < |qs| && qs[k].Some? ==> qs[k].value in dqs
  }

  /** The checking loop of dquot_alloc_space; it stops at the first quota that refuses. */
  function CheckAll(dqs: Table, qs: seq<Option<Id>>, n: nat, prealloc: bool, env: Env): (r: (bool, Table))
    requires Known(dqs, qs)
    ensures r.1.Keys == dqs.Keys
    decreases |qs|
  {
    if qs == [] then (true, dqs) else
    if qs[0].None? then CheckAll(dqs, qs[1..], n, prealloc, env) else
    var (ok, q) := CheckBytes(dqs[qs[0].value], qs[0].value, n, prealloc, env);
    var t: Table := dqs[qs[0].value := q];
    if !ok then (false, t) else CheckAll(t, qs[1..], n, prealloc, env)
  }

  function AddAll(dqs: Table, qs: seq<Option<Id>>, n: nat): (r: Table)
    requires Known(dqs, qs)
    ensures r.Keys == dqs.Keys
    decreases |qs|
  {
    if qs == [] then dqs else
    if qs[0].None? then AddAll(dqs, qs[1..], n) else
    var t: Table := dqs[qs[0].value := Incr(dqs[qs[0].value], 0, n)];
    AddAll(t, qs[1..], n)
  }

  function SubAll(dqs: Table, qs: seq<Option<Id>>, n: nat): (r: Table)
    requires Known(dqs, qs)
    ensures r.Keys == dqs.Keys
    decreases |qs|
  {
    if qs == [] then dqs else
    if qs[0].None? then SubAll(dqs, qs[1..], n) else
    var t: Table := dqs[qs[0].value := DecrSpace(dqs[qs[0].value], n)];
    SubAll(t, qs[1..], n)
  }

  /** The checking loop of dquot_transfer. */
  function CheckMove(dqs: Table, from: seq<Option<Id>>, to: seq<Option<Id>>, space: nat, env: Env): (r: (bool, Table))
    requires |from| == |to| && Known(dqs, to)
    ensures r.1.Keys == dqs.Keys
    decreases |to|
  {
    if to == [] then (true, dqs) else
    if to[0].None? || from[0].None? then CheckMove(dqs, from[1..], to[1..], space, env) else
    var d := to[0].value;
    var (ok, q) := CheckInodes(dqs[d], d, 1, env);
    if !ok then (false, dqs[d := q]) else
    var (ok', q') := CheckBytes(q, d, space, false, env);
    var t: Table := dqs[d := q'];
    if !ok' then (false, t) else CheckMove(t, from[1..], to[1..], space, env)
  }

  /** One kind of the transfer loop: off the old quota, onto the new one. */
  function MoveOne(dqs: Table, a: Id, b: Id, space: nat): (r: Table)
    requires a in dqs && b in dqs
    ensures r.Keys == dqs.Keys
  {
    var t: Table := dqs[a := DecrSpace(DecrInodes(dqs[a], 1), space)];
    t[b := Incr(t[b], 1, space)]
  }

  function MoveAll(dqs: Table, from: seq<Option<Id>>, to: seq<Option<Id>>, space: nat): (r: Table)
    requires |from| == |to| && Known(dqs, to) && Known(dqs, from)
    ensures r.Keys == dqs.Keys
    decreases |to|
  {
    if to == [] then dqs else
    if to[0].None? || from[0].None? then MoveAll(dqs, from[1..], to[1..], space) else
    MoveAll(MoveOne(dqs, from[0].value, to[0].value, space), from[1..], to[1..], space)
  }

  /** The quotas of an inode after a transfer. */
  function Moved(from: seq<Option<Id>>, to: seq<Option<Id>>): (r: seq<Option<Id>>)
    requires |from| == |to|
    ensures |r| == |from|
    ensures forall k :: 0 <= k < |r| ==> r[k] == if from[k].Some? && to[k].Some? then to[k] else from[k]
  {
    seq(|from|, k requires 0 <= k < |from| => if from[k].Some? && to[k].Some? then to[k] else from[k])
  }

  // ---------------------------------------------------------------- states and steps

  datatype Quota = Quota(dqs: Table, inodes: seq<Inode>)

  datatype Op =
    | Alloc(i: nat, n: nat, prealloc: bool, env: Env)
    | Free(i: nat, n: nat)
    | Transfer(i: nat, to: seq<Option<Id>>, env: Env)

  /** Quotas stand in the slot of their kind. */
  predicate Slotted(dqs: Table, qs: seq<Option<Id>>) {
    |qs| == MAXQUOTAS && forall k :: 0 <= k < |qs| && qs[k].Some? ==> qs[k].value in dqs && dqs[qs[k].value].kind == k
  }

  ghost predicate WellFormed(s: Quota) {
    forall i {:trigger s.inodes[i]} :: 0 <= i < |s.inodes| ==> Slotted(s.dqs, s.inodes[i].quotas)
  }

  /** What the callers promise: an inode that exists, freeing no more than it has, quotas of the right kind. */
  ghost predicate Legal(s: Quota, op: Op) {
    && op.i < |s.inodes|
    && (op.Free? ==> op.n <= s.inodes[op.i].bytes)
    && (op.Transfer? ==> Slotted(s.dqs, op.to))
  }

  /** dquot_alloc_space, dquot_free_space and dquot_transfer as atomic steps, with their verdict. */
  ghost function Step(s: Quota, op: Op): (bool, Quota)
    requires WellFormed(s) && Legal(s, op)
  {
    var ino := s.inodes[op.i];
    assert Slotted(s.dqs, ino.quotas);
    match op
    case Alloc(i, n, prealloc, env) =>
      var (ok, t) := CheckAll(s.dqs, ino.quotas, n, prealloc, env);
      if !ok then (false, s.(dqs := t)) else
      (true, Quota(AddAll(t, ino.quotas, n), s.inodes[i := ino.(bytes := ino.bytes + n)]))
    case Free(i, n) =>
      (true, Quota(SubAll(s.dqs, ino.quotas, n), s.inodes[i := ino.(bytes := ino.bytes - n)]))
    case Transfer(i, to, env) =>
      var (ok, t) := CheckMove(s.dqs, ino.quotas, to, ino.bytes, env);
      if !ok then (false, s.(dqs := t)) else
      (true, Quota(MoveAll(t, ino.quotas, to, ino.bytes), s.inodes[i := ino.(quotas := Moved(ino.quotas, to))]))
  }

  // ---------------------------------------------------------------- what each loop does to one quota

  ghost predicate Kinded(dqs: Table, qs: seq<Option<Id>>, off: nat) {
    forall k :: 0 <= k < |qs| && qs[k].Some? ==> qs[k].value in dqs && dqs[qs[k].value].kind == off + k
  }

  /** The slot of `d`, if the list charges it. */
  ghost predicate Charges(dqs: Table, qs: seq<Option<Id>>, off: nat, d: Id)
    requires d in dqs
  {
    off <= dqs[d].kind < off + |qs| && qs[dqs[d].kind - off] == Some(d)
  }

  lemma KindedTail(dqs: Table, t: Table, qs: seq<Option<Id>>, off: nat)
    requires Kinded(dqs, qs, off) && qs != [] && t.Keys == dqs.Keys
    requires forall d :: d in dqs ==> t[d].kind == dqs[d].kind
    ensures Kinded(t, qs[1..], off + 1)
  {
    forall k | 0 <= k < |qs| - 1 && qs[1..][k].Some? ensures qs[1..][k].value in t && t[qs[1..][k].value].kind == off + 1 + k {
      assert qs[1..][k] == qs[k + 1];
    }
  }

  lemma {:induction false} AddAllAt(dqs: Table, qs: seq<Option<Id>>, n: nat, off: nat, d: Id)
    requires Known(dqs, qs) && Kinded(dqs, qs, off) && d in dqs
    ensures AddAll(dqs, qs, n)[d] == if Charges(dqs, qs, off, d) then Incr(dqs[d], 0, n) else dqs[d]
    decreases |qs|
  {
    if qs != [] {
      var t: Table := if qs[0].None? then dqs else dqs[qs[0].value := Incr(dqs[qs[0].value], 0, n)];
      KindedTail(dqs, t, qs, off);
      AddAllAt(t, qs[1..], n, off + 1, d);
    }
  }

  lemma {:induction false} SubAllAt(dqs: Table, qs: seq<Option<Id>>, n: nat, off: nat, d: Id)
    requires Known(dqs, qs) && Kinded(dqs, qs, off) && d in dqs
    ensures SubAll(dqs, qs, n)[d] == if Charges(dqs, qs, off, d) then DecrSpace(dqs[d], n) else dqs[d]
    decreases |qs|
  {
    if qs != [] {
      var t: Table := if qs[0].None? then dqs else dqs[qs[0].value := DecrSpace(dqs[qs[0].value], n)];
      KindedTail(dqs, t, qs, off);
      SubAllAt(t, qs[1..], n, off + 1, d);
    }
  }

  lemma CheckBytesSame(q: Dquot, d: Id, n: nat, prealloc: bool, env: Env)
    ensures SameUsage(CheckBytes(q, d, n, prealloc, env).1, q)
  {
  }

  /** Checking changes no usage counter, whatever the verdict. */
  lemma {:induction false} CheckAllSame(dqs: Table, qs: seq<Option<Id>>, n: nat, prealloc: bool, env: Env, d: Id)
    requires Known(dqs, qs) && d in dqs
    ensures SameUsage(CheckAll(dqs, qs, n, prealloc, env).1[d], dqs[d])
    decreases |qs|
  {
    if qs != [] {
      if qs[0].None? {
        CheckAllSame(dqs, qs[1..], n, prealloc, env, d);
      } else {
        var (ok, q) := CheckBytes(dqs[qs[0].value], qs[0].value, n, prealloc, env);
        CheckBytesSame(dqs[qs[0].value], qs[0].value, n, prealloc, env);
        var t: Table := dqs[qs[0].value := q];
        if ok {
          CheckAllSame(t, qs[1..], n, prealloc, env, d);
        }
      }
    }
  }

  /** The hard limit leaves room for `n` more bytes, unless the caller may ignore it. */
  predicate BytesFit(q: Dquot, d: Id, n: nat, env: Env) {
    n == 0 || q.fake || env.ignore(d) || q.bhard == 0 || ToQb(q.curspace + n) <= q.bhard
  }

  predicate InodesFit(q: Dquot, d: Id, n: nat, env: Env) {
    n == 0 || q.fake || env.ignore(d) || q.ihard == 0 || q.curinodes + n <= q.ihard
  }

  lemma {:induction false} CheckAllFits(dqs: Table, qs: seq<Option<Id>>, n: nat, prealloc: bool, env: Env, off: nat, d: Id)
    requires Known(dqs, qs) && Kinded(dqs, qs, off) && d in dqs && Charges(dqs, qs, off, d)
    requires CheckAll(dqs, qs, n, prealloc, env).0
    ensures BytesFit(dqs[d], d, n, env)
    decreases |qs|
  {
    if qs[0].None? {
      KindedTail(dqs, dqs, qs, off);
      CheckAllFits(dqs, qs[1..], n, prealloc, env, off + 1, d);
    } else if qs[0].value != d {
      var (ok, q) := CheckBytes(dqs[qs[0].value], qs[0].value, n, prealloc, env);
      CheckBytesSame(dqs[qs[0].value], qs[0].value, n, prealloc, env);
      var t: Table := dqs[qs[0].value := q];
      KindedTail(dqs, t, qs, off);
      CheckAllFits(t, qs[1..], n, prealloc, env, off + 1, d);
    }
  }

  lemma CheckInodesSame(q: Dquot, d: Id, n: nat, env: Env)
    ensures SameUsage(CheckInodes(q, d, n, env).1, q)
  {
  }

  lemma {:induction false} CheckMoveSame(dqs: Table, from: seq<Option<Id>>, to: seq<Option<Id>>, space: nat, env: Env, d: Id)
    requires |from| == |to| && Known(dqs, to) && d in dqs
    ensures SameUsage(CheckMove(dqs, from, to, space, env).1[d], dqs[d])
    decreases |to|
  {
    if to != [] {
      if to[0].None? || from[0].None? {
        CheckMoveSame(dqs, from[1..], to[1..], space, env, d);
      } else {
        var b := to[0].value;
        var (ok, q) := CheckInodes(dqs[b], b, 1, env);
        CheckInodesSame(dqs[b], b, 1, env);
        var (ok', q') := CheckBytes(q, b, space, false, env);
        CheckBytesSame(q, b, space, false, env);
        var t: Table := dqs[b := q'];
        if ok && ok' {
          CheckMoveSame(t, from[1..], to[1..], space, env, d);
        }
      }
    }
  }

  /** Is `d` the target of an actual move? */
  ghost predicate Receives(dqs: Table, from: seq<Option<Id>>, to: seq<Option<Id>>, off: nat, d: Id)
    requires d in dqs && |from| == |to|
  {
    Charges(dqs, to, off, d) && from[dqs[d].kind - off].Some?
  }

  lemma {:induction false} CheckMoveFits(dqs: Table, from: seq<Option<Id>>, to: seq<Option<Id>>, space: nat, env: Env, off: nat, d: Id)
    requires |from| == |to| && Known(dqs, to) && Kinded(dqs, to, off) && d in dqs && Receives(dqs, from, to, off, d)
    requires CheckMove(dqs, from, to, space, env).0
    ensures InodesFit(dqs[d], d, 1, env) && BytesFit(dqs[d], d, space, env)
    decreases |to|
  {
    if to[0].None? || from[0].None? {
      KindedTail(dqs, dqs, to, off);
      CheckMoveFits(dqs, from[1..], to[1..], space, env, off + 1, d);
    } else {
      var b := to[0].value;
      var (ok, q) := CheckInodes(dqs[b], b, 1, env);
      CheckInodesSame(dqs[b], b, 1, env);
      var (ok', q') := CheckBytes(q, b, space, false, env);
      CheckBytesSame(q, b, space, false, env);
      if b != d {
        var t: Table := dqs[b := q'];
        KindedTail(dqs, t, to, off);
        CheckMoveFits(t, from[1..], to[1..], space, env, off + 1, d);
      }
    }
  }

  /** The slot of a kind, if both sides have one. */
  predicate Moves(from: seq<Option<Id>>, to: seq<Option<Id>>, k: int)
    requires |from| == |to|
  {
    0 <= k < |to| && from[k].Some? && to[k].Some?
  }

  lemma MovesTail(from: seq<Option<Id>>, to: seq<Option<Id>>, k: int)
    requires |from| == |to| > 0
    ensures Moves(from[1..], to[1..], k - 1) <==> k != 0 && Moves(from, to, k)
    ensures 1 <= k < |to| ==> from[1..][k - 1] == from[k] && to[1..][k - 1] == to[k]
  {
  }

  /** The transfer touches a quota only through the slot of its kind. */
  lemma {:induction false} MoveAllAt(dqs: Table, from: seq<Option<Id>>, to: seq<Option<Id>>, space: nat, off: nat, d: Id)
    requires |from| == |to| && Known(dqs, to) && Known(dqs, from) && d in dqs
    requires Kinded(dqs, from, off) && Kinded(dqs, to, off)
    ensures
      var k := dqs[d].kind - off;
      MoveAll(dqs, from, to, space)[d] ==
        if Moves(from, to, k) then MoveOne(dqs, from[k].value, to[k].value, space)[d] else dqs[d]
    decreases |to|
  {
    if to != [] {
      var k := dqs[d].kind - off;
      var t: Table := if to[0].None? || from[0].None? then dqs else MoveOne(dqs, from[0].value, to[0].value, space);
      KindedTail(dqs, t, from, off);
      KindedTail(dqs, t, to, off);
      MovesTail(from, to, k);
      MoveAllAt(t, from[1..], to[1..], space, off + 1, d);
      if k != 0 && Moves(from, to, k) {
        MoveOneLocal(dqs, t, from[k].value, to[k].value, space, d);
      }
    }
  }

  lemma MoveOneLocal(dqs: Table, t: Table, a: Id, b: Id, space: nat, d: Id)
    requires a in dqs && b in dqs && d in dqs && t.Keys == dqs.Keys && t[a] == dqs[a] && t[b] == dqs[b] && t[d] == dqs[d]
    ensures MoveOne(t, a, b, space)[d] == MoveOne(dqs, a, b, space)[d]
  {
  }

  // ---------------------------------------------------------------- conservation

  function Share(ino: Inode, d: Id): nat { if Some(d) in ino.quotas then ino.bytes else 0 }

  function Holds(ino: Inode, d: Id): nat { if Some(d) in ino.quotas then 1 else 0 }

  /** The bytes of the inodes attached to a quota. */
  function Attached(inodes: seq<Inode>, d: Id): nat {
    if inodes == [] then 0 else Share(inodes[0], d) + Attached(inodes[1..], d)
  }

  /** The number of inodes attached to a quota. */
  function Holders(inodes: seq<Inode>, d: Id): nat {
    if inodes == [] then 0 else Holds(inodes[0], d) + Holders(inodes[1..], d)
  }

  lemma {:induction false} AttachedUpdate(inodes: seq<Inode>, i: nat, x: Inode, d: Id)
    requires i < |inodes|
    ensures Attached(inodes[i := x], d) == Attached(inodes, d) - Share(inodes[i], d) + Share(x, d)
    ensures Holders(inodes[i := x], d) == Holders(inodes, d) - Holds(inodes[i], d) + Holds(x, d)
    ensures Share(inodes[i], d) <= Attached(inodes, d) && Holds(inodes[i], d) <= Holders(inodes, d)
    decreases i
  {
    var u := inodes[i := x];
    if i == 0 {
      assert u[1..] == inodes[1..];
    } else {
      assert u[1..] == inodes[1..][i - 1 := x];
      AttachedUpdate(inodes[1..], i - 1, x, d);
    }
  }

  /** Usage beyond the attached inodes. */
  function SpareSpace(s: Quota, d: Id): int
    requires d in s.dqs
  {
    s.dqs[d].curspace - Attached(s.inodes, d)
  }

  function SpareInodes(s: Quota, d: Id): int
    requires d in s.dqs
  {
    s.dqs[d].curinodes - Holders(s.inodes, d)
  }

  /** The quota takes one more inode: no limit is exceeded, a soft one not for too long, or limits do not count. */
  predicate RoomInodes(q: Dquot, d: Id, env: Env) {
    q.fake || env.ignore(d) ||
    ((q.ihard == 0 || q.curinodes < q.ihard) && (q.isoft == 0 || q.curinodes < q.isoft || q.itime == 0 || env.now < q.itime))
  }

  predicate RoomBytes(q: Dquot, d: Id, n: nat, env: Env) {
    n == 0 || q.fake || env.ignore(d) ||
    ((q.bhard == 0 || ToQb(q.curspace + n) <= q.bhard)
     && (q.bsoft == 0 || ToQb(q.curspace + n) <= q.bsoft || q.btime == 0 || env.now < q.btime))
  }

  /** Every quota that would receive the inode takes it and its bytes. */
  ghost predicate Welcome(dqs: Table, from: seq<Option<Id>>, to: seq<Option<Id>>, space: nat, env: Env)
    requires |from| == |to| && Known(dqs, to)
  {
    forall k {:trigger to[k]} :: 0 <= k < |to| && from[k].Some? && to[k].Some? ==>
      RoomInodes(dqs[to[k].value], to[k].value, env) && RoomBytes(dqs[to[k].value], to[k].value, space, env)
  }

  /** The checking loop lets a transfer through exactly if every receiving quota has room. */
  lemma {:induction false} CheckMoveExact(dqs: Table, from: seq<Option<Id>>, to: seq<Option<Id>>, space: nat, env: Env, off: nat)
    requires |from| == |to| && Kinded(dqs, to, off)
    ensures CheckMove(dqs, from, to, space, env).0 <==> Welcome(dqs, from, to, space, env)
    decreases |to|
  {
    if to != [] {
      var t := dqs;
      if from[0].Some? && to[0].Some? {
        var d := to[0].value;
        t := dqs[d := CheckBytes(CheckInodes(dqs[d], d, 1, env).1, d, space, false, env).1];
      }
      KindedTail(dqs, t, to, off);
      CheckMoveExact(t, from[1..], to[1..], space, env, off + 1);
      WelcomeTail(dqs, t, from, to, space, env, off);
    }
  }

  lemma WelcomeTail(dqs: Table, t: Table, from: seq<Option<Id>>, to: seq<Option<Id>>, space: nat, env: Env, off: nat)
    requires |from| == |to| && to != [] && Kinded(dqs, to, off) && Known(t, to[1..])
    requires t.Keys == dqs.Keys && forall d :: d in dqs && Some(d) != to[0] ==> t[d] == dqs[d]
    ensures Welcome(dqs, from, to, space, env) <==>
      && Welcome(t, from[1..], to[1..], space, env)
      && (from[0].Some? && to[0].Some? ==>
            RoomInodes(dqs[to[0].value], to[0].value, env) && RoomBytes(dqs[to[0].value], to[0].value, space, env))
  {
    forall k | 1 <= k < |to|
      ensures to[1..][k - 1] == to[k] && from[1..][k - 1] == from[k]
      ensures to[k].Some? ==> to[k].value in dqs && t[to[k].value] == dqs[to[k].value]
    {
      assert to[k] != to[0] || to[k].None?;
    }
    if Welcome(dqs, from, to, space, env) {
      forall k | 0 <= k < |to[1..]| && from[1..][k].Some? && to[1..][k].Some?
        ensures RoomInodes(t[to[1..][k].value], to[1..][k].value, env) && RoomBytes(t[to[1..][k].value], to[1..][k].value, space, env)
      {
        assert to[k + 1] == to[1..][k];
      }
    }
    if Welcome(t, from[1..], to[1..], space, env) {
      forall k | 1 <= k < |to| && from[k].Some? && to[k].Some?
        ensures RoomInodes(dqs[to[k].value], to[k].value, env) && RoomBytes(dqs[to[k].value], to[k].value, space, env)
      {
        assert to[1..][k - 1] == to[k];
      }
    }
  }

  /** A transfer is carried out exactly if every receiving quota has room. */
  lemma TransferVerdict(s: Quota, op: Op)
    requires WellFormed(s) && Legal(s, op) && op.Transfer?
    ensures Step(s, op).0 <==> Welcome(s.dqs, s.inodes[op.i].quotas, op.to, s.inodes[op.i].bytes, op.env)
  {
    CheckMoveExact(s.dqs, s.inodes[op.i].quotas, op.to, s.inodes[op.i].bytes, op.env, 0);
  }

  /** The quota would go over its soft limit. */
  predicate OverSoft(q: Dquot, n: nat) {
    n > 0 && !q.fake && q.bsoft != 0 && ToQb(q.curspace + n) > q.bsoft
  }

  /** The quota lets `n` more bytes be allocated; preallocation may not start a grace time. */
  predicate Takes(q: Dquot, d: Id, n: nat, prealloc: bool, env: Env) {
    RoomBytes(q, d, n, env) && !(prealloc && OverSoft(q, n) && q.btime == 0)
  }

  ghost predicate Affords(dqs: Table, qs: seq<Option<Id>>, n: nat, prealloc: bool, env: Env)
    requires Known(dqs, qs)
  {
    forall k {:trigger qs[k]} :: 0 <= k < |qs| && qs[k].Some? ==> Takes(dqs[qs[k].value], qs[k].value, n, prealloc, env)
  }

  lemma CheckBytesExact(q: Dquot, d: Id, n: nat, prealloc: bool, env: Env)
    ensures CheckBytes(q, d, n, prealloc, env).0 <==> Takes(q, d, n, prealloc, env)
  {
  }

  /** The checking loop lets an allocation through exactly if every quota of the inode takes it. */
  lemma {:induction false} CheckAllExact(dqs: Table, qs: seq<Option<Id>>, n: nat, prealloc: bool, env: Env, off: nat)
    requires Kinded(dqs, qs, off)
    ensures CheckAll(dqs, qs, n, prealloc, env).0 <==> Affords(dqs, qs, n, prealloc, env)
    decreases |qs|
  {
    if qs != [] {
      var t := dqs;
      if qs[0].Some? {
        var d := qs[0].value;
        CheckBytesExact(dqs[d], d, n, prealloc, env);
        t := dqs[d := CheckBytes(dqs[d], d, n, prealloc, env).1];
      }
      KindedTail(dqs, t, qs, off);
      CheckAllExact(t, qs[1..], n, prealloc, env, off + 1);
      AffordsTail(dqs, t, qs, n, prealloc, env, off);
    }
  }

  lemma AffordsTail(dqs: Table, t: Table, qs: seq<Option<Id>>, n: nat, prealloc: bool, env: Env, off: nat)
    requires qs != [] && Kinded(dqs, qs, off) && Known(t, qs[1..])
    requires t.Keys == dqs.Keys && forall d :: d in dqs && Some(d) != qs[0] ==> t[d] == dqs[d]
    ensures Affords(dqs, qs, n, prealloc, env) <==>
      && Affords(t, qs[1..], n, prealloc, env)
      && (qs[0].Some? ==> Takes(dqs[qs[0].value], qs[0].value, n, prealloc, env))
  {
    forall k | 1 <= k < |qs| && qs[k].Some?
      ensures qs[1..][k - 1] == qs[k] && qs[k].value in dqs && t[qs[k].value] == dqs[qs[k].value]
    {
      assert qs[k] != qs[0];
    }
    if Affords(dqs, qs, n, prealloc, env) {
      forall k | 0 <= k < |qs[1..]| && qs[1..][k].Some? ensures Takes(t[qs[1..][k].value], qs[1..][k].value, n, prealloc, env) {
        assert qs[k + 1] == qs[1..][k];
      }
    }
    if Affords(t, qs[1..], n, prealloc, env) {
      forall k | 1 <= k < |qs| && qs[k].Some? ensures Takes(dqs[qs[k].value], qs[k].value, n, prealloc, env) {
        assert qs[1..][k - 1] == qs[k];
      }
    }
  }

  /** An allocation is carried out exactly if every quota of the inode takes it. */
  lemma AllocVerdict(s: Quota, op: Op)
    requires WellFormed(s) && Legal(s, op) && op.Alloc?
    ensures Step(s, op).0 <==> Affords(s.dqs, s.inodes[op.i].quotas, op.n, op.prealloc, op.env)
  {
    CheckAllExact(s.dqs, s.inodes[op.i].quotas, op.n, op.prealloc, op.env, 0);
  }

  /** The quota was charged for the bytes that the operation takes off it. */
  ghost predicate PaysSpace(s: Quota, op: Op, d: Id)
    requires WellFormed(s) && Legal(s, op) && d in s.dqs
  {
    var ino := s.inodes[op.i];
    match op
    case Alloc(_, _, _, _) => true
    case Free(_, n) => Some(d) in ino.quotas ==> n <= s.dqs[d].curspace
    case Transfer(_, to, _) => Gives(ino, to, d) && Welcome(s.dqs, ino.quotas, to, ino.bytes, op.env) ==> ino.bytes <= s.dqs[d].curspace
  }

  /** The same for the inode itself. */
  ghost predicate PaysInodes(s: Quota, op: Op, d: Id)
    requires WellFormed(s) && Legal(s, op) && d in s.dqs
  {
    var ino := s.inodes[op.i];
    op.Transfer? && Gives(ino, op.to, d) && Welcome(s.dqs, ino.quotas, op.to, ino.bytes, op.env) ==> 1 <= s.dqs[d].curinodes
  }

  lemma SlotShare(dqs: Table, ino: Inode, d: Id)
    requires Slotted(dqs, ino.quotas) && d in dqs
    ensures Some(d) in ino.quotas <==> Charges(dqs, ino.quotas, 0, d)
  {
  }

  lemma AllocConserves(s: Quota, op: Op, d: Id)
    requires WellFormed(s) && Legal(s, op) && op.Alloc? && d in s.dqs
    ensures d in Step(s, op).1.dqs
    ensures SpareSpace(Step(s, op).1, d) == SpareSpace(s, d) && SpareInodes(Step(s, op).1, d) == SpareInodes(s, d)
  {
    var ino := s.inodes[op.i];
    var (ok, t) := CheckAll(s.dqs, ino.quotas, op.n, op.prealloc, op.env);
    CheckAllSame(s.dqs, ino.quotas, op.n, op.prealloc, op.env, d);
    if ok {
      CheckAllKinds(s.dqs, ino.quotas, op.n, op.prealloc, op.env);
      SlottedKeeps(s.dqs, t, ino.quotas);
      AddAllAt(t, ino.quotas, op.n, 0, d);
      SlotShare(t, ino, d);
      AttachedUpdate(s.inodes, op.i, ino.(bytes := ino.bytes + op.n), d);
    }
  }

  /** A free is accounted for exactly when the quota was charged for what is freed. */
  lemma FreeExact(s: Quota, op: Op, d: Id)
    requires WellFormed(s) && Legal(s, op) && op.Free? && d in s.dqs
    ensures d in Step(s, op).1.dqs
    ensures SpareSpace(s, d) <= SpareSpace(Step(s, op).1, d) && SpareInodes(Step(s, op).1, d) == SpareInodes(s, d)
    ensures SpareSpace(Step(s, op).1, d) == SpareSpace(s, d) <==> PaysSpace(s, op, d)
  {
    var ino := s.inodes[op.i];
    SubAllAt(s.dqs, ino.quotas, op.n, 0, d);
    SlotShare(s.dqs, ino, d);
    AttachedUpdate(s.inodes, op.i, ino.(bytes := ino.bytes - op.n), d);
    DecrExact(s.dqs[d], op.n);
  }

  /** What one slot of a transfer does to the usage of `d`; saturation can only leave it too high. */
  lemma MoveOneUsage(t: Table, a: Id, b: Id, space: nat, d: Id)
    requires a in t && b in t && d in t
    ensures
      var r := MoveOne(t, a, b, space)[d];
      var c := t[d].curspace - (if d == a then space else 0) + (if d == b then space else 0);
      c <= r.curspace <= t[d].curspace + space && (r.curspace == c <==> (d == a ==> space <= t[d].curspace))
    ensures
      var r := MoveOne(t, a, b, space)[d];
      var c := t[d].curinodes - (if d == a then 1 else 0) + (if d == b then 1 else 0);
      c <= r.curinodes <= t[d].curinodes + 1 && (r.curinodes == c <==> (d == a ==> 1 <= t[d].curinodes))
  {
    DecrExact(t[a], space);
  }

  /** Does a transfer take the inode off `d`? */
  predicate Gives(ino: Inode, to: seq<Option<Id>>, d: Id) {
    exists k :: 0 <= k < |ino.quotas| && k < |to| && ino.quotas[k] == Some(d) && to[k].Some?
  }

  /** The usage of `d` with its share of the inode having changed hands. */
  function Due(q: Dquot, ino: Inode, ino': Inode, d: Id): int { q.curspace - Share(ino, d) + Share(ino', d) }

  function DueInodes(q: Dquot, ino: Inode, ino': Inode, d: Id): int { q.curinodes - Holds(ino, d) + Holds(ino', d) }

  /** The whole transfer, seen from one quota. */
  lemma MoveUsage(t: Table, ino: Inode, to: seq<Option<Id>>, ino': Inode, d: Id)
    requires Slotted(t, ino.quotas) && Slotted(t, to) && d in t && ino' == ino.(quotas := Moved(ino.quotas, to))
    ensures
      var r := MoveAll(t, ino.quotas, to, ino.bytes)[d];
      && Due(t[d], ino, ino', d) <= r.curspace <= t[d].curspace + ino.bytes
      && (r.curspace == Due(t[d], ino, ino', d) <==> (Gives(ino, to, d) ==> ino.bytes <= t[d].curspace))
    ensures
      var r := MoveAll(t, ino.quotas, to, ino.bytes)[d];
      && DueInodes(t[d], ino, ino', d) <= r.curinodes <= t[d].curinodes + 1
      && (r.curinodes == DueInodes(t[d], ino, ino', d) <==> (Gives(ino, to, d) ==> 1 <= t[d].curinodes))
  {
    MoveAllAt(t, ino.quotas, to, ino.bytes, 0, d);
    SlotShare(t, ino, d);
    MovedSlots(t, ino.quotas, to);
    SlotShare(t, ino', d);
    var k := t[d].kind;
    GivesSlot(t, ino, to, d);
    if k < 2 && ino.quotas[k].Some? && to[k].Some? {
      MoveOneUsage(t, ino.quotas[k].value, to[k].value, ino.bytes, d);
    }
  }

  lemma GivesSlot(t: Table, ino: Inode, to: seq<Option<Id>>, d: Id)
    requires Slotted(t, ino.quotas) && Slotted(t, to) && d in t
    ensures Gives(ino, to, d) <==> t[d].kind < MAXQUOTAS && ino.quotas[t[d].kind] == Some(d) && to[t[d].kind].Some?
  {
  }

  /** A transfer is accounted for exactly when it is refused or the quota it leaves was charged for the inode. */
  lemma TransferExact(s: Quota, op: Op, d: Id)
    requires WellFormed(s) && Legal(s, op) && op.Transfer? && d in s.dqs
    ensures d in Step(s, op).1.dqs
    ensures SpareSpace(s, d) <= SpareSpace(Step(s, op).1, d) && SpareInodes(s, d) <= SpareInodes(Step(s, op).1, d)
    ensures SpareSpace(Step(s, op).1, d) == SpareSpace(s, d) <==> PaysSpace(s, op, d)
    ensures SpareInodes(Step(s, op).1, d) == SpareInodes(s, d) <==> PaysInodes(s, op, d)
  {
    var ino := s.inodes[op.i];
    var (ok, t) := CheckMove(s.dqs, ino.quotas, op.to, ino.bytes, op.env);
    CheckMoveSame(s.dqs, ino.quotas, op.to, ino.bytes, op.env, d);
    TransferVerdict(s, op);
    if ok {
      CheckMoveKinds(s.dqs, ino.quotas, op.to, ino.bytes, op.env);
      SlottedKeeps(s.dqs, t, ino.quotas);
      SlottedKeeps(s.dqs, t, op.to);
      var ino' := ino.(quotas := Moved(ino.quotas, op.to));
      AttachedUpdate(s.inodes, op.i, ino', d);
      MoveUsage(t, ino, op.to, ino', d);
    }
  }

  lemma CheckMoveKinds(dqs: Table, from: seq<Option<Id>>, to: seq<Option<Id>>, space: nat, env: Env)
    requires |from| == |to| && Known(dqs, to)
    ensures KeepsKinds(dqs, CheckMove(dqs, from, to, space, env).1)
  {
    var t := CheckMove(dqs, from, to, space, env).1;
    forall x | x in dqs ensures t[x].kind == dqs[x].kind {
      CheckMoveSame(dqs, from, to, space, env, x);
    }
  }

  lemma CheckAllKinds(dqs: Table, qs: seq<Option<Id>>, n: nat, prealloc: bool, env: Env)
    requires Known(dqs, qs)
    ensures KeepsKinds(dqs, CheckAll(dqs, qs, n, prealloc, env).1)
  {
    var t := CheckAll(dqs, qs, n, prealloc, env).1;
    forall x | x in dqs ensures t[x].kind == dqs[x].kind {
      CheckAllSame(dqs, qs, n, prealloc, env, x);
    }
  }

  lemma MovedSlots(t: Table, from: seq<Option<Id>>, to: seq<Option<Id>>)
    requires Slotted(t, from) && Slotted(t, to)
    ensures Slotted(t, Moved(from, to))
  {
  }

  lemma {:induction false} MoveAllKinds(dqs: Table, from: seq<Option<Id>>, to: seq<Option<Id>>, space: nat, d: Id)
    requires |from| == |to| && Known(dqs, to) && Known(dqs, from) && d in dqs
    ensures MoveAll(dqs, from, to, space)[d].kind == dqs[d].kind
    ensures MoveAll(dqs, from, to, space)[d].bhard == dqs[d].bhard && MoveAll(dqs, from, to, space)[d].ihard == dqs[d].ihard
    decreases |to|
  {
    if to != [] {
      var t: Table := if to[0].None? || from[0].None? then dqs else MoveOne(dqs, from[0].value, to[0].value, space);
      MoveAllKinds(t, from[1..], to[1..], space, d);
    }
  }

  ghost predicate KeepsKinds(dqs: Table, t: Table) {
    t.Keys == dqs.Keys && forall d :: d in dqs ==> t[d].kind == dqs[d].kind
  }

  lemma StepKinds(s: Quota, op: Op)
    requires WellFormed(s) && Legal(s, op)
    ensures KeepsKinds(s.dqs, Step(s, op).1.dqs)
  {
    var ino := s.inodes[op.i];
    var t := Step(s, op).1.dqs;
    forall d | d in s.dqs ensures t[d].kind == s.dqs[d].kind {
      match op
      case Alloc(_, n, prealloc, env) =>
        var t1 := CheckAll(s.dqs, ino.quotas, n, prealloc, env).1;
        CheckAllKinds(s.dqs, ino.quotas, n, prealloc, env);
        SlottedKeeps(s.dqs, t1, ino.quotas);
        AddAllAt(t1, ino.quotas, n, 0, d);
      case Free(_, n) =>
        SubAllAt(s.dqs, ino.quotas, n, 0, d);
      case Transfer(_, to, env) =>
        var t1 := CheckMove(s.dqs, ino.quotas, to, ino.bytes, env).1;
        CheckMoveSame(s.dqs, ino.quotas, to, ino.bytes, env, d);
        MoveAllKinds(t1, ino.quotas, to, ino.bytes, d);
    }
  }

  lemma SlottedKeeps(dqs: Table, t: Table, qs: seq<Option<Id>>)
    requires Slotted(dqs, qs) && KeepsKinds(dqs, t)
    ensures Slotted(t, qs)
  {
  }

  /** Every step keeps the state well formed. */
  lemma StepWellFormed(s: Quota, op: Op)
    requires WellFormed(s) && Legal(s, op)
    ensures WellFormed(Step(s, op).1)
  {
    StepKinds(s, op);
    var s' := Step(s, op).1;
    forall i | 0 <= i < |s'.inodes| ensures Slotted(s'.dqs, s'.inodes[i].quotas) {
      SlottedKeeps(s.dqs, s'.dqs, s.inodes[i].quotas);
      if op.Transfer? && i == op.i {
        SlottedKeeps(s.dqs, s'.dqs, op.to);
        MovedSlots(s'.dqs, s.inodes[i].quotas, op.to);
      }
    }
  }

  /** What every step does to the usage beyond the attached inodes: it never shrinks, and it stays exactly
      when the quota was charged for what the step takes off it. */
  lemma StepExact(s: Quota, op: Op, d: Id)
    requires WellFormed(s) && Legal(s, op) && d in s.dqs
    ensures d in Step(s, op).1.dqs
    ensures SpareSpace(s, d) <= SpareSpace(Step(s, op).1, d) && SpareInodes(s, d) <= SpareInodes(Step(s, op).1, d)
    ensures SpareSpace(Step(s, op).1, d) == SpareSpace(s, d) <==> PaysSpace(s, op, d)
    ensures SpareInodes(Step(s, op).1, d) == SpareInodes(s, d) <==> PaysInodes(s, op, d)
  {
    match op
    case Alloc(_, _, _, _) => AllocConserves(s, op, d);
    case Free(_, _) => FreeExact(s, op, d);
    case Transfer(_, _, _) => TransferExact(s, op, d);
  }

  /** A quota charged at least for its attached inodes is charged for whatever a step takes off it. */
  lemma CoveredPays(s: Quota, op: Op, d: Id)
    requires WellFormed(s) && Legal(s, op) && d in s.dqs
    ensures 0 <= SpareSpace(s, d) ==> PaysSpace(s, op, d)
    ensures 0 <= SpareInodes(s, d) ==> PaysInodes(s, op, d)
  {
    AttachedUpdate(s.inodes, op.i, s.inodes[op.i], d);
  }

  /** So every step conserves, for a quota that is charged at least for its attached inodes; and such a quota stays one. */
  lemma StepConserves(s: Quota, op: Op, d: Id)
    requires WellFormed(s) && Legal(s, op) && d in s.dqs
    ensures d in Step(s, op).1.dqs
    ensures 0 <= SpareSpace(s, d) ==> SpareSpace(Step(s, op).1, d) == SpareSpace(s, d)
    ensures 0 <= SpareInodes(s, d) ==> SpareInodes(Step(s, op).1, d) == SpareInodes(s, d)
  {
    StepExact(s, op, d);
    CoveredPays(s, op, d);
  }

  ghost predicate LegalRun(s: Quota, ops: seq<Op>)
    requires WellFormed(s)
    decreases |ops|
  {
    ops != [] ==> Legal(s, ops[0]) && (StepWellFormed(s, ops[0]); LegalRun(Step(s, ops[0]).1, ops[1..]))
  }

  ghost function Run(s: Quota, ops: seq<Op>): Quota
    requires WellFormed(s) && LegalRun(s, ops)
    decreases |ops|
  {
    if ops == [] then s else
    StepWellFormed(s, ops[0]);
    Run(Step(s, ops[0]).1, ops[1..])
  }

  /** Every step of the run finds the quota charged for what it takes off it. */
  ghost predicate RunPaysSpace(s: Quota, ops: seq<Op>, d: Id)
    requires WellFormed(s) && LegalRun(s, ops) && d in s.dqs
    decreases |ops|
  {
    ops != [] ==>
      PaysSpace(s, ops[0], d) && (StepWellFormed(s, ops[0]); StepKinds(s, ops[0]); RunPaysSpace(Step(s, ops[0]).1, ops[1..], d))
  }

  ghost predicate RunPaysInodes(s: Quota, ops: seq<Op>, d: Id)
    requires WellFormed(s) && LegalRun(s, ops) && d in s.dqs
    decreases |ops|
  {
    ops != [] ==>
      PaysInodes(s, ops[0], d) && (StepWellFormed(s, ops[0]); StepKinds(s, ops[0]); RunPaysInodes(Step(s, ops[0]).1, ops[1..], d))
  }

  /** Over every run of allocations, frees and transfers, and for every quota: what it is charged beyond its
      attached inodes never shrinks, and is conserved exactly when no step takes off more than was charged. */
  lemma {:induction false} RunExact(s: Quota, ops: seq<Op>, d: Id)
    requires WellFormed(s) && LegalRun(s, ops) && d in s.dqs
    ensures d in Run(s, ops).dqs
    ensures SpareSpace(s, d) <= SpareSpace(Run(s, ops), d) && SpareInodes(s, d) <= SpareInodes(Run(s, ops), d)
    ensures SpareSpace(Run(s, ops), d) == SpareSpace(s, d) <==> RunPaysSpace(s, ops, d)
    ensures SpareInodes(Run(s, ops), d) == SpareInodes(s, d) <==> RunPaysInodes(s, ops, d)
    decreases |ops|
  {
    if ops != [] {
      StepWellFormed(s, ops[0]);
      StepExact(s, ops[0], d);
      RunExact(Step(s, ops[0]).1, ops[1..], d);
    }
  }

  /** Conservation over every run, for every quota that starts out charged at least for its attached inodes. */
  lemma {:induction false} RunConserves(s: Quota, ops: seq<Op>, d: Id)
    requires WellFormed(s) && LegalRun(s, ops) && d in s.dqs
    ensures d in Run(s, ops).dqs
    ensures 0 <= SpareSpace(s, d) ==> SpareSpace(Run(s, ops), d) == SpareSpace(s, d)
    ensures 0 <= SpareInodes(s, d) ==> SpareInodes(Run(s, ops), d) == SpareInodes(s, d)
    decreases |ops|
  {
    if ops != [] {
      StepWellFormed(s, ops[0]);
      StepConserves(s, ops[0], d);
      RunConserves(Step(s, ops[0]).1, ops[1..], d);
    }
  }

  // ---------------------------------------------------------------- the condition on the first state

  ghost predicate ConservesSpace(s: Quota, ops: seq<Op>, d: Id)
    requires WellFormed(s) && d in s.dqs
  {
    LegalRun(s, ops) ==> d in Run(s, ops).dqs && SpareSpace(Run(s, ops), d) == SpareSpace(s, d)
  }

  ghost predicate ConservesInodes(s: Quota, ops: seq<Op>, d: Id)
    requires WellFormed(s) && d in s.dqs
  {
    LegalRun(s, ops) ==> d in Run(s, ops).dqs && SpareInodes(Run(s, ops), d) == SpareInodes(s, d)
  }

  /** Frees everything that the inodes from `i` on have. */
  function Drain(inodes: seq<Inode>, i: nat): seq<Op>
    decreases |inodes| - i
  {
    if i >= |inodes| then [] else [Free(i, inodes[i].bytes)] + Drain(inodes, i + 1)
  }

  lemma {:induction false} DrainSame(a: seq<Inode>, b: seq<Inode>, i: nat)
    requires |a| == |b| && forall k :: i <= k < |a| ==> a[k] == b[k]
    ensures Drain(a, i) == Drain(b, i)
    decreases |a| - i
  {
    if i < |a| {
      DrainSame(a, b, i + 1);
    }
  }

  ghost predicate Emptied(inodes: seq<Inode>, i: nat) {
    forall k {:trigger inodes[k]} :: 0 <= k < |inodes| && k < i ==> inodes[k].bytes == 0
  }

  lemma {:induction false} NothingAttached(inodes: seq<Inode>, d: Id)
    requires Emptied(inodes, |inodes|)
    ensures Attached(inodes, d) == 0
  {
    if inodes != [] {
      forall k | 0 <= k < |inodes[1..]| ensures inodes[1..][k].bytes == 0 {
        assert inodes[1..][k] == inodes[k + 1];
      }
      NothingAttached(inodes[1..], d);
    }
  }

  lemma {:induction false} DrainEmpties(s: Quota, i: nat)
    requires WellFormed(s) && i <= |s.inodes| && Emptied(s.inodes, i)
    ensures LegalRun(s, Drain(s.inodes, i))
    ensures Emptied(Run(s, Drain(s.inodes, i)).inodes, |Run(s, Drain(s.inodes, i)).inodes|)
    decreases |s.inodes| - i
  {
    if i < |s.inodes| {
      var op := Free(i, s.inodes[i].bytes);
      var s' := Step(s, op).1;
      StepWellFormed(s, op);
      DrainSame(s.inodes, s'.inodes, i + 1);
      DrainEmpties(s', i + 1);
      var ops := Drain(s.inodes, i);
      assert ops[0] == op && ops[1..] == Drain(s'.inodes, i + 1);
    }
  }

  /** Every run conserves the bytes of a quota if and only if it starts out charged for its attached inodes. */
  lemma AlwaysConserved(s: Quota, d: Id)
    requires WellFormed(s) && d in s.dqs
    ensures (forall ops :: ConservesSpace(s, ops, d)) <==> Attached(s.inodes, d) <= s.dqs[d].curspace
  {
    if Attached(s.inodes, d) <= s.dqs[d].curspace {
      forall ops ensures ConservesSpace(s, ops, d) {
        if LegalRun(s, ops) {
          RunConserves(s, ops, d);
        }
      }
    } else {
      var ops := Drain(s.inodes, 0);
      DrainEmpties(s, 0);
      RunExact(s, ops, d);
      NothingAttached(Run(s, ops).inodes, d);
      assert !ConservesSpace(s, ops, d);
    }
  }

  /** A caller whom no limit binds. */
  function Force(): Env { Env(0, k => 0, k => 0, d => true) }

  lemma {:induction false} Forced(dqs: Table, from: seq<Option<Id>>, to: seq<Option<Id>>, space: nat)
    requires |from| == |to| && Known(dqs, to)
    ensures CheckMove(dqs, from, to, space, Force()).0
    decreases |to|
  {
    if to != [] {
      if to[0].None? || from[0].None? {
        Forced(dqs, from[1..], to[1..], space);
      } else {
        var b := to[0].value;
        var q := CheckInodes(dqs[b], b, 1, Force()).1;
        var t: Table := dqs[b := CheckBytes(q, b, space, false, Force()).1];
        Forced(t, from[1..], to[1..], space);
      }
    }
  }

  /** A transfer to `e` in the slot of kind `k`. */
  function Only(k: nat, e: Id): seq<Option<Id>> { [if k == 0 then Some(e) else None, if k == 1 then Some(e) else None] }

  function Hand(i: nat, k: nat, e: Id): Op { Transfer(i, Only(k, e), Force()) }

  lemma HandDone(s: Quota, i: nat, k: nat, e: Id)
    requires WellFormed(s) && i < |s.inodes| && e in s.dqs && s.dqs[e].kind == k
    ensures Legal(s, Hand(i, k, e)) && Step(s, Hand(i, k, e)).0
    ensures
      var ino := s.inodes[i];
      |ino.quotas| == 2 && Step(s, Hand(i, k, e)).1.inodes == s.inodes[i := ino.(quotas := Moved(ino.quotas, Only(k, e)))]
  {
    var ino := s.inodes[i];
    assert Slotted(s.dqs, ino.quotas) && Slotted(s.dqs, Only(k, e));
    Forced(s.dqs, ino.quotas, Only(k, e), ino.bytes);
  }

  /** Hands the first `n` inodes to `e`, the last of them first. */
  function HandOver(n: nat, k: nat, e: Id): seq<Op> { if n == 0 then [] else [Hand(n - 1, k, e)] + HandOver(n - 1, k, e) }

  ghost predicate Handed(inodes: seq<Inode>, n: nat, d: Id) {
    forall i {:trigger inodes[i]} :: n <= i < |inodes| ==> Some(d) !in inodes[i].quotas
  }

  lemma {:induction false} NoneHolds(inodes: seq<Inode>, d: Id)
    requires Handed(inodes, 0, d)
    ensures Holders(inodes, d) == 0
  {
    if inodes != [] {
      forall k | 0 <= k < |inodes[1..]| ensures Some(d) !in inodes[1..][k].quotas {
        assert inodes[1..][k] == inodes[k + 1];
      }
      NoneHolds(inodes[1..], d);
    }
  }

  lemma {:induction false} SomeHolds(inodes: seq<Inode>, d: Id) returns (i: nat)
    requires 0 < Holders(inodes, d)
    ensures i < |inodes| && Some(d) in inodes[i].quotas
  {
    if Some(d) in inodes[0].quotas {
      i := 0;
    } else {
      var j := SomeHolds(inodes[1..], d);
      i := j + 1;
    }
  }

  lemma HandedOne(dqs: Table, inodes: seq<Inode>, inodes': seq<Inode>, i: nat, d: Id, e: Id)
    requires i < |inodes| && d in dqs && e != d && Slotted(dqs, inodes[i].quotas) && Handed(inodes, i + 1, d)
    requires inodes' == inodes[i := inodes[i].(quotas := Moved(inodes[i].quotas, Only(dqs[d].kind, e)))]
    ensures Handed(inodes', i, d)
  {
    var qs, to := inodes[i].quotas, Only(dqs[d].kind, e);
    forall k | 0 <= k < 2 ensures Moved(qs, to)[k] != Some(d) {
    }
  }

  lemma {:induction false} HandOverLeaves(s: Quota, n: nat, d: Id, e: Id)
    requires WellFormed(s) && n <= |s.inodes| && d in s.dqs && e in s.dqs && e != d && s.dqs[e].kind == s.dqs[d].kind
    requires Handed(s.inodes, n, d)
    ensures LegalRun(s, HandOver(n, s.dqs[d].kind, e)) && Handed(Run(s, HandOver(n, s.dqs[d].kind, e)).inodes, 0, d)
    decreases n
  {
    if n > 0 {
      var k := s.dqs[d].kind;
      var op := Hand(n - 1, k, e);
      HandDone(s, n - 1, k, e);
      var s' := Step(s, op).1;
      HandedOne(s.dqs, s.inodes, s'.inodes, n - 1, d, e);
      StepWellFormed(s, op);
      StepKinds(s, op);
      HandOverLeaves(s', n - 1, d, e);
      var ops := HandOver(n, k, e);
      assert ops[0] == op && ops[1..] == HandOver(n - 1, k, e);
    }
  }

  /** No other quota of the kind, so that an inode can only be handed back to the quota it has. */
  ghost predicate Alone(dqs: Table, d: Id)
    requires d in dqs
  {
    forall e :: e in dqs && dqs[e].kind == dqs[d].kind ==> e == d
  }

  lemma AloneKeeps(s: Quota, op: Op, d: Id)
    requires WellFormed(s) && Legal(s, op) && d in s.dqs && Alone(s.dqs, d) && 1 <= s.dqs[d].curinodes
    ensures d in Step(s, op).1.dqs && Alone(Step(s, op).1.dqs, d) && 1 <= Step(s, op).1.dqs[d].curinodes
  {
    var ino := s.inodes[op.i];
    StepKinds(s, op);
    match op
    case Alloc(_, n, prealloc, env) =>
      var t := CheckAll(s.dqs, ino.quotas, n, prealloc, env).1;
      CheckAllSame(s.dqs, ino.quotas, n, prealloc, env, d);
      CheckAllKinds(s.dqs, ino.quotas, n, prealloc, env);
      SlottedKeeps(s.dqs, t, ino.quotas);
      AddAllAt(t, ino.quotas, n, 0, d);
    case Free(_, n) => SubAllAt(s.dqs, ino.quotas, n, 0, d);
    case Transfer(_, to, env) =>
      var (ok, t) := CheckMove(s.dqs, ino.quotas, to, ino.bytes, env);
      CheckMoveSame(s.dqs, ino.quotas, to, ino.bytes, env, d);
      CheckMoveKinds(s.dqs, ino.quotas, to, ino.bytes, env);
      SlottedKeeps(s.dqs, t, ino.quotas);
      SlottedKeeps(s.dqs, t, to);
      MoveAllAt(t, ino.quotas, to, ino.bytes, 0, d);
  }

  lemma {:induction false} AloneConserves(s: Quota, ops: seq<Op>, d: Id)
    requires WellFormed(s) && LegalRun(s, ops) && d in s.dqs && Alone(s.dqs, d) && 1 <= s.dqs[d].curinodes
    ensures d in Run(s, ops).dqs && SpareInodes(Run(s, ops), d) == SpareInodes(s, d)
    decreases |ops|
  {
    if ops != [] {
      StepWellFormed(s, ops[0]);
      StepExact(s, ops[0], d);
      AloneKeeps(s, ops[0], d);
      AloneConserves(Step(s, ops[0]).1, ops[1..], d);
    }
  }

  /** Every run conserves the inodes of a quota if and only if it starts out charged for those attached to it,
      or they can go nowhere else and it is charged for one at least. */
  lemma AlwaysConservedInodes(s: Quota, d: Id)
    requires WellFormed(s) && d in s.dqs
    ensures (forall ops :: ConservesInodes(s, ops, d)) <==>
      Holders(s.inodes, d) <= s.dqs[d].curinodes || (Alone(s.dqs, d) && 1 <= s.dqs[d].curinodes)
  {
    if Holders(s.inodes, d) <= s.dqs[d].curinodes {
      forall ops ensures ConservesInodes(s, ops, d) {
        if LegalRun(s, ops) {
          RunConserves(s, ops, d);
        }
      }
    } else if s.dqs[d].curinodes == 0 {
      HandBack(s, d);
    } else if Alone(s.dqs, d) {
      forall ops ensures ConservesInodes(s, ops, d) {
        if LegalRun(s, ops) {
          AloneConserves(s, ops, d);
        }
      }
    } else {
      var e :| e in s.dqs && s.dqs[e].kind == s.dqs[d].kind && e != d;
      var ops := HandOver(|s.inodes|, s.dqs[d].kind, e);
      HandOverLeaves(s, |s.inodes|, d, e);
      RunExact(s, ops, d);
      NoneHolds(Run(s, ops).inodes, d);
      assert !ConservesInodes(s, ops, d);
    }
  }

  /** An uncharged inode handed to the quota it has already: the charge grows out of nothing. */
  lemma HandBack(s: Quota, d: Id)
    requires WellFormed(s) && d in s.dqs && s.dqs[d].curinodes == 0 < Holders(s.inodes, d)
    ensures exists ops :: !ConservesInodes(s, ops, d)
  {
    var k := s.dqs[d].kind;
    var i := SomeHolds(s.inodes, d);
    HandBackGrows(s, i, d);
    OneStep(s, Hand(i, k, d));
    assert !ConservesInodes(s, [Hand(i, k, d)], d);
  }

  lemma HandBackGrows(s: Quota, i: nat, d: Id)
    requires WellFormed(s) && d in s.dqs && s.dqs[d].curinodes == 0 && i < |s.inodes| && Some(d) in s.inodes[i].quotas
    ensures
      var op := Hand(i, s.dqs[d].kind, d);
      Legal(s, op) && d in Step(s, op).1.dqs && SpareInodes(Step(s, op).1, d) != SpareInodes(s, d)
  {
    var k := s.dqs[d].kind;
    HandDone(s, i, k, d);
    StepExact(s, Hand(i, k, d), d);
    GivesSlot(s.dqs, s.inodes[i], Only(k, d), d);
  }

  lemma OneStep(s: Quota, op: Op)
    requires WellFormed(s) && Legal(s, op)
    ensures LegalRun(s, [op]) && Run(s, [op]) == Step(s, op).1
  {
    StepWellFormed(s, op);
    assert [op][1..] == [];
  }

  /** A quota charged for nothing, and an inode of ten bytes attached to it. */
  function Stale(): Quota {
    Quota(map[0 := Dquot(0, 0, 0, 0, 0, 0, 0, 0, 0, false)], [Inode([Some(0), None], 10)])
  }

  /** Freeing the ten bytes takes nothing off the quota: what it is charged beyond its inodes grows by ten. */
  lemma StaleFree()
    ensures WellFormed(Stale()) && Legal(Stale(), Free(0, 10))
    ensures 0 in Step(Stale(), Free(0, 10)).1.dqs
    ensures SpareSpace(Stale(), 0) == -10 && SpareSpace(Step(Stale(), Free(0, 10)).1, 0) == 0
  {
    var s := Stale();
    var t := Step(s, Free(0, 10)).1;
    assert s.inodes[1..] == [] && t.inodes[1..] == [];
    assert s.inodes[0].quotas[0] == Some(0);
    assert t.inodes[0].bytes == 0;
    SubAllAt(s.dqs, s.inodes[0].quotas, 10, 0, 0);
  }

  /** A refused allocation or transfer changes no usage counter and no inode. */
  lemma FailureChangesNothing(s: Quota, op: Op, d: Id)
    requires WellFormed(s) && Legal(s, op) && d in s.dqs && !Step(s, op).0
    ensures Step(s, op).1.inodes == s.inodes && d in Step(s, op).1.dqs
    ensures SameUsage(Step(s, op).1.dqs[d], s.dqs[d])
  {
    var ino := s.inodes[op.i];
    match op
    case Alloc(_, n, prealloc, env) => CheckAllSame(s.dqs, ino.quotas, n, prealloc, env, d);
    case Transfer(_, to, env) => CheckMoveSame(s.dqs, ino.quotas, to, ino.bytes, env, d);
  }

  /** The limits that bind an unprivileged caller on a charged quota. */
  predicate WithinBytes(q: Dquot) { q.bhard == 0 || ToQb(q.curspace) <= q.bhard }

  predicate WithinInodes(q: Dquot) { q.ihard == 0 || q.curinodes <= q.ihard }

  /** An allocation that succeeds without privilege leaves every charged quota within its hard limit. */
  lemma AllocWithinLimit(s: Quota, op: Op, d: Id)
    requires WellFormed(s) && Legal(s, op) && op.Alloc? && Step(s, op).0 && d in s.dqs
    requires Some(d) in s.inodes[op.i].quotas && 0 < op.n && !s.dqs[d].fake && !op.env.ignore(d)
    ensures d in Step(s, op).1.dqs && WithinBytes(Step(s, op).1.dqs[d])
  {
    var ino := s.inodes[op.i];
    var t := CheckAll(s.dqs, ino.quotas, op.n, op.prealloc, op.env).1;
    SlotShare(s.dqs, ino, d);
    CheckAllFits(s.dqs, ino.quotas, op.n, op.prealloc, op.env, 0, d);
    CheckAllSame(s.dqs, ino.quotas, op.n, op.prealloc, op.env, d);
    CheckAllKinds(s.dqs, ino.quotas, op.n, op.prealloc, op.env);
    SlottedKeeps(s.dqs, t, ino.quotas);
    AddAllAt(t, ino.quotas, op.n, 0, d);
  }

  /** So does a transfer, for the quota that receives the inode. */
  lemma TransferWithinLimit(s: Quota, op: Op, d: Id)
    requires WellFormed(s) && Legal(s, op) && op.Transfer? && Step(s, op).0 && d in s.dqs
    requires Receives(s.dqs, s.inodes[op.i].quotas, op.to, 0, d) && !s.dqs[d].fake && !op.env.ignore(d)
    ensures d in Step(s, op).1.dqs && WithinInodes(Step(s, op).1.dqs[d])
    ensures 0 < s.inodes[op.i].bytes ==> WithinBytes(Step(s, op).1.dqs[d])
  {
    var ino := s.inodes[op.i];
    var t := CheckMove(s.dqs, ino.quotas, op.to, ino.bytes, op.env).1;
    CheckMoveFits(s.dqs, ino.quotas, op.to, ino.bytes, op.env, 0, d);
    CheckMoveSame(s.dqs, ino.quotas, op.to, ino.bytes, op.env, d);
    CheckMoveKinds(s.dqs, ino.quotas, op.to, ino.bytes, op.env);
    SlottedKeeps(s.dqs, t, ino.quotas);
    SlottedKeeps(s.dqs, t, op.to);
    MoveUsage(t, ino, op.to, ino.(quotas := Moved(ino.quotas, op.to)), d);
    MoveAllKinds(t, ino.quotas, op.to, ino.bytes, d);
    ToQbMonotone(MoveAll(t, ino.quotas, op.to, ino.bytes)[d].curspace, s.dqs[d].curspace + ino.bytes);
  }

  lemma ToQbMonotone(a: nat, b: nat)
    requires a <= b
    ensures ToQb(a) <= ToQb(b)
  {
  }

  // ---------------------------------------------------------------- the operations

  class QuotaCache {
    var dqs: Table
    var inodes: seq<Inode>

    ghost function State(): Quota
      reads this
    {
      Quota(dqs, inodes)
    }

    /** dquot_alloc_space */
    method AllocSpace(i: nat, n: nat, prealloc: bool, env: Env) returns (ok: bool)
      requires WellFormed(State()) && i < |inodes|
      modifies this
      ensures (ok, State()) == old(Step(State(), Alloc(i, n, prealloc, env)))
      ensures ok <==> Known(old(dqs), old(inodes[i].quotas)) && Affords(old(dqs), old(inodes[i].quotas), n, prealloc, env)
    {
      AllocVerdict(State(), Alloc(i, n, prealloc, env));
      var qs := inodes[i].quotas;
      ghost var was := dqs;
      var cnt := 0;
      while cnt < MAXQUOTAS
        invariant 0 <= cnt <= MAXQUOTAS == |qs| && inodes == old(inodes) && Known(dqs, qs)
        invariant CheckAll(was, qs, n, prealloc, env) == CheckAll(dqs, qs[cnt..], n, prealloc, env)
      {
        if qs[cnt].Some? {
          var d := qs[cnt].value;
          var (fits, q) := CheckBytes(dqs[d], d, n, prealloc, env);
          dqs := dqs[d := q];
          if !fits {
            return false;
          }
        }
        assert qs[cnt..][1..] == qs[cnt + 1..];
        cnt := cnt + 1;
      }
      ghost var t := dqs;
      cnt := 0;
      while cnt < MAXQUOTAS
        invariant 0 <= cnt <= MAXQUOTAS && inodes == old(inodes) && Known(dqs, qs) && t.Keys == dqs.Keys
        invariant AddAll(t, qs, n) == AddAll(dqs, qs[cnt..], n)
      {
        if qs[cnt].Some? {
          var d := qs[cnt].value;
          dqs := dqs[d := Incr(dqs[d], 0, n)];
        }
        assert qs[cnt..][1..] == qs[cnt + 1..];
        cnt := cnt + 1;
      }
      inodes := inodes[i := inodes[i].(bytes := inodes[i].bytes + n)];
      ok := true;
    }

    /** dquot_free_space */
    method FreeSpace(i: nat, n: nat)
      requires WellFormed(State()) && i < |inodes| && n <= inodes[i].bytes
      modifies this
      ensures State() == old(Step(State(), Free(i, n))).1
    {
      var qs := inodes[i].quotas;
      ghost var was := dqs;
      var cnt := 0;
      while cnt < MAXQUOTAS
        invariant 0 <= cnt <= MAXQUOTAS == |qs| && inodes == old(inodes) && Known(dqs, qs)
        invariant SubAll(was, qs, n) == SubAll(dqs, qs[cnt..], n)
      {
        if qs[cnt].Some? {
          var d := qs[cnt].value;
          dqs := dqs[d := DecrSpace(dqs[d], n)];
        }
        assert qs[cnt..][1..] == qs[cnt + 1..];
        cnt := cnt + 1;
      }
      inodes := inodes[i := inodes[i].(bytes := inodes[i].bytes - n)];
    }

    /** dquot_transfer, after the target quotas have been looked up. */
    method TransferInode(i: nat, to: seq<Option<Id>>, env: Env) returns (ok: bool)
      requires WellFormed(State()) && i < |inodes| && Slotted(dqs, to)
      modifies this
      ensures (ok, State()) == old(Step(State(), Transfer(i, to, env)))
      ensures ok <==> var ino := old(inodes[i]); |ino.quotas| == |to| && Welcome(old(dqs), ino.quotas, to, ino.bytes, env)
    {
      TransferVerdict(State(), Transfer(i, to, env));
      var from, space := inodes[i].quotas, inodes[i].bytes;
      ghost var was := dqs;
      var cnt := 0;
      while cnt < MAXQUOTAS
        invariant 0 <= cnt <= MAXQUOTAS == |from| && inodes == old(inodes) && Known(dqs, to) && Known(dqs, from)
        invariant CheckMove(was, from, to, space, env) == CheckMove(dqs, from[cnt..], to[cnt..], space, env)
      {
        if to[cnt].Some? && from[cnt].Some? {
          var d := to[cnt].value;
          ghost var now := dqs;
          var (fits, q) := CheckInodes(dqs[d], d, 1, env);
          dqs := dqs[d := q];
          if !fits {
            return false;
          }
          var (fits', q') := CheckBytes(dqs[d], d, space, false, env);
          dqs := dqs[d := q'];
          assert dqs == now[d := q'];
          if !fits' {
            return false;
          }
        }
        assert from[cnt..][1..] == from[cnt + 1..] && to[cnt..][1..] == to[cnt + 1..];
        cnt := cnt + 1;
      }
      MoveLoop(i, to);
      ok := true;
    }

    method MoveSlot(a: Id, b: Id, space: nat)
      requires a in dqs && b in dqs
      modifies this`dqs
      ensures dqs == MoveOne(old(dqs), a, b, space)
    {
      dqs := dqs[a := DecrInodes(dqs[a], 1)];
      dqs := dqs[a := DecrSpace(dqs[a], space)];
      dqs := dqs[b := Incr(dqs[b], 1, 0)];
      dqs := dqs[b := Incr(dqs[b], 0, space)];
    }

    method MoveLoop(i: nat, to: seq<Option<Id>>)
      requires i < |inodes| && |to| == MAXQUOTAS == |inodes[i].quotas| && Known(dqs, to) && Known(dqs, inodes[i].quotas)
      modifies this
      ensures dqs == MoveAll(old(dqs), old(inodes[i].quotas), to, old(inodes[i].bytes))
      ensures inodes == old(inodes)[i := old(inodes[i]).(quotas := Moved(old(inodes[i].quotas), to))]
    {
      var ino := inodes[i];
      var from, space := ino.quotas, ino.bytes;
      var now := from;
      ghost var t := dqs;
      var cnt := 0;
      while cnt < MAXQUOTAS
        invariant 0 <= cnt <= MAXQUOTAS == |now| && Known(dqs, to) && Known(dqs, from)
        invariant MoveAll(t, from, to, space) == MoveAll(dqs, from[cnt..], to[cnt..], space)
        invariant inodes == old(inodes)[i := ino.(quotas := now)]
        invariant forall k :: 0 <= k < MAXQUOTAS ==> now[k] == if k < cnt then Moved(from, to)[k] else from[k]
      {
        if to[cnt].Some? && from[cnt].Some? {
          MoveSlot(from[cnt].value, to[cnt].value, space);
          now := now[cnt := to[cnt]];
          inodes := inodes[i := ino.(quotas := now)];
        }
        assert from[cnt..][1..] == from[cnt + 1..] && to[cnt..][1..] == to[cnt + 1..];
        cnt := cnt + 1;
      }
      assert now == Moved(from, to);
    }
  }
}
