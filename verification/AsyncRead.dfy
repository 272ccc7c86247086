/** Reading a page through its buffers (fs/buffer.c): `block_read_full_page` locks and marks the
    buffers it has to read, and each of them later ends its I/O in `end_buffer_io_async`, in any
    order and interleaved statement by statement. */
module AsyncRead {
  import opened Options

  datatype Buffer = Buffer(uptodate: bool, locked: bool, async: bool)

  /** Where one completion handler is. `Waiting`: its I/O has not ended. `Recorded`: about to take
      `page_uptodate_lock`. `Last(f)`: found no other buffer busy, with `fullup == f`. `Left`: found
      one busy and returned. `Finished`: has unlocked the page and returned. */
  datatype Phase = Waiting | Marked | Recorded | Left | Last(fullup: bool) | Setting | Unlocking | Finished

  datatype Page = Page(bufs: seq<Buffer>, phase: map<nat, Phase>, locked: bool, uptodate: bool, error: bool, unlocks: nat)

  /** A step of the handler of buffer `i`, or somebody else locking or unlocking a buffer that is
      not under asynchronous I/O, or making a buffer uptodate before its handler runs. */
  datatype Step = Handler(i: nat) | Lock(i: nat, on: bool) | Fill(i: nat)

  // ---------------------------------------------------------------- the handler

  /** The buffer ring scan under the lock: is another buffer still under asynchronous I/O? */
  predicate Busy(bufs: seq<Buffer>, i: nat) {
    exists j :: 0 <= j < |bufs| && j != i && bufs[j].locked && bufs[j].async
  }

  /** `fullup` after a scan that found nothing busy. */
  predicate FullUp(bufs: seq<Buffer>, i: nat) {
    forall j :: 0 <= j < |bufs| && j != i ==> bufs[j].locked || bufs[j].uptodate
  }

  function Advance(p: Page, i: nat, ph: Phase): Page {
    p.(phase := p.phase[i := ph])
  }

  /** One statement of `end_buffer_io_async` for buffer `i`, whose I/O ended with `ok`. */
  function HandlerStep(p: Page, i: nat, ok: bool): Page
    requires i in p.phase && i < |p.bufs|
  {
    match p.phase[i]
    case Waiting => Advance(p.(bufs := p.bufs[i := p.bufs[i].(uptodate := ok)]), i, Marked)
    case Marked => Advance(if ok then p else p.(error := true), i, Recorded)
    case Recorded =>
      var q := p.(bufs := p.bufs[i := p.bufs[i].(async := false, locked := false)]);
      Advance(q, i, if Busy(q.bufs, i) then Left else Last(FullUp(q.bufs, i)))
    case Last(fullup) => Advance(p, i, if fullup && !p.error then Setting else Unlocking)
    case Setting => Advance(p.(uptodate := true), i, Unlocking)
    case Unlocking => Advance(p.(locked := false, unlocks := p.unlocks + 1), i, Finished)
    case Left => p
    case Finished => p
  }

  predicate Enabled(p: Page, s: Step) {
    match s
    case Handler(i) => i in p.phase && i < |p.bufs|
    case Lock(i, _) => i < |p.bufs| && !p.bufs[i].async
    case Fill(i) => i < |p.bufs| && (i in p.phase ==> p.phase[i].Waiting?)
  }

  function Next(p: Page, ok: map<nat, bool>, s: Step): Page
    requires Enabled(p, s) && p.phase.Keys == ok.Keys
  {
    match s
    case Handler(i) => HandlerStep(p, i, ok[i])
    case Lock(i, on) => p.(bufs := p.bufs[i := p.bufs[i].(locked := on)])
    case Fill(i) => p.(bufs := p.bufs[i := p.bufs[i].(uptodate := true)])
  }

  // ---------------------------------------------------------------- invariant

  predicate Pending(ph: Phase) { ph.Waiting? || ph.Marked? || ph.Recorded? }

  predicate Closing(ph: Phase) { ph.Last? || ph.Setting? || ph.Unlocking? || ph.Finished? }

  /** The state when all chosen buffers are locked and marked and no I/O has started; every other
      buffer is uptodate. `error` may already be set by a failed `get_block`. */
  ghost predicate Started(p: Page, ok: map<nat, bool>) {
    && p.phase.Keys == ok.Keys && ok.Keys != {} && p.locked && !p.uptodate && p.unlocks == 0
    && (forall i :: i in ok ==> i < |p.bufs| && p.phase[i] == Waiting && p.bufs[i].locked && p.bufs[i].async)
    && (forall i :: 0 <= i < |p.bufs| && i !in ok ==> p.bufs[i].uptodate && !p.bufs[i].async)
  }

  /** Some chosen buffer that has ended its I/O has failed. */
  ghost predicate Failed(ok: map<nat, bool>) {
    exists i :: i in ok && !ok[i]
  }

  ghost predicate BufOk(p: Page, ok: map<nat, bool>, i: nat)
    requires p.phase.Keys == ok.Keys
  {
    i < |p.bufs| ==>
      && (i !in ok ==> p.bufs[i].uptodate && !p.bufs[i].async)
      && (i in ok && Pending(p.phase[i]) ==> p.bufs[i].locked && p.bufs[i].async)
      && (i in ok && !Pending(p.phase[i]) ==> !p.bufs[i].async)
      && (i in ok && !p.phase[i].Waiting? ==> p.bufs[i].uptodate == ok[i])
      && (i in ok && !p.phase[i].Waiting? && !p.phase[i].Marked? && !ok[i] ==> p.error)
  }

  /** The handler that closes the page: everyone else has left, and it sets the flags right. */
  ghost predicate CloserOk(p: Page, ok: map<nat, bool>, i: nat)
    requires p.phase.Keys == ok.Keys
  {
    i in ok && Closing(p.phase[i]) ==>
      && (forall j :: j in ok && j != i ==> p.phase[j] == Left)
      && (p.phase[i] == Last(false) ==> p.error)
      && (p.phase[i] == Setting ==> !p.error)
      && (p.phase[i] == Unlocking || p.phase[i] == Finished ==> p.uptodate == !p.error)
      && (p.phase[i] != Finished ==> p.locked && p.unlocks == 0)
      && (p.phase[i] == Finished ==> !p.locked && p.unlocks == 1)
      && (p.phase[i].Last? || p.phase[i] == Setting ==> !p.uptodate)
  }

  ghost predicate SomeClosing(p: Page, ok: map<nat, bool>)
    requires p.phase.Keys == ok.Keys
  {
    exists i :: i in ok && Closing(p.phase[i])
  }

  ghost predicate SomePending(p: Page, ok: map<nat, bool>)
    requires p.phase.Keys == ok.Keys
  {
    exists i :: i in ok && Pending(p.phase[i])
  }

  ghost predicate Inv(p: Page, ok: map<nat, bool>, error0: bool) {
    && p.phase.Keys == ok.Keys
    && (forall i :: i in ok ==> i < |p.bufs|)
    && (forall i {:trigger BufOk(p, ok, i)} :: BufOk(p, ok, i))
    && (forall i {:trigger CloserOk(p, ok, i)} :: CloserOk(p, ok, i))
    && (SomeClosing(p, ok) || (SomePending(p, ok) && p.locked && p.unlocks == 0 && !p.uptodate))
    && (error0 ==> p.error) && (p.error ==> error0 || Failed(ok))
  }

  // ---------------------------------------------------------------- steps keep the invariant

  /** Under the lock, "busy" means exactly that another handler has not been here yet. */
  lemma BusyIsPending(p: Page, ok: map<nat, bool>, error0: bool, i: nat, bufs: seq<Buffer>)
    requires Inv(p, ok, error0) && i in ok && i < |p.bufs|
    requires bufs == p.bufs[i := p.bufs[i].(async := false, locked := false)]
    ensures Busy(bufs, i) <==> exists j :: j in ok && j != i && Pending(p.phase[j])
    ensures !FullUp(bufs, i) ==> p.error || Busy(bufs, i)
  {
    forall j | j in ok ensures j < |p.bufs| && BufOk(p, ok, j) {
    }
    if j :| 0 <= j < |bufs| && j != i && bufs[j].locked && bufs[j].async {
      assert BufOk(p, ok, j);
    }
    if j :| j in ok && j != i && Pending(p.phase[j]) {
      assert BufOk(p, ok, j) && bufs[j].locked && bufs[j].async;
    }
    if !FullUp(bufs, i) {
      var j :| 0 <= j < |bufs| && j != i && !bufs[j].locked && !bufs[j].uptodate;
      assert BufOk(p, ok, j);
    }
  }

  lemma ScanStep(p: Page, ok: map<nat, bool>, error0: bool, i: nat)
    requires Inv(p, ok, error0) && i in ok && p.phase[i] == Recorded
    ensures Inv(HandlerStep(p, i, ok[i]), ok, error0)
  {
    var q := HandlerStep(p, i, ok[i]);
    var bufs := p.bufs[i := p.bufs[i].(async := false, locked := false)];
    BusyIsPending(p, ok, error0, i, bufs);
    assert BufOk(p, ok, i);
    forall j ensures BufOk(q, ok, j) {
      assert BufOk(p, ok, j);
    }
    forall j | j in ok && j != i ensures !Closing(p.phase[j]) {
      assert CloserOk(p, ok, j);
    }
    assert !Closing(p.phase[i]);
    forall j ensures CloserOk(q, ok, j) {
      assert CloserOk(p, ok, j);
    }
    if Busy(bufs, i) {
      var j :| j in ok && j != i && Pending(p.phase[j]);
      assert Pending(q.phase[j]);
    } else {
      assert Closing(q.phase[i]);
    }
  }

  lemma EarlyStep(p: Page, ok: map<nat, bool>, error0: bool, i: nat)
    requires Inv(p, ok, error0) && i in ok && (p.phase[i] == Waiting || p.phase[i] == Marked)
    ensures Inv(HandlerStep(p, i, ok[i]), ok, error0)
  {
    var q := HandlerStep(p, i, ok[i]);
    assert BufOk(p, ok, i);
    forall j ensures BufOk(q, ok, j) {
      assert BufOk(p, ok, j);
    }
    forall j ensures CloserOk(q, ok, j) {
      assert CloserOk(p, ok, j);
    }
    assert !SomeClosing(p, ok) by {
      if j :| j in ok && Closing(p.phase[j]) {
        assert CloserOk(p, ok, j);
      }
    }
    assert Pending(q.phase[i]);
  }

  lemma LateStep(p: Page, ok: map<nat, bool>, error0: bool, i: nat)
    requires Inv(p, ok, error0) && i in ok && (Closing(p.phase[i]) || p.phase[i] == Left)
    ensures Inv(HandlerStep(p, i, ok[i]), ok, error0)
  {
    var q := HandlerStep(p, i, ok[i]);
    assert CloserOk(p, ok, i);
    forall j ensures BufOk(q, ok, j) {
      assert BufOk(p, ok, j);
    }
    forall j ensures CloserOk(q, ok, j) {
      assert CloserOk(p, ok, j);
    }
    if Closing(p.phase[i]) {
      assert Closing(q.phase[i]);
    } else {
      assert q == p;
    }
  }

  lemma OutsideStep(p: Page, ok: map<nat, bool>, error0: bool, s: Step)
    requires Inv(p, ok, error0) && Enabled(p, s) && !s.Handler?
    ensures Inv(Next(p, ok, s), ok, error0)
  {
    var q := Next(p, ok, s);
    forall j ensures BufOk(q, ok, j) {
      assert BufOk(p, ok, j);
    }
    forall j ensures CloserOk(q, ok, j) {
      assert CloserOk(p, ok, j);
    }
  }

  lemma NextInv(p: Page, ok: map<nat, bool>, error0: bool, s: Step)
    requires Inv(p, ok, error0) && Enabled(p, s)
    ensures Inv(Next(p, ok, s), ok, error0)
  {
    if s.Handler? {
      if p.phase[s.i] == Recorded {
        ScanStep(p, ok, error0, s.i);
      } else if Pending(p.phase[s.i]) {
        EarlyStep(p, ok, error0, s.i);
      } else {
        LateStep(p, ok, error0, s.i);
      }
    } else {
      OutsideStep(p, ok, error0, s);
    }
  }

  lemma StartedInv(p: Page, ok: map<nat, bool>)
    requires Started(p, ok)
    ensures Inv(p, ok, p.error)
  {
    forall i ensures BufOk(p, ok, i) && CloserOk(p, ok, i) {
    }
    var i :| i in ok;
    assert Pending(p.phase[i]);
  }

  // ---------------------------------------------------------------- runs

  ghost predicate Run(p: Page, ok: map<nat, bool>, steps: seq<Step>)
    decreases |steps|
  {
    p.phase.Keys == ok.Keys &&
    (steps == [] || (Enabled(p, steps[0]) && Run(Next(p, ok, steps[0]), ok, steps[1..])))
  }

  function End(p: Page, ok: map<nat, bool>, steps: seq<Step>): Page
    requires Run(p, ok, steps)
    decreases |steps|
  {
    if steps == [] then p else End(Next(p, ok, steps[0]), ok, steps[1..])
  }

  lemma {:induction false} RunInv(p: Page, ok: map<nat, bool>, error0: bool, steps: seq<Step>)
    requires Inv(p, ok, error0) && Run(p, ok, steps)
    ensures Inv(End(p, ok, steps), ok, error0)
    decreases |steps|
  {
    if steps != [] {
      NextInv(p, ok, error0, steps[0]);
      RunInv(Next(p, ok, steps[0]), ok, error0, steps[1..]);
    }
  }

  ghost predicate AllReturned(p: Page) {
    forall i :: i in p.phase ==> p.phase[i] == Left || p.phase[i] == Finished
  }

  /** What the invariant says about the page. */
  ghost predicate Verdict(q: Page, ok: map<nat, bool>, error0: bool) {
    && q.phase.Keys == ok.Keys && q.unlocks <= 1 && (q.locked <==> q.unlocks == 0)
    && (q.unlocks == 1 ==> AllReturned(q))
    && (AllReturned(q) ==>
          && q.unlocks == 1
          && (exists i :: i in ok && q.phase[i] == Finished && forall j :: j in ok && j != i ==> q.phase[j] == Left)
          && (q.uptodate <==> !q.error) && (q.error <==> error0 || Failed(ok))
          && forall i :: i in ok ==> i < |q.bufs| && q.bufs[i].uptodate == ok[i] && !q.bufs[i].async)
    && (q.uptodate ==> forall i :: 0 <= i < |q.bufs| ==> q.bufs[i].uptodate)
  }

  /** What the last Lock step on buffer `i` said. */
  function LastLock(steps: seq<Step>, i: nat): Option<bool> {
    if steps == [] then None
    else
      var later := LastLock(steps[1..], i);
      if later.None? && steps[0].Lock? && steps[0].i == i then Some(steps[0].on) else later
  }

  /** Which buffers are locked after a run: those that others locked last, and of the rest the
      chosen ones that have not been through their scan and those locked from the start that were not chosen. */
  ghost predicate LockedBy(p: Page, ok: map<nat, bool>, steps: seq<Step>, q: Page) {
    && |q.bufs| == |p.bufs| && q.phase.Keys == ok.Keys
    && forall i :: 0 <= i < |q.bufs| ==>
         (q.bufs[i].locked <==>
            match LastLock(steps, i)
            case Some(on) => on
            case None => if i in ok then InFlight(q, i) else p.bufs[i].locked)
  }

  predicate InFlight(p: Page, i: nat) { i in p.phase && Pending(p.phase[i]) }

  lemma HandlerLocks(p: Page, j: nat, ok: bool, i: nat)
    requires j in p.phase && j < |p.bufs| && i < |p.bufs|
    ensures var p1 := HandlerStep(p, j, ok);
            && |p1.bufs| == |p.bufs|
            && (i != j ==> p1.bufs[i] == p.bufs[i] && (InFlight(p1, i) <==> InFlight(p, i)))
            && (i == j && p.phase[i] == Recorded ==> !p1.bufs[i].locked && !InFlight(p1, i))
            && (i == j && p.phase[i] != Recorded ==>
                  p1.bufs[i].locked == p.bufs[i].locked && (InFlight(p1, i) <==> InFlight(p, i)))
  {
    var ph := p.phase[j];
    match ph
    case Waiting =>
    case Marked =>
    case Recorded =>
      var q := p.(bufs := p.bufs[j := p.bufs[j].(async := false, locked := false)]);
      var to := if Busy(q.bufs, j) then Left else Last(FullUp(q.bufs, j));
      assert HandlerStep(p, j, ok) == Advance(q, j, to);
    case _ =>
  }

  lemma LockedStep(p: Page, ok: map<nat, bool>, s: Step, i: nat)
    requires p.phase.Keys == ok.Keys && Enabled(p, s) && i < |p.bufs| && BufOk(p, ok, i)
    ensures var p1 := Next(p, ok, s);
            && |p1.bufs| == |p.bufs| && (InFlight(p1, i) ==> InFlight(p, i))
            && if s.Lock? && s.i == i then !InFlight(p, i) && p1.bufs[i].locked == s.on
               else p1.bufs[i].locked == if InFlight(p, i) then InFlight(p1, i) else p.bufs[i].locked
  {
    if s.Handler? {
      HandlerLocks(p, s.i, ok[s.i], i);
    }
  }

  lemma InFlightLocked(p: Page, ok: map<nat, bool>, error0: bool, i: nat)
    requires Inv(p, ok, error0) && i < |p.bufs|
    ensures BufOk(p, ok, i) && (InFlight(p, i) ==> p.bufs[i].locked)
  {
  }

  /** The same for one buffer, from any reachable state. */
  lemma {:induction false} LockedSince(p: Page, ok: map<nat, bool>, error0: bool, steps: seq<Step>, i: nat)
    requires Inv(p, ok, error0) && Run(p, ok, steps) && i < |p.bufs|
    ensures var q := End(p, ok, steps);
            && |q.bufs| == |p.bufs| && q.phase.Keys == ok.Keys && (InFlight(q, i) ==> InFlight(p, i))
            && (q.bufs[i].locked <==>
                  match LastLock(steps, i)
                  case Some(on) => on
                  case None => if InFlight(p, i) then InFlight(q, i) else p.bufs[i].locked)
    decreases |steps|
  {
    InFlightLocked(p, ok, error0, i);
    if steps != [] {
      var s, rest := steps[0], steps[1..];
      var p1 := Next(p, ok, s);
      LockedStep(p, ok, s, i);
      NextInv(p, ok, error0, s);
      LockedSince(p1, ok, error0, rest, i);
    }
  }

  lemma VerdictOpen(q: Page, ok: map<nat, bool>, error0: bool)
    requires Inv(q, ok, error0) && !SomeClosing(q, ok)
    ensures Verdict(q, ok, error0)
  {
    var i :| i in ok && Pending(q.phase[i]);
    assert !AllReturned(q);
  }

  lemma VerdictClosing(q: Page, ok: map<nat, bool>, error0: bool, i: nat)
    requires Inv(q, ok, error0) && i in ok && Closing(q.phase[i])
    ensures Verdict(q, ok, error0)
  {
    assert CloserOk(q, ok, i);
    if Failed(ok) {
      var j :| j in ok && !ok[j];
      assert BufOk(q, ok, j);
    }
    forall j | j in ok && AllReturned(q) ensures q.bufs[j].uptodate == ok[j] && !q.bufs[j].async {
      assert BufOk(q, ok, j);
    }
    if q.uptodate {
      forall j | 0 <= j < |q.bufs| ensures q.bufs[j].uptodate {
        assert BufOk(q, ok, j);
      }
    }
  }

  lemma LockedFrom(p: Page, ok: map<nat, bool>, steps: seq<Step>)
    requires Started(p, ok) && Run(p, ok, steps)
    ensures LockedBy(p, ok, steps, End(p, ok, steps))
  {
    StartedInv(p, ok);
    var j :| j in ok;
    LockedSince(p, ok, p.error, steps, j);
    forall i | 0 <= i < |p.bufs| ensures
      var q := End(p, ok, steps);
      q.bufs[i].locked <==>
        match LastLock(steps, i)
        case Some(on) => on
        case None => if i in ok then InFlight(q, i) else p.bufs[i].locked
    {
      LockedSince(p, ok, p.error, steps, i);
    }
  }

  /** Every interleaving: the page is unlocked at most once, and not before every chosen buffer has
      ended its I/O; once all handlers have returned it has been unlocked exactly once, by exactly
      one of them, and it is uptodate exactly if no error was recorded, that is, if `get_block` and
      every chosen read succeeded. It is never uptodate while one of its buffers is not. A
      completion leaves its buffer unlocked, uptodate exactly if the read succeeded, and no longer
      under asynchronous I/O. */
  lemma {:induction false} UnlockedOnce(p: Page, ok: map<nat, bool>, steps: seq<Step>)
    requires Started(p, ok) && Run(p, ok, steps)
    ensures Verdict(End(p, ok, steps), ok, p.error)
    ensures LockedBy(p, ok, steps, End(p, ok, steps))
  {
    StartedInv(p, ok);
    RunInv(p, ok, p.error, steps);
    var q := End(p, ok, steps);
    LockedFrom(p, ok, steps);
    if SomeClosing(q, ok) {
      var i :| i in ok && Closing(q.phase[i]);
      VerdictClosing(q, ok, p.error, i);
    } else {
      VerdictOpen(q, ok, p.error);
    }
  }

  // ---------------------------------------------------------------- completion

  /** How many of its statements a handler still has to run. */
  function ToGo(ph: Phase): nat {
    match ph
    case Waiting => 6 case Marked => 5 case Recorded => 4 case Last(_) => 3
    case Setting => 2 case Unlocking => 1 case Left => 0 case Finished => 0
  }

  /** What the handlers of the first `n` buffers have to do. */
  function Work(phase: map<nat, Phase>, n: nat): nat {
    if n == 0 then 0 else Work(phase, n - 1) + if n - 1 in phase then ToGo(phase[n - 1]) else 0
  }

  lemma {:induction false} WorkDone(phase: map<nat, Phase>, i: nat, ph: Phase, n: nat)
    requires i in phase && ToGo(ph) < ToGo(phase[i])
    ensures i < n ==> Work(phase[i := ph], n) < Work(phase, n)
    ensures n <= i ==> Work(phase[i := ph], n) == Work(phase, n)
  {
    if n > 0 {
      WorkDone(phase, i, ph, n - 1);
    }
  }

  /** Some handler can go on, and brings the end closer. */
  lemma Nearer(p: Page, ok: map<nat, bool>, error0: bool) returns (i: nat)
    requires Inv(p, ok, error0) && !AllReturned(p)
    ensures Enabled(p, Handler(i)) && Inv(Next(p, ok, Handler(i)), ok, error0)
    ensures Work(Next(p, ok, Handler(i)).phase, |Next(p, ok, Handler(i)).bufs|) < Work(p.phase, |p.bufs|)
  {
    i := Unreturned(p);
    NextInv(p, ok, error0, Handler(i));
    HandlerWorks(p, i, ok[i]);
  }

  lemma Unreturned(p: Page) returns (i: nat)
    requires !AllReturned(p)
    ensures i in p.phase && ToGo(p.phase[i]) > 0
  {
    i :| i in p.phase && p.phase[i] != Left && p.phase[i] != Finished;
  }

  lemma HandlerWorks(p: Page, i: nat, ok: bool)
    requires i in p.phase && i < |p.bufs| && ToGo(p.phase[i]) > 0
    ensures Work(HandlerStep(p, i, ok).phase, |HandlerStep(p, i, ok).bufs|) < Work(p.phase, |p.bufs|)
  {
    WorkDone(p.phase, i, HandlerStep(p, i, ok).phase[i], |p.bufs|);
  }

  lemma RunOne(p: Page, ok: map<nat, bool>, s: Step, rest: seq<Step>)
    requires p.phase.Keys == ok.Keys && Enabled(p, s) && Run(Next(p, ok, s), ok, rest)
    ensures Run(p, ok, [s] + rest) && End(p, ok, [s] + rest) == End(Next(p, ok, s), ok, rest)
  {
    assert ([s] + rest)[1..] == rest;
  }

  /** No handler ever waits for another: from every reachable state the handlers alone can all return. */
  lemma {:induction false} Finish(p: Page, ok: map<nat, bool>, error0: bool) returns (more: seq<Step>)
    requires Inv(p, ok, error0)
    ensures Run(p, ok, more) && AllReturned(End(p, ok, more))
    decreases Work(p.phase, |p.bufs|)
  {
    if AllReturned(p) {
      more := [];
    } else {
      var i := Nearer(p, ok, error0);
      var rest := Finish(Next(p, ok, Handler(i)), ok, error0);
      more := [Handler(i)] + rest;
      RunOne(p, ok, Handler(i), rest);
    }
  }

  lemma {:induction false} RunOn(p: Page, ok: map<nat, bool>, steps: seq<Step>, more: seq<Step>)
    requires Run(p, ok, steps) && Run(End(p, ok, steps), ok, more)
    ensures Run(p, ok, steps + more) && End(p, ok, steps + more) == End(End(p, ok, steps), ok, more)
    decreases |steps|
  {
    if steps == [] {
      assert steps + more == more;
    } else {
      assert (steps + more)[1..] == steps[1..] + more;
      RunOn(Next(p, ok, steps[0]), ok, steps[1..], more);
    }
  }

  /** Every run can be completed, and then the page has been unlocked exactly once. */
  lemma Completes(p: Page, ok: map<nat, bool>, steps: seq<Step>) returns (more: seq<Step>)
    requires Started(p, ok) && Run(p, ok, steps)
    ensures Run(p, ok, steps + more) && AllReturned(End(p, ok, steps + more)) && End(p, ok, steps + more).unlocks == 1
  {
    StartedInv(p, ok);
    RunInv(p, ok, p.error, steps);
    more := Finish(End(p, ok, steps), ok, p.error);
    RunOn(p, ok, steps, more);
    UnlockedOnce(p, ok, steps + more);
  }

  // ---------------------------------------------------------------- the loops

  /** How many links of an `n`-buffer ring lead from `bh` to `j`. */
  function Links(bh: nat, j: nat, n: nat): int { if j > bh then j - bh else j + n - bh }

  /** The ring scan of `end_buffer_io_async`, from `bh->b_this_page` around to `bh`. */
  method ScanRing(bufs: seq<Buffer>, bh: nat) returns (busy: bool, fullup: bool)
    requires bh < |bufs|
    ensures busy <==> Busy(bufs, bh)
    ensures !busy ==> (fullup <==> FullUp(bufs, bh))
  {
    var n := |bufs|;
    fullup := true;
    var tmp := if bh + 1 < n then bh + 1 else 0;
    ghost var k: nat := 1;
    while tmp != bh
      invariant 0 <= tmp < n && Links(bh, tmp, n) == k
      invariant forall j :: 0 <= j < n && Links(bh, j, n) < k ==> !(bufs[j].locked && bufs[j].async)
      invariant fullup <==> forall j :: 0 <= j < n && Links(bh, j, n) < k ==> bufs[j].locked || bufs[j].uptodate
      decreases n - k
    {
      if bufs[tmp].locked {
        if bufs[tmp].async {
          return true, fullup;
        }
      } else if !bufs[tmp].uptodate {
        fullup := false;
      }
      tmp := if tmp + 1 < n then tmp + 1 else 0;
      k := k + 1;
    }
    busy := false;
  }

  /** What `get_block` does to an unmapped buffer inside the file. */
  datatype GetBlock = GetBlock(err: bool, mapped: bool, uptodate: bool)

  /** Is `get_block` asked about this buffer? */
  predicate Asked(uptodate: bool, mapped: bool, inFile: bool) {
    !uptodate && !mapped && inFile
  }

  /** Does this buffer have to be read? */
  predicate NeedsRead(uptodate: bool, mapped: bool, inFile: bool, g: GetBlock) {
    !uptodate && (mapped || (inFile && g.mapped && !g.uptodate))
  }

  predicate SameLength(up: seq<bool>, mapped: seq<bool>, inFile: seq<bool>, gb: seq<GetBlock>, locked: seq<bool>) {
    |up| == |mapped| == |inFile| == |gb| == |locked| > 0
  }

  /** The first stage of `block_read_full_page`: holes are zero-filled, the rest is collected. */
  method Collect(up: seq<bool>, mapped: seq<bool>, inFile: seq<bool>, gb: seq<GetBlock>, locked: seq<bool>, error0: bool)
    returns (bufs: seq<Buffer>, arr: seq<nat>, error: bool)
    requires SameLength(up, mapped, inFile, gb, locked)
    ensures |bufs| == |up|
    ensures forall i :: 0 <= i < |up| ==>
      (i in arr <==> NeedsRead(up[i], mapped[i], inFile[i], gb[i]))
    ensures forall i :: i in arr ==> i < |up|
    ensures forall i :: 0 <= i < |up| ==> bufs[i].locked == locked[i] && !bufs[i].async && bufs[i].uptodate == (i !in arr)
    ensures error <==> error0 || exists i :: 0 <= i < |up| && Asked(up[i], mapped[i], inFile[i]) && gb[i].err
  {
    bufs, arr, error := [], [], error0;
    var i := 0;
    while i < |up|
      invariant 0 <= i <= |up| && |bufs| == i
      invariant forall j :: 0 <= j < i ==> (j in arr <==> NeedsRead(up[j], mapped[j], inFile[j], gb[j]))
      invariant forall j :: j in arr ==> j < i
      invariant forall j :: 0 <= j < i ==> bufs[j].locked == locked[j] && !bufs[j].async && bufs[j].uptodate == (j !in arr)
      invariant error <==> error0 || exists j :: 0 <= j < i && Asked(up[j], mapped[j], inFile[j]) && gb[j].err
    {
      var b := Buffer(up[i], locked[i], false);
      var isMapped := mapped[i];
      if !b.uptodate && !isMapped {
        if inFile[i] {
          isMapped := gb[i].mapped;
          b := b.(uptodate := gb[i].mapped && gb[i].uptodate);
          if gb[i].err {
            error := true;
          }
        }
        if !isMapped {
          b := b.(uptodate := true);
        }
      }
      if !b.uptodate {
        arr := arr + [i];
      }
      bufs := bufs + [b];
      i := i + 1;
    }
  }

  /** `block_read_full_page` up to the first I/O: either nothing has to be read and the page is
      finished at once, or the protocol starts with every buffer to be read locked and marked. */
  method ReadFullPage(up: seq<bool>, mapped: seq<bool>, inFile: seq<bool>, gb: seq<GetBlock>, locked: seq<bool>, error0: bool)
    returns (p: Page)
    requires SameLength(up, mapped, inFile, gb, locked)
    ensures |p.bufs| == |up|
    ensures forall i :: i in p.phase <==> 0 <= i < |up| && NeedsRead(up[i], mapped[i], inFile[i], gb[i])
    ensures forall i :: 0 <= i < |up| ==> p.bufs[i] == Buffer(i !in p.phase, locked[i] || i in p.phase, i in p.phase)
    ensures p.error <==> error0 || exists i :: 0 <= i < |up| && Asked(up[i], mapped[i], inFile[i]) && gb[i].err
    ensures p.phase.Keys == {} ==>
      && !p.locked && p.unlocks == 1 && p.uptodate == !p.error
      && forall i :: 0 <= i < |up| ==> p.bufs[i].uptodate
    ensures p.phase.Keys != {} ==> forall ok: map<nat, bool> :: ok.Keys == p.phase.Keys ==> Started(p, ok)
  {
    var bufs, arr, error := Collect(up, mapped, inFile, gb, locked, error0);
    if arr == [] {
      p := Page(bufs, map[], false, !error, error, 1);
      return;
    }
    var k := 0;
    while k < |arr|
      invariant 0 <= k <= |arr| && |bufs| == |up| && forall i :: i in arr ==> i < |up|
      invariant forall i :: 0 <= i < |up| ==> bufs[i].uptodate == (i !in arr)
      invariant forall i :: 0 <= i < |up| && i in arr[..k] ==> bufs[i].locked && bufs[i].async
      invariant forall i :: 0 <= i < |up| && i !in arr ==> !bufs[i].async && bufs[i].locked == locked[i]
    {
      assert arr[k] in arr;
      bufs := bufs[arr[k] := bufs[arr[k]].(locked := true, async := true)];
      assert arr[..k + 1] == arr[..k] + [arr[k]];
      k := k + 1;
    }
    assert arr[..k] == arr;
    p := Page(bufs, map i | i in arr :: Waiting, true, false, error, 0);
    assert arr[0] in p.phase;
  }
}
