/** Signals in a running system. */
module SignalRuns {
  import opened Common
  import opened Masks
  import opened SchedulerSpec
  import opened SchedulerInvariant
  import opened SchedulerRuns
  import opened Kernel
  import opened Signal

  /** `calls[i]`: the mask thread `i` called `signal_wait` with. `owed[i]`: the signals sent
      to thread `i` since they were last delivered to it. */
  datatype System = System(k: Kernel, waitMask: seq<Mask>, calls: seq<Mask>, owed: seq<Mask>)

  datatype Action =
    | Send(target: nat, signo: nat)
    | SetMask(mask: Mask)
    | WaitEnter(wanted: Mask, timeout: Option<nat>)
    | WaitLeave
    | CheckOne
    | Other(step: KStep)

  ghost predicate SShape(sys: System) {
    KShape(sys.k) && |sys.waitMask| == MAX_THREADS && |sys.calls| == MAX_THREADS && |sys.owed| == MAX_THREADS
  }

  function TableOf(sys: System, o: ObjectId): Signal.Table {
    Signal.Table(Waiters(sys.k, o), sys.waitMask)
  }

  ghost predicate Outside(k: Kernel)
    requires KShape(k)
  {
    k.sched.started && k.sched.current < MAX_THREADS && k.pc[k.sched.current].None?
  }

  /** Sends come from threads and interrupts alike; masks and pending signals of a thread
      are otherwise touched by that thread only. */
  ghost predicate Allowed(sys: System, act: Action, idle: nat, o: ObjectId)
    requires KShape(sys.k)
  {
    match act
    case Send(target, _) => target < MAX_THREADS
    case SetMask(_) => Outside(sys.k)
    case CheckOne => Outside(sys.k)
    case WaitEnter(_, _) => CanCall(sys.k, idle)
    case WaitLeave => CanLeave(sys.k, o)
    case Other(step) =>
      KLegal(sys.k, step, idle) && Elsewhere(sys.k, step, o) && !step.SetSignals? && !(step.Schedule? && step.op.OpCreate?)
  }

  function Deliver(owed: seq<Mask>, id: nat, signo: Option<nat>): seq<Mask>
    requires id < |owed|
  {
    if signo.Some? then owed[id := owed[id] - {signo.value}] else owed
  }

  ghost function ActSend(sys: System, target: nat, signo: nat, o: ObjectId): Outcome<System>
    requires SShape(sys)
  {
    match SendSpec(TableOf(sys, o), sys.k.sched, target, signo)
    case Panic => Panic
    case Done((tab, s', sent)) =>
      var k' := sys.k.(sched := s', waiters := sys.k.waiters[o := tab.waiters]);
      Done(sys.(k := k', owed := if sent && signo < WIDTH && Occupied(sys.k.sched.threads, target)
                                 then sys.owed[target := sys.owed[target] + {signo}] else sys.owed))
  }

  ghost function ActWaitEnter(sys: System, wanted: Mask, timeout: Option<nat>, o: ObjectId): Outcome<System>
    requires SShape(sys)
  {
    var id := sys.k.sched.current;
    if id >= MAX_THREADS then Panic
    else
      match WaitEnterSpec(TableOf(sys, o), sys.k.sched, wanted, timeout)
      case Panic => Panic
      case Done((tab, s', signo)) =>
        if signo.Some? then Done(sys.(k := sys.k.(sched := s'), owed := Deliver(sys.owed, id, signo)))
        else Done(sys.(k := Kernel(s', sys.k.pc[id := Some(o)], sys.k.waiters[o := tab.waiters]),
                       waitMask := tab.waitMask, calls := sys.calls[id := wanted]))
  }

  ghost function ActWaitLeave(sys: System, o: ObjectId): Outcome<System>
    requires SShape(sys)
  {
    var id := sys.k.sched.current;
    if !Occupied(sys.k.sched.threads, id) then Panic
    else
      var (tab, s', signo) := WaitLeaveSpec(TableOf(sys, o), sys.k.sched, id, sys.calls[id]);
      Done(sys.(k := Kernel(s', sys.k.pc[id := None], sys.k.waiters[o := tab.waiters]), owed := Deliver(sys.owed, id, signo)))
  }

  ghost function Act(sys: System, act: Action, o: ObjectId): Outcome<System>
    requires SShape(sys)
  {
    var k, id := sys.k, sys.k.sched.current;
    match act
    case Send(target, signo) => ActSend(sys, target, signo, o)
    case SetMask(mask) =>
      (match SetMaskSpec(k.sched, mask)
       case Panic => Panic
       case Done((s', _)) => Done(sys.(k := k.(sched := s'))))
    case WaitEnter(wanted, timeout) => ActWaitEnter(sys, wanted, timeout, o)
    case WaitLeave => ActWaitLeave(sys, o)
    case CheckOne =>
      if !Occupied(k.sched.threads, id) then Panic
      else
        var (s', signo) := TakeSignal(k.sched, id, ALL_SIGNALS);
        Done(sys.(k := k.(sched := s'), owed := Deliver(sys.owed, id, signo)))
    case Other(step) =>
      (match KApply(k, step)
       case Panic => Panic
       case Done(k') => Done(sys.(k := k')))
  }

  // ---- The invariant ----

  /** What thread `i` could be handed out of `wanted`. */
  function Ripe(k: Kernel, i: nat, wanted: Mask): Mask
    requires i < |k.sched.threads|
  {
    if k.sched.threads[i].Some? then Deliverable(k.sched.threads[i].value) * wanted else {}
  }

  ghost predicate SlotOk(sys: System, o: ObjectId, i: nat)
    requires SShape(sys) && i < MAX_THREADS
  {
    && (i in Waiters(sys.k, o) ==> Ripe(sys.k, i, sys.calls[i]) == {})
    && (PhaseAt(sys.k, o, i) != Out ==> sys.waitMask[i] == sys.calls[i])
    && (PhaseAt(sys.k, o, i) == Granted ==> Ripe(sys.k, i, sys.calls[i]) != {})
    && sys.owed[i] == (if sys.k.sched.threads[i].Some? then sys.k.sched.threads[i].value.sigPending else {})
  }

  /** A registered waiter has nothing it waits for; a woken one has something; and what is
      pending is exactly what was sent and not yet delivered. */
  ghost predicate SigInv(sys: System, idle: nat, o: ObjectId) {
    && SShape(sys)
    && KInv(sys.k, idle)
    && o in sys.k.waiters
    && forall i | 0 <= i < MAX_THREADS :: SlotOk(sys, o, i)
  }

  /** The signal fields of a slot. */
  ghost predicate SameSignals(a: Option<Thread>, b: Option<Thread>) {
    && (a.Some? <==> b.Some?)
    && (a.Some? ==> a.value.sigPending == b.value.sigPending && a.value.sigMask == b.value.sigMask)
  }

  /** No step of the kernel other than an explicit signal operation touches a signal: not
      the tick, not a switch, not a wake-up. */
  lemma StepKeepsSignals(k: Kernel, step: KStep, idle: nat, i: nat)
    requires KInv(k, idle) && KLegal(k, step, idle) && i < MAX_THREADS
    requires !step.SetSignals? && !(step.Schedule? && step.op.OpCreate?)
    ensures KApply(k, step).Done?
    ensures SameSignals(k.sched.threads[i], KApply(k, step).value.sched.threads[i])
  {
    hide Good, Inv, BlockCurrent, Unblock, Yield, Sleep, Start, Tick, Create;
    StepKeepsKInv(k, step, idle);
    var op := if step.Schedule? then step.op else if step.Enter? then OpBlock(step.timeout) else OpUnblock(if step.Wake? then step.id else 0);
    if step.Leave? {
      CurrentOccupied(k.sched, idle);
    } else {
      if step.Wake? {
        assert MaskOk(k, step.obj);
      }
      GoodIsInv(k.sched, idle);
      SchedSlotSignals(k.sched, op, idle, i);
    }
  }

  lemma SchedSlotSignals(s: Sched, op: Op, idle: nat, i: nat)
    requires Good(s, idle) && Legal(s, op, idle) && i < MAX_THREADS && !op.OpCreate?
    ensures Apply(s, op).Done? && SameSignals(s.threads[i], Apply(s, op).value.threads[i])
  {
    hide Apply, Good, Inv;
    StepKeepsGood(s, op, idle);
    StepSlot(s, op, idle, Apply(s, op).value, i) by { GoodIsInv(s, idle); }
  }

  // ---- The actions seen from the kernel ----

  /** A rewrite of one thread's signals, as a kernel step. */
  ghost function Rewrite(k: Kernel, id: nat, pending: Mask, mask: Mask): (r: Kernel)
    requires KShape(k) && Occupied(k.sched.threads, id)
    ensures KShape(r)
  {
    KApply(k, SetSignals(id, pending, mask)).value
  }

  lemma RewriteKeeps(k: Kernel, idle: nat, id: nat, pending: Mask, mask: Mask)
    requires KInv(k, idle) && Occupied(k.sched.threads, id)
    ensures KInv(Rewrite(k, id, pending, mask), idle)
    ensures Rewrite(k, id, pending, mask).waiters == k.waiters
    ensures forall o: ObjectId, i | 0 <= i < MAX_THREADS :: PhaseAt(Rewrite(k, id, pending, mask), o, i) == PhaseAt(k, o, i)
  {
    hide Good, Inv;
    var step := SetSignals(id, pending, mask);
    StepKeepsKInv(k, step, idle);
    forall o: ObjectId, i | 0 <= i < MAX_THREADS
      ensures PhaseAt(Rewrite(k, id, pending, mask), o, i) == PhaseAt(k, o, i)
    {
      assert SlotStep(k, step, Rewrite(k, id, pending, mask), i);
    }
  }

  /** What a send does to the target's pending mask. */
  ghost function Sent(k: Kernel, target: nat, signo: nat): (r: Kernel)
    requires KShape(k) && Occupied(k.sched.threads, target) && signo < WIDTH
    ensures KShape(r)
  {
    var t := k.sched.threads[target].value;
    Rewrite(k, target, t.sigPending + {signo}, t.sigMask)
  }

  lemma SendKernel(sys: System, target: nat, signo: nat, idle: nat, o: ObjectId)
    requires SShape(sys) && KInv(sys.k, idle) && o in sys.k.waiters && target < MAX_THREADS
    ensures ActSend(sys, target, signo, o).Done? && SShape(ActSend(sys, target, signo, o).value)
    ensures var sys' := ActSend(sys, target, signo, o).value;
            if signo >= MAX_SIGNALS || sys.k.sched.threads[target].None? then sys' == sys
            else
              var k1 := Sent(sys.k, target, signo);
              && sys'.owed == sys.owed[target := sys.owed[target] + {signo}]
              && sys'.waitMask == sys.waitMask && sys'.calls == sys.calls
              && KApply(k1, Wake(o, target)).Done?
              && sys'.k == if target in Waiters(sys.k, o) && Ripe(k1, target, sys.waitMask[target]) != {}
                           then KApply(k1, Wake(o, target)).value else k1
  {
    hide Good, Inv, Unblock, Apply, BlockCurrent;
    assert sys.k.waiters[o := Waiters(sys.k, o)] == sys.k.waiters;
  }

  lemma SendKeeps(sys: System, target: nat, signo: nat, idle: nat, o: ObjectId)
    requires SigInv(sys, idle, o) && target < MAX_THREADS
    ensures ActSend(sys, target, signo, o).Done? && SigInv(ActSend(sys, target, signo, o).value, idle, o)
  {
    hide Good, Inv, ActSend, KApply, SlotOk;
    SendKernel(sys, target, signo, idle, o);
    if signo < MAX_SIGNALS && sys.k.sched.threads[target].Some? {
      SentSlots(sys.k, target, signo, idle);
      var k1 := Sent(sys.k, target, signo);
      if target in Waiters(sys.k, o) && Ripe(k1, target, sys.waitMask[target]) != {} {
        StepKeepsKInv(k1, Wake(o, target), idle);
        StepMask(k1, Wake(o, target), o);
      }
      forall i | 0 <= i < MAX_THREADS
        ensures SlotOk(ActSend(sys, target, signo, o).value, o, i)
      {
        SendKeepsSlot(sys, target, signo, idle, o, i);
      }
    }
  }

  lemma SendKeepsSlot(sys: System, target: nat, signo: nat, idle: nat, o: ObjectId, i: nat)
    requires SigInv(sys, idle, o) && target < MAX_THREADS && i < MAX_THREADS
    requires signo < MAX_SIGNALS && sys.k.sched.threads[target].Some?
    ensures ActSend(sys, target, signo, o).Done? && SShape(ActSend(sys, target, signo, o).value)
    ensures SlotOk(ActSend(sys, target, signo, o).value, o, i)
  {
    hide Good, Inv, ActSend, KApply;
    SendKernel(sys, target, signo, idle, o);
    var k1 := Sent(sys.k, target, signo);
    var sys' := ActSend(sys, target, signo, o).value;
    SentSlots(sys.k, target, signo, idle);
    assert MaskOk(sys.k, o) && MaskOk(k1, o);
    assert SlotOk(sys, o, i) && SlotOk(sys, o, target);
    assert Ripe(sys.k, i, sys.calls[i]) <= Ripe(k1, i, sys.calls[i]);
    if target in Waiters(sys.k, o) && Ripe(k1, target, sys.waitMask[target]) != {} {
      StepKeepsKInv(k1, Wake(o, target), idle);
      StepMask(k1, Wake(o, target), o);
      StepKeepsSignals(k1, Wake(o, target), idle, i);
      assert SlotStep(k1, Wake(o, target), sys'.k, i);
    }
  }

  lemma SentSlots(k: Kernel, target: nat, signo: nat, idle: nat)
    requires KInv(k, idle) && Occupied(k.sched.threads, target) && signo < WIDTH
    ensures KInv(Sent(k, target, signo), idle) && Sent(k, target, signo).waiters == k.waiters
    ensures forall o: ObjectId, i | 0 <= i < MAX_THREADS :: PhaseAt(Sent(k, target, signo), o, i) == PhaseAt(k, o, i)
    ensures forall i | 0 <= i < MAX_THREADS && i != target :: Sent(k, target, signo).sched.threads[i] == k.sched.threads[i]
    ensures var t := k.sched.threads[target].value;
            Sent(k, target, signo).sched.threads[target] == Some(t.(sigPending := t.sigPending + {signo}))
  {
    hide Good, Inv;
    var t := k.sched.threads[target].value;
    RewriteKeeps(k, idle, target, t.sigPending + {signo}, t.sigMask);
  }

  /** A thread outside any wait rewrites its own signals. */
  lemma OwnRewriteKeeps(sys: System, pending: Mask, mask: Mask, idle: nat, o: ObjectId)
    requires SigInv(sys, idle, o) && Occupied(sys.k.sched.threads, sys.k.sched.current)
    requires sys.k.pc[sys.k.sched.current].None?
    ensures var id := sys.k.sched.current;
            SigInv(sys.(k := Rewrite(sys.k, id, pending, mask), owed := sys.owed[id := pending]), idle, o)
  {
    hide Good, Inv;
    var id := sys.k.sched.current;
    RewriteKeeps(sys.k, idle, id, pending, mask);
    var sys' := sys.(k := Rewrite(sys.k, id, pending, mask), owed := sys.owed[id := pending]);
    assert MaskOk(sys.k, o);
    forall i | 0 <= i < MAX_THREADS
      ensures SlotOk(sys', o, i)
    {
      assert SlotOk(sys, o, i);
    }
  }

  /** Delivering a signal, as a rewrite. */
  lemma TakeIsRewrite(k: Kernel, wanted: Mask)
    requires KShape(k) && Occupied(k.sched.threads, k.sched.current)
    ensures var id := k.sched.current;
            var t, (s', signo) := k.sched.threads[id].value, TakeSignal(k.sched, id, wanted);
            && (signo.Some? <==> Ripe(k, id, wanted) != {})
            && (signo.Some? ==> signo.value in Ripe(k, id, wanted) && signo.value in t.sigPending)
            && (signo.Some? ==> k.(sched := s') == Rewrite(k, id, t.sigPending - {signo.value}, t.sigMask))
            && (signo.None? ==> s' == k.sched)
  {
  }

  lemma CheckOneKeeps(sys: System, idle: nat, o: ObjectId)
    requires SigInv(sys, idle, o) && Outside(sys.k)
    ensures Act(sys, CheckOne, o).Done? && SigInv(Act(sys, CheckOne, o).value, idle, o)
  {
    hide Good, Inv, Rewrite, TakeSignal;
    CurrentOccupied(sys.k.sched, idle);
    var id := sys.k.sched.current;
    var t := sys.k.sched.threads[id].value;
    TakeIsRewrite(sys.k, ALL_SIGNALS);
    assert SlotOk(sys, o, id);
    var signo := TakeSignal(sys.k.sched, id, ALL_SIGNALS).1;
    if signo.Some? {
      OwnRewriteKeeps(sys, t.sigPending - {signo.value}, t.sigMask, idle, o);
    }
  }

  lemma SetMaskKeeps(sys: System, mask: Mask, idle: nat, o: ObjectId)
    requires SigInv(sys, idle, o) && Outside(sys.k)
    ensures Act(sys, SetMask(mask), o).Done? && SigInv(Act(sys, SetMask(mask), o).value, idle, o)
  {
    hide Good, Inv, Deliverable;
    CurrentOccupied(sys.k.sched, idle);
    var id := sys.k.sched.current;
    var t := sys.k.sched.threads[id].value;
    assert SlotOk(sys, o, id);
    OwnRewriteKeeps(sys, t.sigPending, mask, idle, o);
    assert sys.owed[id := t.sigPending] == sys.owed;
  }

  lemma WaitEnterKeeps(sys: System, wanted: Mask, timeout: Option<nat>, idle: nat, o: ObjectId)
    requires SigInv(sys, idle, o) && CanCall(sys.k, idle)
    ensures ActWaitEnter(sys, wanted, timeout, o).Done? && SigInv(ActWaitEnter(sys, wanted, timeout, o).value, idle, o)
  {
    hide Good, Inv, Rewrite, TakeSignal, BlockCurrent;
    CurrentOccupied(sys.k.sched, idle);
    var id := sys.k.sched.current;
    var t := sys.k.sched.threads[id].value;
    TakeIsRewrite(sys.k, wanted);
    assert SlotOk(sys, o, id);
    var signo := TakeSignal(sys.k.sched, id, wanted).1;
    if signo.Some? {
      OwnRewriteKeeps(sys, t.sigPending - {signo.value}, t.sigMask, idle, o);
    } else {
      RegisterKeeps(sys, wanted, timeout, idle, o);
    }
  }

  lemma RegisterKeeps(sys: System, wanted: Mask, timeout: Option<nat>, idle: nat, o: ObjectId)
    requires SigInv(sys, idle, o) && CanCall(sys.k, idle) && Ripe(sys.k, sys.k.sched.current, wanted) == {}
    ensures KApply(sys.k, Enter(o, timeout)).Done?
    ensures var id := sys.k.sched.current;
            SigInv(sys.(k := KApply(sys.k, Enter(o, timeout)).value,
                        waitMask := sys.waitMask[id := wanted],
                        calls := sys.calls[id := wanted]), idle, o)
  {
    hide Good, Inv, KApply;
    var step := Enter(o, timeout);
    StepKeepsKInv(sys.k, step, idle);
    StepMask(sys.k, step, o);
    var id := sys.k.sched.current;
    var sys' := sys.(k := KApply(sys.k, step).value, waitMask := sys.waitMask[id := wanted], calls := sys.calls[id := wanted]);
    forall i | 0 <= i < MAX_THREADS
      ensures SlotOk(sys', o, i)
    {
      assert SlotOk(sys, o, i);
      StepKeepsSignals(sys.k, step, idle, i);
      assert SlotStep(sys.k, step, sys'.k, i);
    }
  }

  lemma LeaveKeeps(sys: System, step: KStep, idle: nat, o: ObjectId)
    requires SigInv(sys, idle, o) && KLegal(sys.k, step, idle) && !step.SetSignals? && !(step.Schedule? && step.op.OpCreate?)
    requires step.Leave? || Elsewhere(sys.k, step, o)
    ensures KApply(sys.k, step).Done? && SigInv(sys.(k := KApply(sys.k, step).value), idle, o)
  {
    hide Good, Inv, KApply;
    StepKeepsKInv(sys.k, step, idle);
    StepMask(sys.k, step, o);
    if step.Leave? {
      LeaverHasVerdict(sys.k, idle);
    } else {
      ElsewhereFrame(sys.k, step, idle, o);
    }
    var sys' := sys.(k := KApply(sys.k, step).value);
    assert MaskOk(sys.k, o);
    forall i | 0 <= i < MAX_THREADS
      ensures SlotOk(sys', o, i)
    {
      assert SlotOk(sys, o, i);
      StepKeepsSignals(sys.k, step, idle, i);
      assert SlotStep(sys.k, step, sys'.k, i);
    }
  }

  /** `signo` is the least of the signals thread `t` has pending and unmasked, out of those
      in `wanted`. */
  ghost predicate LeastOf(t: Thread, wanted: Mask, signo: nat) {
    && signo in t.sigPending && signo !in t.sigMask && signo in wanted
    && forall x | x in t.sigPending && x !in t.sigMask && x in wanted :: signo <= x
  }

  /** A wait that returns success returns the least signal that was pending, unmasked and
      waited for: the default of signal 0 is never used. A wait that times out takes nothing,
      so whatever was sent stays pending. */
  lemma WaitLeaveDelivers(sys: System, idle: nat, o: ObjectId)
    requires SigInv(sys, idle, o) && CanLeave(sys.k, o)
    ensures Occupied(sys.k.sched.threads, sys.k.sched.current)
    ensures var id := sys.k.sched.current;
            var (_, s', signo) := WaitLeaveSpec(TableOf(sys, o), sys.k.sched, id, sys.calls[id]);
            var t := sys.k.sched.threads[id].value;
            && (signo.Some? <==> PhaseAt(sys.k, o, id) == Granted)
            && (signo.Some? ==> LeastOf(t, sys.calls[id], signo.value)
                                && s' == Pend(sys.k.sched, id, t.sigPending - {signo.value}))
            && (signo.None? ==> s' == sys.k.sched)
  {
    hide Good, Inv, TakeSignal;
    LeaverHasVerdict(sys.k, idle);
    var id := sys.k.sched.current;
    assert SlotOk(sys, o, id);
    TakeIsRewrite(sys.k, sys.calls[id]);
    TakesLeast(sys.k.sched, id, sys.calls[id]);
  }

  /** A wait returns at once if and only if something it waits for is pending and unmasked,
      and then with the least of that; otherwise the caller sleeps, registered. */
  lemma WaitEnterDelivers(sys: System, wanted: Mask, timeout: Option<nat>, idle: nat, o: ObjectId)
    requires SigInv(sys, idle, o) && CanCall(sys.k, idle)
    ensures Occupied(sys.k.sched.threads, sys.k.sched.current)
    ensures WaitEnterSpec(TableOf(sys, o), sys.k.sched, wanted, timeout).Done?
    ensures var id, r := sys.k.sched.current, WaitEnterSpec(TableOf(sys, o), sys.k.sched, wanted, timeout).value;
            var t := sys.k.sched.threads[id].value;
            && (r.2.None? <==> forall x | x in t.sigPending && x in wanted :: x in t.sigMask)
            && (r.2.Some? ==> LeastOf(t, wanted, r.2.value) && r.0 == TableOf(sys, o)
                              && r.1 == Pend(sys.k.sched, id, t.sigPending - {r.2.value}))
            && (r.2.None? ==> id in r.0.waiters && r.0.waitMask[id] == wanted
                              && InState(r.1.threads, id, if timeout.Some? then BlockedTimeout else Blocked))
  {
    hide Good, Inv, TakeSignal, BlockCurrent, DoSchedule, Apply;
    CurrentOccupied(sys.k.sched, idle);
    StepKeepsKInv(sys.k, Enter(o, timeout), idle);
    TakesLeast(sys.k.sched, sys.k.sched.current, wanted);
    GoodIsInv(sys.k.sched, idle);
    BlockedState(sys.k.sched, timeout, idle);
  }

  lemma BlockedState(s: Sched, timeout: Option<nat>, idle: nat)
    requires Good(s, idle) && s.started && s.current != idle && BlockCurrent(s, timeout).Done?
    requires Occupied(s.threads, s.current)
    ensures InState(BlockCurrent(s, timeout).value.threads, s.current, if timeout.Some? then BlockedTimeout else Blocked)
  {
    hide Good, Inv;
    GoodIsInv(s, idle);
    StepKeepsGood(s, OpBlock(timeout), idle);
    BlockSlot(s, timeout, s.current);
  }

  lemma WaiterIsBlocked(s: Sched, id: nat, idle: nat)
    requires Good(s, idle) && Occupied(s.threads, id) && s.threads[id].value.isIpcWait
    ensures AwaitingIpc(s.threads[id].value)
  {
    assert ThreadOk(s.threads[id].value, s.tickCount);
  }

  /** A send is refused exactly for a number that is no signal; otherwise the signal is
      pending, and a registered target is woken exactly when the signal is unmasked and
      waited for. */
  lemma SendSaysWhy(sys: System, target: nat, signo: nat, idle: nat, o: ObjectId)
    requires SigInv(sys, idle, o) && Occupied(sys.k.sched.threads, target)
    ensures SendSpec(TableOf(sys, o), sys.k.sched, target, signo).Done?
    ensures var (tab, s', sent) := SendSpec(TableOf(sys, o), sys.k.sched, target, signo).value;
            var t := sys.k.sched.threads[target].value;
            && (sent <==> signo < 32)
            && (!sent ==> s' == sys.k.sched && tab == TableOf(sys, o))
            && (sent ==>
                  var woken := target in Waiters(sys.k, o) && signo in sys.calls[target] && signo !in t.sigMask;
                  && Occupied(s'.threads, target) && s'.threads[target].value.sigPending == t.sigPending + {signo}
                  && tab.waiters == (if woken then Waiters(sys.k, o) - {target} else Waiters(sys.k, o))
                  && (woken && PhaseAt(sys.k, o, target).Waiting? ==> s'.threads[target].value.state == Ready))
  {
    hide Good, Inv, LowestFrom;
    assert SlotOk(sys, o, target);
    assert MaskOk(sys.k, o);
    var t := sys.k.sched.threads[target].value;
    if signo < 32 && target in Waiters(sys.k, o) {
      var t1 := t.(sigPending := t.sigPending + {signo});
      var found := Deliverable(t1) * sys.waitMask[target];
      assert sys.waitMask[target] == sys.calls[target];
      assert Ripe(sys.k, target, sys.calls[target]) == {};
      if signo in sys.calls[target] && signo !in t.sigMask {
        assert signo in found;
      } else {
        assert found == Ripe(sys.k, target, sys.calls[target]);
      }
      if t.isIpcWait {
        WaiterIsBlocked(sys.k.sched, target, idle);
      }
    }
  }

  lemma WaitLeaveKeeps(sys: System, idle: nat, o: ObjectId)
    requires SigInv(sys, idle, o) && CanLeave(sys.k, o)
    ensures ActWaitLeave(sys, o).Done? && SigInv(ActWaitLeave(sys, o).value, idle, o)
  {
    hide Good, Inv, Lowest, LowestFrom, Deliverable;
    WaitLeaveDelivers(sys, idle, o);
    LeaveKeeps(sys, Leave, idle, o);
    var id := sys.k.sched.current;
    var sys1 := sys.(k := KApply(sys.k, Leave).value);
    var (tab, s', signo) := WaitLeaveSpec(TableOf(sys, o), sys.k.sched, id, sys.calls[id]);
    assert sys.k.waiters[o := Waiters(sys.k, o)] == sys.k.waiters;
    assert SlotOk(sys, o, id);
    if signo.Some? {
      var t := sys.k.sched.threads[id].value;
      OwnRewriteKeeps(sys1, t.sigPending - {signo.value}, t.sigMask, idle, o);
    }
  }

  /** No signal is lost: every action, and anything else that happens in the system, keeps
      the invariant, and none panics. */
  lemma ActKeepsSigInv(sys: System, act: Action, idle: nat, o: ObjectId)
    requires SigInv(sys, idle, o) && Allowed(sys, act, idle, o)
    ensures Act(sys, act, o).Done? && SigInv(Act(sys, act, o).value, idle, o)
  {
    hide Good, Inv, ActSend, ActWaitEnter, ActWaitLeave, KApply, TakeSignal, SetMaskSpec, SlotOk;
    match act
    case Send(target, signo) => SendKeeps(sys, target, signo, idle, o);
    case SetMask(mask) => SetMaskKeeps(sys, mask, idle, o);
    case WaitEnter(wanted, timeout) => WaitEnterKeeps(sys, wanted, timeout, idle, o);
    case WaitLeave => WaitLeaveKeeps(sys, idle, o);
    case CheckOne => CheckOneKeeps(sys, idle, o);
    case Other(step) => LeaveKeeps(sys, step, idle, o);
  }

  ghost predicate Initial(sys: System, idle: nat, o: ObjectId) {
    && SShape(sys) && KInv(sys.k, idle) && FreshObject(sys.k, o)
    && forall i | 0 <= i < MAX_THREADS ::
         sys.owed[i] == if sys.k.sched.threads[i].Some? then sys.k.sched.threads[i].value.sigPending else {}
  }

  ghost predicate SigRun(states: seq<System>, acts: seq<Action>, idle: nat, o: ObjectId) {
    && |states| == |acts| + 1
    && forall n | 0 <= n < |acts| ::
         SShape(states[n]) && Allowed(states[n], acts[n], idle, o) && Act(states[n], acts[n], o) == Done(states[n + 1])
  }

  lemma {:induction false} RunSafety(states: seq<System>, acts: seq<Action>, idle: nat, o: ObjectId, n: nat)
    requires SigRun(states, acts, idle, o) && n <= |acts| && Initial(states[0], idle, o)
    ensures SigInv(states[n], idle, o)
  {
    hide Good, Inv, KApply, Act;
    if n > 0 {
      RunSafety(states, acts, idle, o, n - 1);
      ActKeepsSigInv(states[n - 1], acts[n - 1], idle, o);
    }
  }
}
