/** The scheduler together with any number of IPC objects, each seen only through its
    waiter mask. A blocking call is two atomic steps: `Enter` registers the caller in one
    object's mask and blocks it; `Leave` runs when the thread is back on the processor,
    reads the verdict and, on a timeout, takes its bit out again. Ticks, wake-ups and other
    threads may come in between.

    What is proved here holds for every object built on this protocol; the modules for
    the single objects add their own data. */
module Kernel {
  import opened Common
  import opened Masks
  import opened SchedulerSpec
  import opened SchedulerInvariant
  import opened SchedulerRuns

  type ObjectId = nat

  datatype Kernel = Kernel(
    sched: Sched,
    pc: seq<Option<ObjectId>>,        // the object each thread is inside a wait of, if any
    waiters: map<ObjectId, Mask>)

  datatype KStep =
    | Schedule(op: Op)
    | Enter(obj: ObjectId, timeout: Option<nat>)
    | Wake(obj: ObjectId, id: nat)
    | Leave
    | SetSignals(id: nat, pending: Mask, mask: Mask)

  function Waiters(k: Kernel, o: ObjectId): Mask {
    if o in k.waiters then k.waiters[o] else {}
  }

  ghost predicate KShape(k: Kernel) {
    Shape(k.sched) && |k.pc| == MAX_THREADS
  }

  function WithSignals(s: Sched, id: nat, pending: Mask, mask: Mask): Sched
    requires Occupied(s.threads, id)
  {
    Put(s, id, s.threads[id].value.(sigPending := pending, sigMask := mask))
  }

  function IpcError(s: Sched): int
    requires Occupied(s.threads, s.current)
  {
    s.threads[s.current].value.ipcError
  }

  function KApply(k: Kernel, step: KStep): (r: Outcome<Kernel>)
    requires KShape(k)
    ensures r.Done? ==> KShape(r.value)
  {
    match step
    case Schedule(op) =>
      if op.OpUnblock? && op.id >= MAX_THREADS then Panic
      else
        (match Apply(k.sched, op)
         case Panic => Panic
         case Done(s) => Done(k.(sched := s)))
    case Enter(o, timeout) =>
      if k.sched.current >= MAX_THREADS then Panic
      else
        (match BlockCurrent(k.sched, timeout)
         case Panic => Panic
         case Done(s) =>
           var id := k.sched.current;
           Done(Kernel(s, k.pc[id := Some(o)], k.waiters[o := Waiters(k, o) + {id}])))
    case Wake(o, id) =>
      if id >= MAX_THREADS then Panic
      else Done(k.(sched := Unblock(k.sched, id), waiters := k.waiters[o := Waiters(k, o) - {id}]))
    case Leave =>
      var id := k.sched.current;
      if !Occupied(k.sched.threads, id) || k.pc[id].None? then Panic
      else
        var o := k.pc[id].value;
        Done(k.(pc := k.pc[id := None],
                waiters := if IpcError(k.sched) == IPC_OK then k.waiters
                           else k.waiters[o := Waiters(k, o) - {id}]))
    case SetSignals(id, pending, mask) =>
      if !Occupied(k.sched.threads, id) then Panic
      else Done(k.(sched := WithSignals(k.sched, id, pending, mask)))
  }

  /** Who may do what: a thread inside a wait can only leave it; the idle thread never
      waits; wake-ups come from threads and interrupts alike and pick registered waiters. */
  ghost predicate KLegal(k: Kernel, step: KStep, idle: nat)
    requires KShape(k)
  {
    match step
    case Schedule(op) =>
      && !op.OpBlock? && !op.OpUnblock?
      && Legal(k.sched, op, idle)
      && (op.OpYield? || op.OpSleep? ==> k.sched.current < MAX_THREADS && k.pc[k.sched.current].None?)
    case Enter(_, _) =>
      && k.sched.started && k.sched.current != idle
      && k.sched.current < MAX_THREADS && k.pc[k.sched.current].None?
    case Wake(o, id) => id in Waiters(k, o)
    case Leave => k.sched.started && k.sched.current < MAX_THREADS && k.pc[k.sched.current].Some?
    case SetSignals(id, _, _) => Occupied(k.sched.threads, id)
  }

  // ---- Phases of a wait ----

  /** Where a thread stands in a call on one object: not in one, asleep in one (with or
      without a timeout), woken with success, or timed out and possibly still registered. */
  datatype Phase = Out | Waiting(timed: bool) | Granted | TimedOut

  function PhaseOf(pc: Option<ObjectId>, slot: Option<Thread>, o: ObjectId): Phase {
    if pc != Some(o) || slot.None? then Out
    else if slot.value.isIpcWait then Waiting(slot.value.state == BlockedTimeout)
    else if slot.value.ipcError == IPC_OK then Granted
    else TimedOut
  }

  function PhaseAt(k: Kernel, o: ObjectId, id: nat): Phase
    requires KShape(k) && id < MAX_THREADS
  {
    PhaseOf(k.pc[id], k.sched.threads[id], o)
  }

  predicate Registrable(phase: Phase) {
    phase.Waiting? || phase.TimedOut?
  }

  // ---- The invariant of every run ----

  ghost predicate WaitOk(pc: Option<ObjectId>, slot: Option<Thread>) {
    && (pc.None? && slot.Some? ==> !slot.value.isIpcWait)
    && (pc.Some? ==> slot.Some? && (!slot.value.isIpcWait ==> slot.value.ipcError in {IPC_OK, IPC_TIMEOUT}))
  }

  ghost predicate WaitsOk(k: Kernel)
    requires KShape(k)
  {
    forall i | 0 <= i < MAX_THREADS :: WaitOk(k.pc[i], k.sched.threads[i])
  }

  /** Registered threads are inside a wait on that very object and were not granted it;
      sleeping waiters are registered. */
  ghost predicate MaskOk(k: Kernel, o: ObjectId)
    requires KShape(k)
  {
    forall i | 0 <= i < MAX_THREADS ::
      && (i in Waiters(k, o) ==> Registrable(PhaseAt(k, o, i)))
      && (PhaseAt(k, o, i).Waiting? ==> i in Waiters(k, o))
  }

  ghost predicate KInv(k: Kernel, idle: nat) {
    && KShape(k)
    && Good(k.sched, idle)
    && WaitsOk(k)
    && forall o: ObjectId :: MaskOk(k, o)
  }

  // ---- One step ----

  /** How a step moves one thread's phase in one object. */
  function NextPhases(k: Kernel, step: KStep, o: ObjectId, id: nat): (allowed: set<Phase>)
    requires KShape(k) && id < MAX_THREADS
  {
    var now := PhaseAt(k, o, id);
    match step
    case Schedule(op) => if op == OpTick && now == Waiting(true) then {now, TimedOut} else {now}
    case Enter(obj, timeout) => if obj == o && id == k.sched.current then {Waiting(timeout.Some?)} else {now}
    case Wake(obj, target) => if obj == o && target == id && now.Waiting? then {Granted} else {now}
    case Leave => if id == k.sched.current then {Out} else {now}
    case SetSignals(_, _, _) => {now}
  }

  lemma RescheduledPhase(pc: Option<ObjectId>, a: Option<Thread>, b: Option<Thread>, o: ObjectId)
    requires Rescheduled(a, b)
    ensures PhaseOf(pc, a, o) == PhaseOf(pc, b, o)
    ensures WaitOk(pc, a) ==> WaitOk(pc, b)
  {
  }

  /** What one step promises for one thread, in every object at once. */
  ghost predicate SlotStep(k: Kernel, step: KStep, k': Kernel, i: nat)
    requires KShape(k) && KShape(k') && i < MAX_THREADS
  {
    && WaitOk(k'.pc[i], k'.sched.threads[i])
    && forall o: ObjectId :: PhaseAt(k', o, i) in NextPhases(k, step, o, i)
  }

  lemma ScheduleSlot(k: Kernel, op: Op, idle: nat, i: nat)
    requires KInv(k, idle) && KLegal(k, Schedule(op), idle) && i < MAX_THREADS
    ensures KApply(k, Schedule(op)).Done?
    ensures SlotStep(k, Schedule(op), KApply(k, Schedule(op)).value, i)
  {
    hide Apply, Good, Inv;
    StepKeepsGood(k.sched, op, idle);
    var s' := Apply(k.sched, op).value;
    StepSlot(k.sched, op, idle, s', i) by { GoodIsInv(k.sched, idle); }
    assert WaitOk(k.pc[i], k.sched.threads[i]);
    EditedPhase(k, op, idle, i);
    forall o: ObjectId
      ensures PhaseAt(KApply(k, Schedule(op)).value, o, i) in NextPhases(k, Schedule(op), o, i)
    {
      RescheduledPhase(k.pc[i], Edited(k.sched, op, i), s'.threads[i], o);
    }
  }

  lemma GoodIsInv(s: Sched, idle: nat)
    requires Good(s, idle)
    ensures Inv(s)
  {
  }

  /** The operation's own edit of slot `i`, seen as a phase. */
  lemma EditedPhase(k: Kernel, op: Op, idle: nat, i: nat)
    requires KInv(k, idle) && KLegal(k, Schedule(op), idle) && i < MAX_THREADS
    ensures WaitOk(k.pc[i], Edited(k.sched, op, i))
    ensures forall o: ObjectId :: PhaseOf(k.pc[i], Edited(k.sched, op, i), o) in NextPhases(k, Schedule(op), o, i)
  {
  }

  lemma EnterSlot(k: Kernel, obj: ObjectId, timeout: Option<nat>, idle: nat, i: nat)
    requires KInv(k, idle) && KLegal(k, Enter(obj, timeout), idle) && i < MAX_THREADS
    ensures KApply(k, Enter(obj, timeout)).Done?
    ensures Good(KApply(k, Enter(obj, timeout)).value.sched, idle)
    ensures SlotStep(k, Enter(obj, timeout), KApply(k, Enter(obj, timeout)).value, i)
  {
    hide BlockCurrent, Good, Inv;
    var op := OpBlock(timeout);
    StepKeepsGood(k.sched, op, idle);
    var s' := Apply(k.sched, op).value;
    StepSlot(k.sched, op, idle, s', i) by { GoodIsInv(k.sched, idle); }
    CurrentOccupied(k.sched, idle);
    assert WaitOk(k.pc[i], k.sched.threads[i]);
    var k' := KApply(k, Enter(obj, timeout)).value;
    var edited := Edited(k.sched, op, i);
    forall o: ObjectId
      ensures PhaseAt(k', o, i) in NextPhases(k, Enter(obj, timeout), o, i)
    {
      RescheduledPhase(k'.pc[i], edited, s'.threads[i], o);
    }
  }

  lemma CurrentOccupied(s: Sched, idle: nat)
    requires Good(s, idle) && s.started
    ensures CurrentRunning(s) && s.current < MAX_THREADS && !s.threads[s.current].value.isIpcWait
  {
  }

  lemma WakeSlotStep(k: Kernel, obj: ObjectId, id: nat, idle: nat, i: nat)
    requires KInv(k, idle) && KLegal(k, Wake(obj, id), idle) && i < MAX_THREADS
    ensures KApply(k, Wake(obj, id)).Done?
    ensures Good(KApply(k, Wake(obj, id)).value.sched, idle)
    ensures SlotStep(k, Wake(obj, id), KApply(k, Wake(obj, id)).value, i)
  {
    hide Unblock, Good, Inv;
    StepKeepsGood(k.sched, OpUnblock(id), idle);
    UnblockSlot(k.sched, id, i);
    assert WaitOk(k.pc[i], k.sched.threads[i]);
    assert MaskOk(k, obj);
    assert Registrable(PhaseAt(k, obj, id));
    if k.sched.threads[id].value.isIpcWait {
      WaiterAwaits(k, idle, id);
    }
  }

  /** A thread with a wait flag is in one of the blocked states, so `unblock_thread` acts on it. */
  lemma WaiterAwaits(k: Kernel, idle: nat, id: nat)
    requires Good(k.sched, idle) && Occupied(k.sched.threads, id) && k.sched.threads[id].value.isIpcWait
    ensures AwaitingIpc(k.sched.threads[id].value)
  {
  }

  lemma LeaveSlot(k: Kernel, idle: nat, i: nat)
    requires KInv(k, idle) && KLegal(k, Leave, idle) && i < MAX_THREADS
    ensures KApply(k, Leave).Done?
    ensures Good(KApply(k, Leave).value.sched, idle)
    ensures SlotStep(k, Leave, KApply(k, Leave).value, i)
  {
  }

  lemma SignalsSlot(k: Kernel, id: nat, pending: Mask, mask: Mask, idle: nat, i: nat)
    requires KInv(k, idle) && KLegal(k, SetSignals(id, pending, mask), idle) && i < MAX_THREADS
    ensures KApply(k, SetSignals(id, pending, mask)).Done?
    ensures Good(KApply(k, SetSignals(id, pending, mask)).value.sched, idle)
    ensures SlotStep(k, SetSignals(id, pending, mask), KApply(k, SetSignals(id, pending, mask)).value, i)
  {
    hide Good, Inv;
    SignalsGood(k.sched, id, pending, mask, idle);
    assert WaitOk(k.pc[i], k.sched.threads[i]);
  }

  lemma SignalsGood(s: Sched, id: nat, pending: Mask, mask: Mask, idle: nat)
    requires Good(s, idle) && Occupied(s.threads, id)
    ensures Good(WithSignals(s, id, pending, mask), idle)
  {
    hide Inv;
    RetouchKeepsInv(s, id, s.threads[id].value.(sigPending := pending, sigMask := mask)) by { GoodIsInv(s, idle); }
  }

  lemma StepSlots(k: Kernel, step: KStep, idle: nat, i: nat)
    requires KInv(k, idle) && KLegal(k, step, idle) && i < MAX_THREADS
    ensures KApply(k, step).Done?
    ensures Good(KApply(k, step).value.sched, idle)
    ensures SlotStep(k, step, KApply(k, step).value, i)
  {
    hide KApply, Good, Inv;
    match step
    case Schedule(op) =>
      ScheduleSlot(k, op, idle, i);
      ScheduleGood(k, op, idle);
    case Enter(obj, timeout) => EnterSlot(k, obj, timeout, idle, i);
    case Wake(obj, id) => WakeSlotStep(k, obj, id, idle, i);
    case Leave => LeaveSlot(k, idle, i);
    case SetSignals(id, pending, mask) => SignalsSlot(k, id, pending, mask, idle, i);
  }

  lemma ScheduleGood(k: Kernel, op: Op, idle: nat)
    requires KInv(k, idle) && KLegal(k, Schedule(op), idle)
    ensures KApply(k, Schedule(op)).Done? && Good(KApply(k, Schedule(op)).value.sched, idle)
  {
    hide Apply, Good, Inv;
    StepKeepsGood(k.sched, op, idle);
  }

  /** How a step changes one object's mask. */
  lemma StepMask(k: Kernel, step: KStep, o: ObjectId)
    requires KShape(k) && KApply(k, step).Done?
    ensures var m, m', id := Waiters(k, o), Waiters(KApply(k, step).value, o), k.sched.current;
            match step
            case Enter(obj, _) => m' == if obj == o then m + {id} else m
            case Wake(obj, target) => m' == if obj == o then m - {target} else m
            case Leave => m' == if k.pc[id] == Some(o) && IpcError(k.sched) != IPC_OK then m - {id} else m
            case _ => m' == m
    ensures o in k.waiters ==> o in KApply(k, step).value.waiters
  {
  }

  lemma StepKeepsMask(k: Kernel, step: KStep, idle: nat, o: ObjectId)
    requires KInv(k, idle) && KLegal(k, step, idle) && KApply(k, step).Done?
    requires forall i | 0 <= i < MAX_THREADS :: SlotStep(k, step, KApply(k, step).value, i)
    ensures MaskOk(KApply(k, step).value, o)
  {
    hide KApply, Good, Inv;
    StepMask(k, step, o);
    var k' := KApply(k, step).value;
    assert MaskOk(k, o);
    forall i | 0 <= i < MAX_THREADS
      ensures i in Waiters(k', o) ==> Registrable(PhaseAt(k', o, i))
      ensures PhaseAt(k', o, i).Waiting? ==> i in Waiters(k', o)
    {
      assert SlotStep(k, step, k', i);
      assert WaitOk(k.pc[i], k.sched.threads[i]);
      if step.Leave? {
        CurrentOccupied(k.sched, idle);
      }
    }
  }

  /** The wait protocol: no legal step of any number of objects panics; afterwards every
      waiter bit still belongs to a thread inside a wait on that very object; and each
      thread's phase moves only as `NextPhases` allows, in every object at once. */
  lemma StepKeepsKInv(k: Kernel, step: KStep, idle: nat)
    requires KInv(k, idle) && KLegal(k, step, idle)
    ensures KApply(k, step).Done?
    ensures KInv(KApply(k, step).value, idle)
    ensures forall i | 0 <= i < MAX_THREADS :: SlotStep(k, step, KApply(k, step).value, i)
  {
    hide KApply, Good, Inv;
    StepSlots(k, step, idle, 0);
    var k' := KApply(k, step).value;
    forall i | 0 <= i < MAX_THREADS
      ensures SlotStep(k, step, k', i)
    {
      StepSlots(k, step, idle, i);
    }
    assert WaitsOk(k') by {
      assert forall i | 0 <= i < MAX_THREADS :: SlotStep(k, step, k', i) ==> WaitOk(k'.pc[i], k'.sched.threads[i]);
    }
    forall o: ObjectId
      ensures MaskOk(k', o)
    {
      StepKeepsMask(k, step, idle, o);
    }
  }

  /** A thread's bit is set in at most one object. */
  lemma OneObjectAtATime(k: Kernel, idle: nat, a: ObjectId, b: ObjectId, id: nat)
    requires KInv(k, idle) && id in Waiters(k, a) && id in Waiters(k, b)
    ensures a == b
  {
    assert MaskOk(k, a) && MaskOk(k, b);
  }

  // ---- Runs ----

  /** Before `sched_init`'s first thread; the objects are statics, with nobody registered. */
  function KInit(objects: set<ObjectId>): (k: Kernel)
    ensures KShape(k)
  {
    Kernel(Init(), seq(MAX_THREADS, _ => None), map o | o in objects :: {})
  }

  ghost predicate KRun(ks: seq<Kernel>, steps: seq<KStep>, idle: nat) {
    && |ks| == |steps| + 1
    && forall n | 0 <= n < |steps| :: KShape(ks[n]) && KLegal(ks[n], steps[n], idle) && KApply(ks[n], steps[n]) == Done(ks[n + 1])
  }

  /** In every run over any number of objects the invariant holds, and no legal step panics. */
  lemma {:induction false} KRunSafety(ks: seq<Kernel>, steps: seq<KStep>, idle: nat, objects: set<ObjectId>, n: nat)
    requires KRun(ks, steps, idle) && ks[0] == KInit(objects) && n <= |steps|
    ensures KInv(ks[n], idle)
    ensures forall step | KLegal(ks[n], step, idle) :: KApply(ks[n], step).Done?
  {
    hide KApply, Good, Inv;
    if n == 0 {
      InitGood(idle);
    } else {
      KRunSafety(ks, steps, idle, objects, n - 1);
      StepKeepsKInv(ks[n - 1], steps[n - 1], idle);
    }
    forall step | KLegal(ks[n], step, idle)
      ensures KApply(ks[n], step).Done?
    {
      StepKeepsKInv(ks[n], step, idle);
    }
  }

  /** Thread `id` leaves its wait in this step. */
  ghost predicate LeavesNow(k: Kernel, step: KStep, id: nat) {
    step.Leave? && k.sched.current == id
  }

  /** A wait has one verdict: once granted or timed out it stays so until the thread
      leaves, whatever other threads, objects and interrupts do. */
  lemma {:induction false} VerdictIsFinal(ks: seq<Kernel>, steps: seq<KStep>, idle: nat, o: ObjectId, id: nat, a: nat, b: nat)
    requires KRun(ks, steps, idle) && a <= b <= |steps| && id < MAX_THREADS && KInv(ks[a], idle)
    requires PhaseAt(ks[a], o, id) in {Granted, TimedOut}
    requires forall n | a <= n < b :: !LeavesNow(ks[n], steps[n], id)
    ensures KInv(ks[b], idle) && PhaseAt(ks[b], o, id) == PhaseAt(ks[a], o, id)
  {
    hide KApply, Good, Inv;
    if a < b {
      VerdictIsFinal(ks, steps, idle, o, id, a, b - 1);
      StepKeepsKInv(ks[b - 1], steps[b - 1], idle);
      assert SlotStep(ks[b - 1], steps[b - 1], ks[b], id);
      assert !LeavesNow(ks[b - 1], steps[b - 1], id);
    }
  }

  /** Only a wake-up by the object itself completes a wait on it, and only the tick times it out. */
  lemma VerdictComesFromOwnObject(k: Kernel, step: KStep, idle: nat, o: ObjectId, id: nat)
    requires KInv(k, idle) && KLegal(k, step, idle) && id < MAX_THREADS && PhaseAt(k, o, id).Waiting?
    ensures KApply(k, step).Done?
    ensures PhaseAt(KApply(k, step).value, o, id) == Granted <==> step == Wake(o, id)
    ensures PhaseAt(KApply(k, step).value, o, id) == TimedOut ==> step == Schedule(OpTick) && PhaseAt(k, o, id).timed
  {
    hide KApply, Good, Inv;
    StepKeepsKInv(k, step, idle);
    assert SlotStep(k, step, KApply(k, step).value, id);
    if step.Leave? {
      LeaverHasVerdict(k, idle);
    }
  }

  /** A thread that leaves a wait has exactly one verdict, success or timeout, never the
      sentinel; with success it is no longer registered with the object. */
  lemma LeaverHasVerdict(k: Kernel, idle: nat)
    requires KInv(k, idle) && KLegal(k, Leave, idle)
    ensures var id, o := k.sched.current, k.pc[k.sched.current].value;
            && Occupied(k.sched.threads, id)
            && IpcError(k.sched) in {IPC_OK, IPC_TIMEOUT} && IpcError(k.sched) != IPC_WAIT_SENTINEL
            && PhaseAt(k, o, id) == (if IpcError(k.sched) == IPC_OK then Granted else TimedOut)
            && (IpcError(k.sched) == IPC_OK ==> id !in Waiters(k, o))
  {
    hide Good, Inv;
    CurrentOccupied(k.sched, idle);
    assert WaitOk(k.pc[k.sched.current], k.sched.threads[k.sched.current]);
    assert MaskOk(k, k.pc[k.sched.current].value);
  }

  /** A new object: known to the kernel, nobody registered, nobody inside a wait on it. */
  ghost predicate FreshObject(k: Kernel, o: ObjectId)
    requires KShape(k)
  {
    o in k.waiters && k.waiters[o] == {} && forall i | 0 <= i < MAX_THREADS :: k.pc[i] != Some(o)
  }

  /** Can start a call: running, and not inside another wait. */
  ghost predicate CanCall(k: Kernel, idle: nat)
    requires KShape(k)
  {
    k.sched.started && k.sched.current != idle && k.sched.current < MAX_THREADS && k.pc[k.sched.current].None?
  }

  ghost predicate CanLeave(k: Kernel, o: ObjectId)
    requires KShape(k)
  {
    k.sched.started && k.sched.current < MAX_THREADS && k.pc[k.sched.current] == Some(o)
  }

  function Bump(b: bool): nat {
    if b then 1 else 0
  }

  // ---- What one object sees of the rest of the system ----

  /** The step is not an action of object `o`. */
  ghost predicate Elsewhere(k: Kernel, step: KStep, o: ObjectId)
    requires KShape(k)
  {
    match step
    case Enter(obj, _) => obj != o
    case Wake(obj, _) => obj != o
    case Leave => k.sched.current < MAX_THREADS && k.pc[k.sched.current] != Some(o)
    case _ => true
  }

  /** Everything else in the system can do one thing to object `o`: let timed waits expire. */
  lemma ElsewhereFrame(k: Kernel, step: KStep, idle: nat, o: ObjectId)
    requires KInv(k, idle) && KLegal(k, step, idle) && Elsewhere(k, step, o)
    ensures KApply(k, step).Done? && KInv(KApply(k, step).value, idle)
    ensures Waiters(KApply(k, step).value, o) == Waiters(k, o)
    ensures o in k.waiters ==> o in KApply(k, step).value.waiters
    ensures forall i | 0 <= i < MAX_THREADS ::
              || PhaseAt(KApply(k, step).value, o, i) == PhaseAt(k, o, i)
              || (PhaseAt(k, o, i) == Waiting(true) && PhaseAt(KApply(k, step).value, o, i) == TimedOut)
  {
    hide KApply, Good, Inv;
    StepKeepsKInv(k, step, idle);
    StepMask(k, step, o);
    var k' := KApply(k, step).value;
    forall i | 0 <= i < MAX_THREADS
      ensures PhaseAt(k', o, i) == PhaseAt(k, o, i) || (PhaseAt(k, o, i) == Waiting(true) && PhaseAt(k', o, i) == TimedOut)
    {
      assert SlotStep(k, step, k', i);
    }
  }

  /** The threads that were granted a wait on `o` and have not returned from it yet. */
  ghost function GrantedSet(k: Kernel, o: ObjectId): set<nat>
    requires KShape(k)
  {
    set i | 0 <= i < MAX_THREADS && PhaseAt(k, o, i) == Granted
  }

  lemma GrantedSetStep(k: Kernel, step: KStep, idle: nat, o: ObjectId)
    requires KInv(k, idle) && KLegal(k, step, idle)
    ensures KApply(k, step).Done?
    ensures GrantedSet(KApply(k, step).value, o) ==
            match step
            case Wake(obj, id) =>
              if obj == o && id < MAX_THREADS && PhaseAt(k, o, id).Waiting? then GrantedSet(k, o) + {id} else GrantedSet(k, o)
            case Leave => GrantedSet(k, o) - {k.sched.current}
            case _ => GrantedSet(k, o)
  {
    hide KApply, Good, Inv;
    StepKeepsKInv(k, step, idle);
    var k' := KApply(k, step).value;
    forall i | 0 <= i < MAX_THREADS
      ensures PhaseAt(k', o, i) in NextPhases(k, step, o, i)
    {
      assert SlotStep(k, step, k', i);
    }
  }

  ghost predicate NoTimedWaits(k: Kernel, o: ObjectId)
    requires KShape(k)
  {
    forall i | 0 <= i < MAX_THREADS :: PhaseAt(k, o, i) in {Out, Waiting(false), Granted}
  }

  /** Without timed waits on `o` nothing can ever time out on it. */
  lemma UntimedStep(k: Kernel, step: KStep, idle: nat, o: ObjectId)
    requires KInv(k, idle) && KLegal(k, step, idle) && NoTimedWaits(k, o)
    requires !(step.Enter? && step.obj == o && step.timeout.Some?)
    ensures KApply(k, step).Done? && NoTimedWaits(KApply(k, step).value, o)
  {
    hide KApply, Good, Inv;
    StepKeepsKInv(k, step, idle);
    var k' := KApply(k, step).value;
    forall i | 0 <= i < MAX_THREADS
      ensures PhaseAt(k', o, i) in {Out, Waiting(false), Granted}
    {
      assert SlotStep(k, step, k', i);
    }
  }

  // ---- Urgency ----

  /** A registered thread's priority; smaller is more urgent. */
  function PriorityAt(k: Kernel, id: nat): nat
    requires KShape(k)
  {
    if Occupied(k.sched.threads, id) then k.sched.threads[id].value.priority else MAX_PRIORITY
  }

  /** Registered, and no registered thread is more urgent. */
  ghost predicate MostUrgent(k: Kernel, o: ObjectId, id: nat)
    requires KShape(k)
  {
    id in Waiters(k, o) && forall w | w in Waiters(k, o) :: PriorityAt(k, id) <= PriorityAt(k, w)
  }
}
