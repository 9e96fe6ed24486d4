/** Theorems over whole runs of the scheduler: safety, bounded waiting, exact deadlines. */
module SchedulerRuns {
  import opened Common
  import opened Masks
  import opened SchedulerSpec
  import opened SchedulerInvariant

  datatype Op =
    | OpCreate(priority: nat, tick: nat)
    | OpStart
    | OpYield
    | OpSleep(ticks: nat)
    | OpBlock(timeout: Option<nat>)
    | OpUnblock(id: nat)
    | OpTick

  function Apply(s: Sched, op: Op): (r: Outcome<Sched>)
    requires Shape(s) && (op.OpUnblock? ==> op.id < MAX_THREADS)
    ensures r.Done? ==> Shape(r.value)
  {
    match op
    case OpCreate(priority, tick) => Done(Create(s, priority, tick).0)
    case OpStart => Start(s)
    case OpYield => Yield(s)
    case OpSleep(ticks) => Sleep(s, ticks)
    case OpBlock(timeout) => BlockCurrent(s, timeout)
    case OpUnblock(id) => Done(Unblock(s, id))
    case OpTick => Tick(s)
  }

  /** How the scheduler is meant to be driven: started once, with the idle thread in place;
      thread calls come from the running thread; the idle thread never sleeps or blocks;
      the tick interrupt is only enabled once the scheduler runs. */
  ghost predicate Legal(s: Sched, op: Op, idle: nat) {
    match op
    case OpCreate(_, _) => true
    case OpStart => !s.started && Occupied(s.threads, idle)
    case OpYield => s.started
    case OpSleep(_) => s.started && s.current != idle
    case OpBlock(_) => s.started && s.current != idle
    case OpUnblock(id) => id < MAX_THREADS
    case OpTick => s.started
  }

  ghost predicate Good(s: Sched, idle: nat) {
    Inv(s) && (s.started ==> IdleAlive(s.threads, idle))
  }

  ghost predicate Step(s: Sched, op: Op, idle: nat, s': Sched) {
    Shape(s) && Legal(s, op, idle) && Apply(s, op) == Done(s')
  }

  ghost predicate Run(states: seq<Sched>, ops: seq<Op>, idle: nat) {
    && |states| == |ops| + 1
    && forall k | 0 <= k < |ops| :: Step(states[k], ops[k], idle, states[k + 1])
  }

  // ---- What one operation does to one slot ----

  /** Only dispatched, demoted or charged a tick: everything else in the slot is kept. */
  ghost predicate Rescheduled(a: Option<Thread>, b: Option<Thread>) {
    && (a.Some? <==> b.Some?)
    && (a.Some? ==>
          && b.value.(state := a.value.state, tick := a.value.tick) == a.value
          && (a.value.state == b.value.state || (a.value.state in {Ready, Running} && b.value.state in {Ready, Running})))
  }

  lemma DoScheduleSlot(s: Sched, mode: SwitchMode, i: nat)
    requires Shape(s) && DoSchedule(s, mode).Done? && i < MAX_THREADS
    ensures |DoSchedule(s, mode).value.threads| == MAX_THREADS
    ensures Rescheduled(s.threads[i], DoSchedule(s, mode).value.threads[i])
  {
  }

  lemma YieldSlot(s: Sched, i: nat)
    requires Shape(s) && Yield(s).Done? && i < MAX_THREADS
    ensures |Yield(s).value.threads| == MAX_THREADS
    ensures Rescheduled(s.threads[i], Yield(s).value.threads[i])
  {
    DoScheduleSlot(DemoteCurrent(s), FromThread, i);
  }

  lemma LeavingSlot(s: Sched, t: Thread, i: nat)
    requires Shape(s) && s.current < MAX_THREADS && t.priority < MAX_PRIORITY && i < MAX_THREADS
    requires DoSchedule(Suspended(s, t), FromThread).Done?
    ensures var r := DoSchedule(Suspended(s, t), FromThread).value;
            |r.threads| == MAX_THREADS && Rescheduled(if i == s.current then Some(t) else s.threads[i], r.threads[i])
  {
  }

  lemma PreemptSlot(s: Sched, i: nat)
    requires Shape(s) && s.current < MAX_THREADS && Preempt(s).Done? && i < MAX_THREADS
    ensures |Preempt(s).value.threads| == MAX_THREADS
    ensures Rescheduled(s.threads[i], Preempt(s).value.threads[i])
  {
    var s1 := if CurrentRunning(s)
              then DemoteCurrent(s).(ready := s.ready + {s.threads[s.current].value.priority})
              else s;
    DoScheduleSlot(s1, FromIsr, i);
  }

  /** A tick wakes a slot whose deadline has come, keeps the signals as they were, and
      otherwise only reschedules. */
  lemma TickSlot(s: Sched, i: nat)
    requires Shape(s) && Tick(s).Done? && i < MAX_THREADS
    ensures |Tick(s).value.threads| == MAX_THREADS
    ensures Rescheduled(WakeSlot(s.(tickCount := s.tickCount + 1), i), Tick(s).value.threads[i])
  {
    AfterWakeupsIsWakeExpired(s);
    var s2 := AfterWakeups(s);
    assert s2.threads[i] == WakeSlot(s.(tickCount := s.tickCount + 1), i);
    TimeSliceSlot(s2, i);
  }

  lemma TimeSliceSlot(s: Sched, i: nat)
    requires Shape(s) && TimeSlice(s).Done? && i < MAX_THREADS
    ensures |TimeSlice(s).value.threads| == MAX_THREADS
    ensures Rescheduled(s.threads[i], TimeSlice(s).value.threads[i])
  {
    var s1 := s;
    if CurrentRunning(s) {
      var t := s.threads[s.current].value;
      s1 := Put(s, s.current, t.(tick := if Decrement(t.tick) == 0 then t.initTick else t.tick - 1));
    }
    if TimeSlice(s).value != s1 {
      PreemptSlot(s1, i);
    }
  }

  /** Slot `i` after the operation's own edit, before anyone is dispatched. */
  function Edited(s: Sched, op: Op, i: nat): Option<Thread>
    requires Shape(s) && i < MAX_THREADS
  {
    match op
    case OpCreate(priority, tick) => if FreeSlot(s, 0) == Some(i) then Some(NewThread(priority, tick)) else s.threads[i]
    case OpStart => s.threads[i]
    case OpYield => s.threads[i]
    case OpSleep(ticks) =>
      if i == s.current && s.threads[i].Some? then Some(SleepingThread(s, s.threads[i].value, ticks)) else s.threads[i]
    case OpBlock(timeout) =>
      if i == s.current && s.threads[i].Some? then Some(BlockedThread(s, s.threads[i].value, timeout)) else s.threads[i]
    case OpUnblock(id) =>
      if i == id && s.threads[i].Some? && AwaitingIpc(s.threads[i].value)
      then Some(s.threads[i].value.(ipcError := IPC_OK, isIpcWait := false, sleepUntil := 0, state := Ready))
      else s.threads[i]
    case OpTick => WakeSlot(s.(tickCount := s.tickCount + 1), i)
  }

  lemma CreateSlot(s: Sched, priority: nat, tick: nat, i: nat)
    requires Shape(s) && i < MAX_THREADS
    ensures Create(s, priority, tick).0.threads[i] == Edited(s, OpCreate(priority, tick), i)
  {
  }

  lemma StartSlot(s: Sched, i: nat)
    requires Shape(s) && i < MAX_THREADS && Start(s).Done?
    ensures |Start(s).value.threads| == MAX_THREADS
    ensures Rescheduled(s.threads[i], Start(s).value.threads[i])
  {
  }

  lemma SleepSlot(s: Sched, ticks: nat, i: nat)
    requires Shape(s) && i < MAX_THREADS && Sleep(s, ticks).Done? && Occupied(s.threads, s.current)
    ensures |Sleep(s, ticks).value.threads| == MAX_THREADS
    ensures Rescheduled(Edited(s, OpSleep(ticks), i), Sleep(s, ticks).value.threads[i])
  {
    LeavingSlot(s, SleepingThread(s, s.threads[s.current].value, ticks), i);
  }

  lemma BlockSlot(s: Sched, timeout: Option<nat>, i: nat)
    requires Shape(s) && i < MAX_THREADS && BlockCurrent(s, timeout).Done? && Occupied(s.threads, s.current)
    ensures |BlockCurrent(s, timeout).value.threads| == MAX_THREADS
    ensures Rescheduled(Edited(s, OpBlock(timeout), i), BlockCurrent(s, timeout).value.threads[i])
  {
    LeavingSlot(s, BlockedThread(s, s.threads[s.current].value, timeout), i);
  }

  lemma UnblockSlot(s: Sched, id: nat, i: nat)
    requires Shape(s) && i < MAX_THREADS && id < MAX_THREADS
    ensures Unblock(s, id).threads[i] == Edited(s, OpUnblock(id), i)
  {
  }

  lemma StepSlot(s: Sched, op: Op, idle: nat, s': Sched, i: nat)
    requires Inv(s) && Step(s, op, idle, s') && i < MAX_THREADS
    ensures |s'.threads| == MAX_THREADS && Rescheduled(Edited(s, op, i), s'.threads[i])
  {
    hide DoSchedule, Preempt, PreemptIfOutranked, TimeSlice, AfterWakeups;
    match op
    case OpCreate(priority, tick) => CreateSlot(s, priority, tick, i);
    case OpStart => StartSlot(s, i);
    case OpYield => YieldSlot(s, i);
    case OpSleep(ticks) => SleepSlot(s, ticks, i);
    case OpBlock(timeout) => BlockSlot(s, timeout, i);
    case OpUnblock(id) => UnblockSlot(s, id, i);
    case OpTick => TickSlot(s, i);
  }

  lemma StepClock(s: Sched, op: Op, idle: nat, s': Sched)
    requires Step(s, op, idle, s')
    ensures Shape(s') && s'.tickCount == if op == OpTick then s.tickCount + 1 else s.tickCount
  {
  }

  // ---- Safety of every run ----

  lemma IdleStays(s: Sched, op: Op, idle: nat, s': Sched)
    requires Good(s, idle) && Step(s, op, idle, s') && IdleAlive(s.threads, idle) && Inv(s)
    ensures IdleAlive(s'.threads, idle)
  {
    StepSlot(s, op, idle, s', idle);
  }

  /** A legal operation never panics and keeps the invariant. */
  lemma StepKeepsGood(s: Sched, op: Op, idle: nat)
    requires Good(s, idle) && Legal(s, op, idle)
    ensures Apply(s, op).Done? && Good(Apply(s, op).value, idle)
  {
    StepKeepsInv(s, op, idle);
    if IdleAlive(s.threads, idle) {
      IdleStays(s, op, idle, Apply(s, op).value);
    }
  }

  lemma StepKeepsInv(s: Sched, op: Op, idle: nat)
    requires Good(s, idle) && Legal(s, op, idle)
    ensures Apply(s, op).Done? && Inv(Apply(s, op).value)
    ensures Apply(s, op).value.started ==> IdleAlive(s.threads, idle)
  {
    match op
    case OpCreate(priority, tick) => CreateKeepsInv(s, priority, tick);
    case OpStart => StartWithIdle(s, idle);
    case OpYield => YieldKeepsInv(s);
    case OpSleep(ticks) => SleepKeepsInv(s, ticks, idle);
    case OpBlock(timeout) => BlockKeepsInv(s, timeout, idle);
    case OpUnblock(id) => UnblockKeepsInv(s, id);
    case OpTick => TickKeepsInv(s);
  }

  lemma StartWithIdle(s: Sched, idle: nat)
    requires Inv(s) && !s.started && Occupied(s.threads, idle)
    ensures Start(s).Done? && Inv(Start(s).value) && IdleAlive(s.threads, idle)
  {
    assert s.threads[idle].value.priority in s.ready;
    StartKeepsInv(s);
  }

  lemma InitGood(idle: nat)
    ensures Good(Init(), idle)
  {
    TallySame(Init().threads, Init().threads[..0] + seq(MAX_THREADS, _ => None));
    TallyNone(MAX_THREADS);
  }

  lemma {:induction false} TallyNone(n: nat)
    ensures Tally(seq(n, _ => None)) == 0
  {
    if n > 0 {
      TallyNone(n - 1);
      assert seq<Option<Thread>>(n, _ => None)[..n - 1] == seq<Option<Thread>>(n - 1, _ => None);
    }
  }

  lemma CountsTicks(s: Sched, op: Op)
    requires Shape(s) && (op.OpUnblock? ==> op.id < MAX_THREADS) && Apply(s, op).Done?
    ensures Apply(s, op).value.tickCount == s.tickCount + if op.OpTick? then 1 else 0
  {
    hide Create, Start, Yield, Sleep, BlockCurrent, Unblock, Tick;
  }

  /** Every state of every legal run from `sched_init` satisfies the invariant, and whatever
      legal operation comes next does not panic; the tick count is at most the number of
      operations, so it cannot wrap before 2^64 of them. */
  lemma {:induction false} RunSafety(states: seq<Sched>, ops: seq<Op>, idle: nat, k: nat)
    requires Run(states, ops, idle) && states[0] == Init() && k <= |ops|
    ensures Good(states[k], idle) && states[k].tickCount <= k
    ensures forall op | Legal(states[k], op, idle) :: Apply(states[k], op).Done?
  {
    if k == 0 {
      InitGood(idle);
    } else {
      RunSafety(states, ops, idle, k - 1);
      assert Step(states[k - 1], ops[k - 1], idle, states[k]);
      StepKeepsGood(states[k - 1], ops[k - 1], idle);
      CountsTicks(states[k - 1], ops[k - 1]);
    }
    forall op | Legal(states[k], op, idle)
      ensures Apply(states[k], op).Done?
    {
      StepKeepsGood(states[k], op, idle);
    }
  }

  /** Suspended: Blocked, and not by an IPC wait. */
  predicate SuspendedAt(threads: Table, id: nat) {
    InState(threads, id, Blocked) && !threads[id].value.isIpcWait
  }

  /** A suspended thread stays so, whatever legal operations follow: no tick, wake-up or switch
      brings it back. */
  lemma {:induction false} SuspendedStays(states: seq<Sched>, ops: seq<Op>, idle: nat, id: nat)
    requires Run(states, ops, idle) && Good(states[0], idle) && id < MAX_THREADS && SuspendedAt(states[0].threads, id)
    ensures Good(states[|ops|], idle) && SuspendedAt(states[|ops|].threads, id)
  {
    hide Inv;
    var n := |ops|;
    if n > 0 {
      SuspendedStays(states[..n], ops[..n - 1], idle, id);
      assert Step(states[n - 1], ops[n - 1], idle, states[n]);
      StepKeepsGood(states[n - 1], ops[n - 1], idle);
      SuspendedStep(states[n - 1], ops[n - 1], idle, states[n], id);
    }
  }

  lemma SuspendedStep(s: Sched, op: Op, idle: nat, s': Sched, id: nat)
    requires Good(s, idle) && Step(s, op, idle, s') && id < MAX_THREADS && SuspendedAt(s.threads, id)
    ensures SuspendedAt(s'.threads, id)
  {
    hide Apply;
    StepSlot(s, op, idle, s', id);
  }

  // ---- Round-robin: bounded waiting ----

  /** How many picks at priority `p` can still go to other threads before `id` is picked. */
  function Wait(cursor: seq<nat>, p: nat, id: nat): (w: nat)
    requires |cursor| == MAX_PRIORITY && p < MAX_PRIORITY && id < MAX_THREADS
    requires cursor[p] < MAX_THREADS || cursor[p] == NULL_ID
    ensures w < MAX_THREADS
  {
    Distance(ScanStart(cursor[p]), id)
  }

  /** The step handed the processor to a thread of priority `p`. */
  predicate PickedAt(s: Sched, s': Sched, p: nat) {
    s'.handoffs != s.handoffs && Occupied(s'.threads, s'.current) && s'.threads[s'.current].value.priority == p
  }

  ghost predicate Passed(s: Sched, s': Sched, p: nat, id: nat)
    requires Shape(s) && Shape(s') && p < MAX_PRIORITY && id < MAX_THREADS
  {
    if PickedAt(s, s', p) then Wait(s'.cursor, p, id) < Wait(s.cursor, p, id)
    else Wait(s'.cursor, p, id) == Wait(s.cursor, p, id)
  }

  lemma CursorMovesPast(cursor: nat, next: nat, id: nat)
    requires (cursor < MAX_THREADS || cursor == NULL_ID) && next < MAX_THREADS && id < MAX_THREADS && next != id
    requires Distance(ScanStart(cursor), next) <= Distance(ScanStart(cursor), id)
    ensures Distance(ScanStart(next), id) < Distance(ScanStart(cursor), id)
  {
  }

  lemma DispatchPasses(s: Sched, next: nat, p: nat, id: nat, cursor: seq<nat>)
    requires Shape(s) && id < MAX_THREADS && ReadyAt(s.threads, id, p) && id != next
    requires PickNext(s) == Some(next) && cursor == s.cursor[s.threads[next].value.priority := next]
    ensures if s.threads[next].value.priority == p then Wait(cursor, p, id) < Wait(s.cursor, p, id)
            else Wait(cursor, p, id) == Wait(s.cursor, p, id)
  {
    if s.threads[next].value.priority == p {
      PickIsNearest(s, id);
      CursorMovesPast(s.cursor[p], next, id);
    }
  }

  lemma DoSchedulePasses(s: Sched, mode: SwitchMode, p: nat, id: nat)
    requires Shape(s) && DoSchedule(s, mode).Done? && id < MAX_THREADS && ReadyAt(s.threads, id, p)
    requires ReadyAt(DoSchedule(s, mode).value.threads, id, p)
    ensures Shape(DoSchedule(s, mode).value) && Passed(s, DoSchedule(s, mode).value, p, id)
  {
    var pick := PickNext(s);
    if pick.Some? && pick.value != s.current {
      DispatchPasses(s, pick.value, p, id, DoSchedule(s, mode).value.cursor);
      assert |DoSchedule(s, mode).value.handoffs| == |s.handoffs| + 1;
    }
  }

  lemma StartPasses(s: Sched, p: nat, id: nat)
    requires Shape(s) && Start(s).Done? && id < MAX_THREADS && ReadyAt(s.threads, id, p)
    requires ReadyAt(Start(s).value.threads, id, p)
    ensures Shape(Start(s).value) && Passed(s, Start(s).value, p, id)
  {
    DispatchPasses(s, PickNext(s).value, p, id, Start(s).value.cursor);
    assert |Start(s).value.handoffs| == |s.handoffs| + 1;
  }

  lemma PreemptPasses(s: Sched, p: nat, id: nat)
    requires Shape(s) && s.current < MAX_THREADS && Preempt(s).Done? && id < MAX_THREADS && id != s.current
    requires ReadyAt(s.threads, id, p) && ReadyAt(Preempt(s).value.threads, id, p)
    ensures Shape(Preempt(s).value) && Passed(s, Preempt(s).value, p, id)
  {
    var s1 := if CurrentRunning(s)
              then DemoteCurrent(s).(ready := s.ready + {s.threads[s.current].value.priority})
              else s;
    DoSchedulePasses(s1, FromIsr, p, id);
  }

  lemma TimeSlicePasses(s: Sched, p: nat, id: nat)
    requires Shape(s) && TimeSlice(s).Done? && id < MAX_THREADS && id != s.current
    requires ReadyAt(s.threads, id, p) && ReadyAt(TimeSlice(s).value.threads, id, p)
    ensures Shape(TimeSlice(s).value) && Passed(s, TimeSlice(s).value, p, id)
  {
    hide Preempt;
    var s1 := s;
    if CurrentRunning(s) {
      var t := s.threads[s.current].value;
      s1 := Put(s, s.current, t.(tick := if Decrement(t.tick) == 0 then t.initTick else t.tick - 1));
    }
    if TimeSlice(s).value != s1 {
      PreemptPasses(s1, p, id);
    }
  }

  lemma TickPasses(s: Sched, p: nat, id: nat)
    requires Shape(s) && Tick(s).Done? && id < MAX_THREADS && id != s.current
    requires ReadyAt(s.threads, id, p) && ReadyAt(Tick(s).value.threads, id, p)
    ensures Shape(Tick(s).value) && Passed(s, Tick(s).value, p, id)
  {
    hide TimeSlice;
    var s0 := s.(tickCount := s.tickCount + 1);
    AfterWakeupsIsWakeExpired(s);
    assert WakeExpired(s0, MAX_THREADS).threads[id] == WakeSlot(s0, id);
    TimeSlicePasses(AfterWakeups(s), p, id);
  }

  lemma LeavingPasses(s: Sched, t: Thread, p: nat, id: nat)
    requires Shape(s) && s.current < MAX_THREADS && t.priority < MAX_PRIORITY && id < MAX_THREADS && id != s.current
    requires DoSchedule(Suspended(s, t), FromThread).Done?
    requires ReadyAt(s.threads, id, p) && ReadyAt(DoSchedule(Suspended(s, t), FromThread).value.threads, id, p)
    ensures Shape(DoSchedule(Suspended(s, t), FromThread).value)
    ensures Passed(s, DoSchedule(Suspended(s, t), FromThread).value, p, id)
  {
    DoSchedulePasses(Suspended(s, t), FromThread, p, id);
  }

  lemma YieldPasses(s: Sched, p: nat, id: nat)
    requires Shape(s) && Yield(s).Done? && id < MAX_THREADS && id != s.current
    requires ReadyAt(s.threads, id, p) && ReadyAt(Yield(s).value.threads, id, p)
    ensures Shape(Yield(s).value) && Passed(s, Yield(s).value, p, id)
  {
    DoSchedulePasses(DemoteCurrent(s), FromThread, p, id);
  }

  /** Each pick of another thread at priority `p` brings a thread that stays Ready at `p`
      strictly closer, and nothing else moves it back. */
  lemma StepPasses(s: Sched, op: Op, idle: nat, s': Sched, p: nat, id: nat)
    requires Good(s, idle) && Step(s, op, idle, s') && id < MAX_THREADS
    requires ReadyAt(s.threads, id, p) && ReadyAt(s'.threads, id, p)
    ensures Shape(s') && Passed(s, s', p, id)
  {
    hide DoSchedule, Preempt, PreemptIfOutranked, TimeSlice, AfterWakeups;
    match op
    case OpCreate(_, _) =>
    case OpStart => StartPasses(s, p, id);
    case OpYield => YieldPasses(s, p, id);
    case OpSleep(ticks) => LeavingPasses(s, SleepingThread(s, s.threads[s.current].value, ticks), p, id);
    case OpBlock(timeout) => LeavingPasses(s, BlockedThread(s, s.threads[s.current].value, timeout), p, id);
    case OpUnblock(_) =>
    case OpTick => TickPasses(s, p, id);
  }

  function Picks(states: seq<Sched>, p: nat): nat {
    if |states| < 2 then 0
    else Picks(states[..|states| - 1], p) + if PickedAt(states[|states| - 2], states[|states| - 1], p) then 1 else 0
  }

  /** While a thread stays Ready at priority `p`, fewer than 32 picks at `p` can pass it by. */
  lemma {:induction false} BoundedWaiting(states: seq<Sched>, ops: seq<Op>, idle: nat, p: nat, id: nat)
    requires Run(states, ops, idle) && Good(states[0], idle) && id < MAX_THREADS && p < MAX_PRIORITY
    requires forall k | 0 <= k < |states| :: ReadyAt(states[k].threads, id, p)
    ensures Good(states[|ops|], idle)
    ensures Picks(states, p) + Wait(states[|ops|].cursor, p, id) <= Wait(states[0].cursor, p, id) < MAX_THREADS
  {
    var n := |ops|;
    if n > 0 {
      BoundedWaiting(states[..n], ops[..n - 1], idle, p, id);
      assert Step(states[n - 1], ops[n - 1], idle, states[n]);
      StepKeepsGood(states[n - 1], ops[n - 1], idle);
      StepPasses(states[n - 1], ops[n - 1], idle, states[n], p, id);
    }
  }

  // ---- Deadlines ----

  ghost predicate Dormant(threads: Table, id: nat, state: ThreadState, deadline: nat) {
    InState(threads, id, state) && threads[id].value.sleepUntil == deadline
  }

  /** Awake again; a timed-out IPC wait carries its verdict. */
  ghost predicate Woken(threads: Table, id: nat, state: ThreadState) {
    && IdleAlive(threads, id)
    && threads[id].value.sleepUntil == 0
    && (state == BlockedTimeout ==> threads[id].value.ipcError == IPC_TIMEOUT)
  }

  lemma DormantStep(s: Sched, op: Op, idle: nat, s': Sched, id: nat, state: ThreadState, deadline: nat)
    requires Good(s, idle) && Step(s, op, idle, s') && id < MAX_THREADS
    requires state in {Sleeping, BlockedTimeout} && Dormant(s.threads, id, state, deadline)
    requires state == Sleeping || op != OpUnblock(id)
    ensures if op == OpTick && deadline != 0 && s.tickCount + 1 >= deadline
            then Woken(s'.threads, id, state)
            else Dormant(s'.threads, id, state, deadline)
  {
    hide Apply, DoSchedule, Preempt, PreemptIfOutranked, TimeSlice, AfterWakeups;
    StepSlot(s, op, idle, s', id);
    assert ThreadOk(s.threads[id].value, s.tickCount);
  }

  function Later(a: nat, b: nat): nat {
    if a < b then b else a
  }

  /** The tick at which a wait of `ticks` ticks begun at tick `start` is over. */
  function Due(start: nat, ticks: nat): nat {
    start + Later(ticks, 1)
  }

  ghost predicate GoesDormant(s: Sched, op: Op, state: ThreadState, ticks: nat) {
    || (state == Sleeping && op == OpSleep(ticks))
    || (state == BlockedTimeout && op == OpBlock(Some(ticks)))
  }

  lemma DormantStart(s: Sched, op: Op, idle: nat, s': Sched, state: ThreadState, ticks: nat)
    requires Good(s, idle) && Step(s, op, idle, s') && GoesDormant(s, op, state, ticks)
    ensures Dormant(s'.threads, s.current, state, s.tickCount + ticks) && s'.tickCount == s.tickCount
  {
    hide Apply, DoSchedule, Preempt, PreemptIfOutranked, TimeSlice, AfterWakeups;
    StepSlot(s, op, idle, s', s.current);
    StepClock(s, op, idle, s');
  }

  /** A thread that sleeps, or blocks with a timeout, for `ticks` ticks at tick `start` stays
      dormant in every state before tick `Due(start, ticks)` and is awake in the first state
      that has reached it, unless `unblock_thread` ends an IPC wait first. The exception is
      deadline 0, that is zero ticks at tick 0: such a thread never wakes by itself. */
  lemma {:induction false} DeadlineExact(states: seq<Sched>, ops: seq<Op>, idle: nat, state: ThreadState, ticks: nat, k: nat)
    requires Run(states, ops, idle) && Good(states[0], idle) && 0 < k <= |ops|
    requires GoesDormant(states[0], ops[0], state, ticks)
    requires state == Sleeping || OpUnblock(states[0].current) !in ops
    ensures Good(states[k], idle)
    ensures var id, start := states[0].current, states[0].tickCount;
            && states[k].tickCount >= start
            && (start + ticks == 0 || states[k].tickCount < Due(start, ticks) ==>
                  Dormant(states[k].threads, id, state, start + ticks))
            && (start + ticks > 0 && states[k - 1].tickCount < Due(start, ticks) <= states[k].tickCount ==>
                  Woken(states[k].threads, id, state))
  {
    var id, deadline := states[0].current, states[0].tickCount + ticks;
    assert Step(states[k - 1], ops[k - 1], idle, states[k]);
    if k == 1 {
      StepKeepsGood(states[0], ops[0], idle);
      DormantStart(states[0], ops[0], idle, states[1], state, ticks);
    } else {
      DeadlineExact(states, ops, idle, state, ticks, k - 1);
      StepKeepsGood(states[k - 1], ops[k - 1], idle);
      StepClock(states[k - 1], ops[k - 1], idle, states[k]);
      if deadline == 0 || states[k - 1].tickCount < Due(states[0].tickCount, ticks) {
        DormantStep(states[k - 1], ops[k - 1], idle, states[k], id, state, deadline);
      }
    }
  }
}
