/** Who runs next and for how long: exactly when a yield, a slice's end or a tick hands over,
    and a bound in ticks on how long a Ready thread waits. */
module SchedulerFairness {
  import opened Common
  import opened Masks
  import opened SchedulerSpec
  import opened SchedulerInvariant
  import opened SchedulerRuns

  /** Thread `j` is Ready, at priority `p` or better. */
  predicate RivalAt(threads: Table, j: nat, p: nat) {
    InState(threads, j, Ready) && threads[j].value.priority <= p
  }

  predicate AnyRival(threads: Table, p: nat) {
    exists j | 0 <= j < |threads| :: RivalAt(threads, j, p)
  }

  /** The priority of the running thread. */
  function RunningPriority(s: Sched): nat
    requires CurrentRunning(s)
  {
    s.threads[s.current].value.priority
  }

  // ---- Handing over ----

  /** The thread just demoted is the last one its own priority's scan comes to. */
  lemma PeerComesFirst(s: Sched, j: nat, p: nat)
    requires Shape(s) && s.current < MAX_THREADS && ReadyAt(s.threads, s.current, p) && ReadyAt(s.threads, j, p)
    requires s.ready != {} && Lowest(s.ready) == p && s.cursor[p] == s.current && j != s.current
    ensures PickNext(s).Some? && PickNext(s).value != s.current
  {
    hide PickNext;
    PickIsNearest(s, j);
  }

  /** Demoting the running thread and picking again hands over if and only if another thread
      is Ready at its priority or better. */
  lemma DemotedHandsOverIff(s: Sched, mode: SwitchMode)
    requires Inv(s) && s.started
    ensures DoSchedule(DemoteCurrent(s), mode).Done?
    ensures var s' := DoSchedule(DemoteCurrent(s), mode).value;
            && (s'.current != s.current <==> AnyRival(s.threads, RunningPriority(s)))
            && (s'.current == s.current ==> s'.threads[s.current] == s.threads[s.current])
  {
    hide PickNext;
    var d, p := DemoteCurrent(s), RunningPriority(s);
    DemotedIsReschedulable(s);
    DoScheduleKeepsInv(d, mode);
    var low := Lowest(d.ready);
    assert AnyReady(d.threads, low);
    var i :| 0 <= i < |d.threads| && ReadyAt(d.threads, i, low);
    PickIsNearest(d, i);
    var next := PickNext(d).value;
    assert next != s.current ==> RivalAt(s.threads, next, p);
    if j :| 0 <= j < |s.threads| && RivalAt(s.threads, j, p) {
      assert j != s.current;
      assert d.threads[j] == s.threads[j];
      if low == p {
        PeerComesFirst(d, j, p);
      }
    }
  }

  lemma PreemptIsDemotion(s: Sched)
    requires Inv(s) && s.started
    ensures Preempt(s) == DoSchedule(DemoteCurrent(s), FromIsr)
  {
    assert s.ready + {RunningPriority(s)} == s.ready;
  }

  /** `thread_yield` hands over if and only if another thread is Ready at the caller's priority
      or better. */
  lemma YieldHandsOverIff(s: Sched)
    requires Inv(s) && s.started
    ensures Yield(s).Done?
    ensures Yield(s).value.current != s.current <==> AnyRival(s.threads, RunningPriority(s))
  {
    DemotedHandsOverIff(s, FromThread);
  }

  /** Some thread is Ready at a strictly better priority than `p`. */
  predicate AnyOutranks(threads: Table, p: nat) {
    exists j | 0 <= j < |threads| :: InState(threads, j, Ready) && threads[j].value.priority < p
  }

  /** A slice that ends goes to another thread if and only if one is Ready at the running
      thread's priority or better; otherwise the thread goes on with a full slice. */
  lemma SliceEndHandsOverIff(s: Sched)
    requires Inv(s) && s.started && s.threads[s.current].value.tick <= 1
    ensures TimeSlice(s).Done?
    ensures var s', t := TimeSlice(s).value, s.threads[s.current].value;
            && (s'.current != s.current <==> AnyRival(s.threads, t.priority))
            && (s'.current == s.current ==> s'.threads[s.current] == Some(t.(tick := t.initTick)))
  {
    hide DoSchedule, Preempt, AnyRival, Inv;
    CurrentRuns(s);
    var t := s.threads[s.current].value.(tick := s.threads[s.current].value.initTick);
    var s1 := Put(s, s.current, t);
    RetouchKeepsInv(s, s.current, t);
    OthersAsBefore(s, t);
    PreemptIsDemotion(s1);
    DemotedHandsOverIff(s1, FromIsr);
  }

  /** Before its end only a strictly better thread takes over; otherwise the same thread goes
      on with one tick less. */
  lemma SliceGoesOnIff(s: Sched)
    requires Inv(s) && s.started && s.threads[s.current].value.tick > 1
    ensures TimeSlice(s).Done?
    ensures var s', t := TimeSlice(s).value, s.threads[s.current].value;
            && (s'.current != s.current <==> AnyOutranks(s.threads, t.priority))
            && (s'.current == s.current ==> s'.threads[s.current] == Some(t.(tick := t.tick - 1)))
  {
    hide DoSchedule, Preempt, AnyRival, AnyOutranks, Inv, LowestFrom;
    CurrentRuns(s);
    var t := s.threads[s.current].value.(tick := s.threads[s.current].value.tick - 1);
    var s1 := Put(s, s.current, t);
    RetouchKeepsInv(s, s.current, t);
    OthersAsBefore(s, t);
    PreemptIsDemotion(s1);
    DemotedHandsOverIff(s1, FromIsr);
    LowestIsBest(s1);
  }

  lemma CurrentRuns(s: Sched)
    requires Inv(s) && s.started
    ensures Shape(s) && CurrentRunning(s) && s.current < MAX_THREADS
  {
  }

  lemma OthersAsBefore(s: Sched, t: Thread)
    requires CurrentRunning(s) && t.state == Running && t.priority == RunningPriority(s)
    ensures AnyRival(Put(s, s.current, t).threads, t.priority) <==> AnyRival(s.threads, t.priority)
    ensures AnyOutranks(Put(s, s.current, t).threads, t.priority) <==> AnyOutranks(s.threads, t.priority)
  {
    var s1 := Put(s, s.current, t);
    assert forall j | 0 <= j < |s.threads| :: InState(s1.threads, j, Ready) == InState(s.threads, j, Ready);
    assert forall j | 0 <= j < |s.threads| :: RivalAt(s1.threads, j, t.priority) <==> RivalAt(s.threads, j, t.priority);
  }

  /** The lowest set bit is below the running priority if and only if somebody outranks. */
  lemma LowestIsBest(s: Sched)
    requires Inv(s) && s.started
    ensures s.ready != {}
    ensures Lowest(s.ready) < RunningPriority(s) <==> AnyOutranks(s.threads, RunningPriority(s))
    ensures Lowest(s.ready) < RunningPriority(s) ==> AnyRival(s.threads, RunningPriority(s))
  {
    hide LowestFrom;
    var low := Lowest(s.ready);
    if low < RunningPriority(s) {
      assert AnyReady(s.threads, low);
      var i :| 0 <= i < |s.threads| && ReadyAt(s.threads, i, low);
      assert InState(s.threads, i, Ready) && RivalAt(s.threads, i, RunningPriority(s));
    }
  }

  // ---- The tick ----

  /** Thread `j` is Ready now, or woken by the next tick. */
  predicate ReadyNext(s: Sched, j: nat) {
    InState(s.threads, j, Ready) || (Occupied(s.threads, j) && Expired(s.threads[j].value, s.tickCount + 1))
  }

  /** A tick hands over if and only if, counting the threads it wakes, another one is Ready: at
      the running thread's priority or better when its slice ends, strictly better before. */
  lemma TickHandsOverIff(s: Sched)
    requires Inv(s) && s.started
    ensures Tick(s).Done?
    ensures var s', t := Tick(s).value, s.threads[s.current].value;
            && (s'.current != s.current <==>
                  exists j | 0 <= j < |s.threads| :: ReadyNext(s, j) &&
                    if t.tick <= 1 then s.threads[j].value.priority <= t.priority else s.threads[j].value.priority < t.priority)
            && (s'.current == s.current ==>
                  s'.threads[s.current] == Some(t.(tick := if t.tick <= 1 then t.initTick else t.tick - 1)))
  {
    hide TimeSlice, Inv;
    CurrentRuns(s);
    AfterWakeupsKeepsInv(s);
    AfterWakeupsIsWakeExpired(s);
    var w, t := AfterWakeups(s), s.threads[s.current].value;
    assert w.threads[s.current] == s.threads[s.current] && w.current == s.current && w.started;
    WokenRivals(s, w, t.priority);
    if t.tick <= 1 {
      SliceEndHandsOverIff(w);
    } else {
      SliceGoesOnIff(w);
    }
  }

  lemma WokenRivals(s: Sched, w: Sched, p: nat)
    requires Shape(s) && w == WakeExpired(s.(tickCount := s.tickCount + 1), MAX_THREADS)
    ensures AnyRival(w.threads, p) <==> exists j | 0 <= j < |s.threads| :: ReadyNext(s, j) && s.threads[j].value.priority <= p
    ensures AnyOutranks(w.threads, p) <==> exists j | 0 <= j < |s.threads| :: ReadyNext(s, j) && s.threads[j].value.priority < p
  {
    forall j | 0 <= j < |s.threads|
      ensures InState(w.threads, j, Ready) <==> ReadyNext(s, j)
      ensures InState(w.threads, j, Ready) ==> w.threads[j].value.priority == s.threads[j].value.priority
      ensures RivalAt(w.threads, j, p) <==> ReadyNext(s, j) && s.threads[j].value.priority <= p
    {
      assert w.threads[j] == WakeSlot(s.(tickCount := s.tickCount + 1), j);
    }
  }

  // ---- The slice counters ----

  lemma DoScheduleTicks(s: Sched, mode: SwitchMode, i: nat)
    requires Shape(s) && DoSchedule(s, mode).Done? && Occupied(s.threads, i)
    ensures Occupied(DoSchedule(s, mode).value.threads, i)
    ensures DoSchedule(s, mode).value.threads[i].value.tick == s.threads[i].value.tick
  {
    hide PickNext;
  }

  lemma PreemptTicks(s: Sched, i: nat)
    requires Shape(s) && s.current < MAX_THREADS && Preempt(s).Done? && Occupied(s.threads, i)
    ensures Occupied(Preempt(s).value.threads, i)
    ensures Preempt(s).value.threads[i].value.tick == s.threads[i].value.tick
  {
    hide DoSchedule;
    var s1 := if CurrentRunning(s)
              then DemoteCurrent(s).(ready := s.ready + {s.threads[s.current].value.priority})
              else s;
    DoScheduleTicks(s1, FromIsr, i);
  }

  /** What one tick leaves of a slice. */
  function Charged(t: Thread): nat {
    if t.tick <= 1 then t.initTick else t.tick - 1
  }

  lemma TimeSliceTicks(s: Sched, i: nat)
    requires Shape(s) && CurrentRunning(s) && TimeSlice(s).Done? && Occupied(s.threads, i)
    ensures Occupied(TimeSlice(s).value.threads, i)
    ensures TimeSlice(s).value.threads[i].value.tick
         == if i == s.current then Charged(s.threads[i].value) else s.threads[i].value.tick
  {
    hide Preempt;
    var t := s.threads[s.current].value;
    var s1 := Put(s, s.current, t.(tick := Charged(t)));
    if TimeSlice(s).value != s1 {
      PreemptTicks(s1, i);
    }
  }

  lemma TickTicks(s: Sched, i: nat)
    requires Inv(s) && s.started && Occupied(s.threads, i)
    ensures Tick(s).Done? && Occupied(Tick(s).value.threads, i)
    ensures Tick(s).value.threads[i].value.tick
         == if i == s.current then Charged(s.threads[i].value) else s.threads[i].value.tick
  {
    hide TimeSlice, Inv;
    CurrentRuns(s);
    TickKeepsInv(s);
    AfterWakeupsIsWakeExpired(s);
    var w := AfterWakeups(s);
    assert w.threads[i] == WakeSlot(s.(tickCount := s.tickCount + 1), i);
    assert w.threads[s.current] == s.threads[s.current] && w.current == s.current;
    TimeSliceTicks(w, i);
  }

  /** Only the tick charges a slice, and only the running thread's. */
  lemma StepTicks(s: Sched, op: Op, idle: nat, s': Sched, i: nat)
    requires Good(s, idle) && Step(s, op, idle, s') && Occupied(s.threads, i)
    ensures Occupied(s'.threads, i)
    ensures s'.threads[i].value.priority == s.threads[i].value.priority
    ensures s'.threads[i].value.initTick == s.threads[i].value.initTick
    ensures s'.threads[i].value.tick
         == if op == OpTick && i == s.current then Charged(s.threads[i].value) else s.threads[i].value.tick
  {
    hide Apply, Good, Inv;
    StepKeepsSlice(s, op, idle, s', i);
    if op == OpTick {
      TickCharges(s, idle, s', i);
    } else {
      CallerIsThere(s, idle);
      ThreadCallTicks(s, op, i);
    }
  }

  lemma TickCharges(s: Sched, idle: nat, s': Sched, i: nat)
    requires Good(s, idle) && Step(s, OpTick, idle, s') && Occupied(s.threads, i)
    ensures Occupied(s'.threads, i)
    ensures s'.threads[i].value.tick == if i == s.current then Charged(s.threads[i].value) else s.threads[i].value.tick
  {
    hide Tick, Inv, Charged;
    TickTicks(s, i);
  }

  lemma StepKeepsSlice(s: Sched, op: Op, idle: nat, s': Sched, i: nat)
    requires Good(s, idle) && Step(s, op, idle, s') && Occupied(s.threads, i)
    ensures Occupied(s'.threads, i)
    ensures s'.threads[i].value.priority == s.threads[i].value.priority
    ensures s'.threads[i].value.initTick == s.threads[i].value.initTick
  {
    hide Apply, Inv;
    StepSlot(s, op, idle, s', i);
  }

  lemma CallerIsThere(s: Sched, idle: nat)
    requires Good(s, idle)
    ensures s.started ==> Occupied(s.threads, s.current)
  {
  }

  /** A call from a thread leaves every slice counter alone. */
  lemma ThreadCallTicks(s: Sched, op: Op, i: nat)
    requires Shape(s) && Occupied(s.threads, i) && op != OpTick && (op.OpUnblock? ==> op.id < MAX_THREADS)
    requires (s.started ==> Occupied(s.threads, s.current)) && (op.OpSleep? || op.OpBlock? ==> s.started)
    requires Apply(s, op).Done?
    ensures Occupied(Apply(s, op).value.threads, i)
    ensures Apply(s, op).value.threads[i].value.tick == s.threads[i].value.tick
  {
    hide DoSchedule, PickNext, ClearReadyIfEmpty;
    match op
    case OpCreate(_, _) =>
    case OpStart =>
    case OpYield => DoScheduleTicks(DemoteCurrent(s), FromThread, i);
    case OpSleep(ticks) => LeavingTicks(s, SleepingThread(s, s.threads[s.current].value, ticks), i);
    case OpBlock(timeout) => LeavingTicks(s, BlockedThread(s, s.threads[s.current].value, timeout), i);
    case OpUnblock(_) =>
  }

  lemma LeavingTicks(s: Sched, t: Thread, i: nat)
    requires Shape(s) && Occupied(s.threads, i) && Occupied(s.threads, s.current)
    requires t.priority < MAX_PRIORITY && t.tick == s.threads[s.current].value.tick
    requires DoSchedule(Suspended(s, t), FromThread).Done?
    ensures Occupied(DoSchedule(Suspended(s, t), FromThread).value.threads, i)
    ensures DoSchedule(Suspended(s, t), FromThread).value.threads[i].value.tick == s.threads[i].value.tick
  {
    hide DoSchedule;
    DoScheduleTicks(Suspended(s, t), FromThread, i);
  }

  // ---- Runs ----

  function Ticks(ops: seq<Op>): (n: nat)
    ensures n <= |ops|
  {
    if ops == [] then 0 else Ticks(ops[..|ops| - 1]) + if ops[|ops| - 1] == OpTick then 1 else 0
  }

  /** Thread `id` runs while thread `peer` is Ready at the same priority. */
  ghost predicate PeerWaits(s: Sched, id: nat, peer: nat) {
    s.started && s.current == id && peer != id && Occupied(s.threads, id) && ReadyAt(s.threads, peer, s.threads[id].value.priority)
  }

  /** However long a thread keeps the processor before a Ready peer: the ticks it is charged
      come out of its slice, and never all of it. */
  lemma {:induction false} PeerWaitsOneSlice(states: seq<Sched>, ops: seq<Op>, idle: nat, id: nat, peer: nat)
    requires Run(states, ops, idle) && Good(states[0], idle)
    requires forall k | 0 <= k < |states| :: PeerWaits(states[k], id, peer)
    ensures Good(states[|ops|], idle) && PeerWaits(states[0], id, peer) && PeerWaits(states[|ops|], id, peer)
    ensures states[|ops|].threads[id].value.tick + Ticks(ops) == states[0].threads[id].value.tick
    ensures Ticks(ops) > 0 ==> Ticks(ops) < states[0].threads[id].value.tick
  {
    hide Inv, Step;
    var n := |ops|;
    if n > 0 {
      PeerWaitsOneSlice(states[..n], ops[..n - 1], idle, id, peer);
      assert Step(states[n - 1], ops[n - 1], idle, states[n]) && PeerWaits(states[n - 1], id, peer) && PeerWaits(states[n], id, peer);
      PeerStep(states[n - 1], ops[n - 1], idle, states[n], id, peer);
    }
  }

  lemma PeerStep(s: Sched, op: Op, idle: nat, s': Sched, id: nat, peer: nat)
    requires Good(s, idle) && Step(s, op, idle, s') && PeerWaits(s, id, peer) && PeerWaits(s', id, peer)
    ensures Good(s', idle)
    ensures s'.threads[id].value.tick + (if op == OpTick then 1 else 0) == s.threads[id].value.tick
    ensures op == OpTick ==> s'.threads[id].value.tick > 0
  {
    hide Inv, Tick;
    StepKeepsGood(s, op, idle);
    StepTicks(s, op, idle, s', id);
    if op == OpTick {
      TickHandsOverIff(s);
      assert ReadyNext(s, peer);
    }
  }

  /** The ticks of a run that are charged to threads of priority `p`. */
  function TicksAt(states: seq<Sched>, ops: seq<Op>, p: nat): nat
    requires |states| == |ops| + 1
  {
    if ops == [] then 0
    else
      var n := |ops| - 1;
      TicksAt(states[..n + 1], ops[..n], p) + if ops[n] == OpTick && RunsAt(states[n], p) then 1 else 0
  }

  predicate RunsAt(s: Sched, p: nat) {
    CurrentRunning(s) && RunningPriority(s) == p
  }

  /** No slice is longer than `m` ticks. */
  ghost predicate SlicesWithin(s: Sched, m: nat) {
    forall i | 0 <= i < |s.threads| && s.threads[i].Some? :: s.threads[i].value.tick <= m && s.threads[i].value.initTick <= m
  }

  lemma SlicesStayWithin(s: Sched, op: Op, idle: nat, s': Sched, m: nat)
    requires Good(s, idle) && Step(s, op, idle, s') && SlicesWithin(s, m) && (op.OpCreate? ==> op.tick <= m)
    ensures SlicesWithin(s', m)
  {
    hide Good, Inv, Step;
    StepIsShaped(s, op, idle, s');
    forall i | 0 <= i < |s'.threads| && s'.threads[i].Some?
      ensures s'.threads[i].value.tick <= m && s'.threads[i].value.initTick <= m
    {
      if s.threads[i].Some? {
        StepTicks(s, op, idle, s', i);
      } else {
        NewSlice(s, op, idle, s', i);
      }
    }
  }

  lemma StepIsShaped(s: Sched, op: Op, idle: nat, s': Sched)
    requires Good(s, idle) && Step(s, op, idle, s')
    ensures |s.threads| == |s'.threads| == MAX_THREADS
  {
    hide Apply;
  }

  lemma NewSlice(s: Sched, op: Op, idle: nat, s': Sched, i: nat)
    requires Good(s, idle) && Step(s, op, idle, s') && i < MAX_THREADS && s.threads[i].None? && s'.threads[i].Some?
    ensures op.OpCreate? && s'.threads[i].value.tick == op.tick && s'.threads[i].value.initTick == op.tick
  {
    hide Apply;
    StepSlot(s, op, idle, s', i);
    if op.OpCreate? {
      assert s' == Create(s, op.priority, op.tick).0 by { CreateIs(s, op, idle, s'); }
    }
  }

  lemma CreateIs(s: Sched, op: Op, idle: nat, s': Sched)
    requires Step(s, op, idle, s') && op.OpCreate?
    ensures Shape(s) && s' == Create(s, op.priority, op.tick).0
  {
  }

  /** The ticks still to be charged at priority `p` before thread `id` is picked, at most: a
      slice for each thread the scan meets before it, and what is left of the running one's. */
  function Load(s: Sched, p: nat, id: nat, m: nat): nat
    requires Shape(s) && p < MAX_PRIORITY && id < MAX_THREADS
  {
    Times(Wait(s.cursor, p, id), m)
    + if !RunsAt(s, p) then 0 else if s.threads[s.current].value.tick == 0 then 1 else s.threads[s.current].value.tick
  }

  function Times(w: nat, m: nat): nat {
    w * m
  }

  lemma OneTimesLess(w: nat, v: nat, m: nat)
    requires v < w
    ensures Times(v, m) + m <= Times(w, m)
  {
    assert (v + 1) * m <= w * m by { Monotone(v + 1, w, m); }
  }

  lemma Monotone(a: nat, b: nat, m: nat)
    requires a <= b
    ensures a * m <= b * m
  {
  }

  lemma LoadFalls(s: Sched, op: Op, idle: nat, s': Sched, p: nat, id: nat, m: nat)
    requires Good(s, idle) && Step(s, op, idle, s') && m > 0 && SlicesWithin(s', m)
    requires id < MAX_THREADS && p < MAX_PRIORITY && ReadyAt(s.threads, id, p) && ReadyAt(s'.threads, id, p)
    ensures Shape(s) && Shape(s')
    ensures Load(s', p, id, m) + (if op == OpTick && RunsAt(s, p) then 1 else 0) <= Load(s, p, id, m)
  {
    hide Inv, Apply, Times, Wait;
    StepPasses(s, op, idle, s', p, id);
    StepHolders(s, op, idle, s');
    if PickedAt(s, s', p) {
      OneTimesLess(Wait(s.cursor, p, id), Wait(s'.cursor, p, id), m);
    } else if RunsAt(s', p) {
      StepTicks(s, op, idle, s', s.current);
      if op == OpTick {
        ChargedOnTheSpot(s, op, idle, s', p, id);
      }
    }
  }

  /** Without a hand-over the running thread is the same. */
  lemma StepHolders(s: Sched, op: Op, idle: nat, s': Sched)
    requires Good(s, idle) && Step(s, op, idle, s')
    ensures s'.handoffs == s.handoffs ==> s'.current == s.current
    ensures s'.current == s.current && CurrentRunning(s') ==> CurrentRunning(s)
  {
    hide Apply;
    StepKeepsGood(s, op, idle);
  }

  lemma ChargedOnTheSpot(s: Sched, op: Op, idle: nat, s': Sched, p: nat, id: nat)
    requires Good(s, idle) && Step(s, op, idle, s') && op == OpTick && s'.current == s.current && RunsAt(s, p)
    requires ReadyAt(s.threads, id, p)
    ensures s.threads[s.current].value.tick > 1
  {
    hide Inv, Tick;
    TickHandsOverIff(s);
    assert ReadyNext(s, id);
  }

  /** No starvation among equals: while a thread stays Ready at priority `p`, whatever else
      happens, no more than 32 slices' worth of ticks are charged to threads of it. */
  lemma {:induction false} ReadyRunsWithin(states: seq<Sched>, ops: seq<Op>, idle: nat, p: nat, id: nat, m: nat)
    requires Run(states, ops, idle) && Good(states[0], idle) && id < MAX_THREADS && p < MAX_PRIORITY && m > 0
    requires SlicesWithin(states[0], m) && forall k | 0 <= k < |ops| && ops[k].OpCreate? :: ops[k].tick <= m
    requires forall k | 0 <= k < |states| :: ReadyAt(states[k].threads, id, p)
    ensures Good(states[|ops|], idle) && SlicesWithin(states[|ops|], m) && Shape(states[0]) && Shape(states[|ops|])
    ensures TicksAt(states, ops, p) + Load(states[|ops|], p, id, m) <= Load(states[0], p, id, m)
    ensures TicksAt(states, ops, p) <= 32 * m
  {
    hide Inv, Apply, Load;
    var n := |ops|;
    if n > 0 {
      ReadyRunsWithin(states[..n], ops[..n - 1], idle, p, id, m);
      assert Step(states[n - 1], ops[n - 1], idle, states[n]);
      StepKeepsGood(states[n - 1], ops[n - 1], idle);
      SlicesStayWithin(states[n - 1], ops[n - 1], idle, states[n], m);
      LoadFalls(states[n - 1], ops[n - 1], idle, states[n], p, id, m);
    }
    GoodIsShaped(states[0], idle);
    LoadIsBounded(states[0], p, id, m);
  }

  lemma GoodIsShaped(s: Sched, idle: nat)
    requires Good(s, idle)
    ensures Shape(s)
  {
  }

  lemma LoadIsBounded(s: Sched, p: nat, id: nat, m: nat)
    requires Shape(s) && p < MAX_PRIORITY && id < MAX_THREADS && SlicesWithin(s, m) && m > 0
    ensures Load(s, p, id, m) <= 32 * m
  {
    hide Wait;
    Monotone(Wait(s.cursor, p, id), 31, m);
  }
}
