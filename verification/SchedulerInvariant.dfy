/** What every run of the scheduler keeps: one running thread, a bitmap that never hides
    a runnable thread, no panic, exact deadlines. */
module SchedulerInvariant {
  import opened Common
  import opened Masks
  import opened SchedulerSpec

  // ---- The invariant ----

  ghost predicate BitsCoverReady(threads: Table, ready: Mask) {
    forall i | 0 <= i < |threads| && threads[i].Some? && threads[i].value.state == Ready :: threads[i].value.priority in ready
  }

  ghost predicate BitsExact(threads: Table, ready: Mask) {
    && BitsCoverReady(threads, ready)
    && forall p | p in ready :: AnyReady(threads, p)
  }

  /** A set bit with no Ready thread can only be the Running thread's priority. */
  ghost predicate BitsJustified(s: Sched) {
    && BitsCoverReady(s.threads, s.ready)
    && forall p | p in s.ready :: AnyReady(s.threads, p) || (CurrentRunning(s) && s.threads[s.current].value.priority == p)
  }

  ghost predicate NoneRunningBut(threads: Table, id: nat) {
    forall i | 0 <= i < |threads| && i != id && threads[i].Some? :: threads[i].value.state != Running
  }

  ghost predicate AllReady(threads: Table) {
    forall i | 0 <= i < |threads| && threads[i].Some? :: threads[i].value.state == Ready
  }

  ghost predicate CurrentOk(s: Sched)
    requires Shape(s)
  {
    if s.started then
      && CurrentRunning(s)
      && NoneRunningBut(s.threads, s.current)
      && s.threads[s.current].value.priority in s.ready
      && s.cursor[s.threads[s.current].value.priority] == s.current
    else
      && s.current == NULL_ID
      && AllReady(s.threads)
  }

  /** The IPC fields agree with the state, and a pending deadline is not in the past. */
  ghost predicate ThreadOk(t: Thread, now: nat) {
    && (t.isIpcWait ==> t.state == Blocked || t.state == BlockedTimeout)
    && (t.state == BlockedTimeout ==> t.isIpcWait)
    && (t.isIpcWait ==> t.ipcError == IPC_WAIT_SENTINEL)
    && (t.state == Sleeping || t.state == BlockedTimeout ==> t.sleepUntil == 0 || t.sleepUntil >= now)
  }

  ghost predicate ThreadsOk(threads: Table, now: nat) {
    forall i | 0 <= i < |threads| && threads[i].Some? :: ThreadOk(threads[i].value, now)
  }

  function Tally(threads: Table): nat {
    if threads == [] then 0 else Tally(threads[..|threads| - 1]) + if threads[|threads| - 1].Some? then 1 else 0
  }

  /** Who runs after a sequence of hand-offs. */
  function Holder(handoffs: seq<Handoff>): nat {
    if |handoffs| == 0 then NULL_ID else handoffs[|handoffs| - 1].to
  }

  /** Each hand-off leaves from the thread the previous one arrived at. */
  ghost predicate LinkOk(handoffs: seq<Handoff>, k: nat)
    requires k < |handoffs|
  {
    && handoffs[k].to < MAX_THREADS
    && if k == 0 then handoffs[k].First?
       else !handoffs[k].First? && handoffs[k].from == handoffs[k - 1].to && handoffs[k].to != handoffs[k].from
  }

  ghost predicate Chained(handoffs: seq<Handoff>) {
    forall k | 0 <= k < |handoffs| :: LinkOk(handoffs, k)
  }

  ghost predicate Bookkeeping(s: Sched) {
    && s.count == Tally(s.threads)
    && Chained(s.handoffs)
    && Holder(s.handoffs) == s.current
  }

  ghost predicate Inv(s: Sched) {
    && Shape(s)
    && BitsJustified(s)
    && CurrentOk(s)
    && ThreadsOk(s.threads, s.tickCount)
    && Bookkeeping(s)
  }

  /** The idle thread: it is created before the start and never leaves Ready or Running. */
  ghost predicate IdleAlive(threads: Table, idle: nat) {
    InState(threads, idle, Ready) || InState(threads, idle, Running)
  }

  ghost predicate NoReadyOutranks(s: Sched) {
    && CurrentRunning(s)
    && forall i | 0 <= i < |s.threads| && s.threads[i].Some? && s.threads[i].value.state == Ready ::
         s.threads[s.current].value.priority <= s.threads[i].value.priority
  }

  // ---- Cyclic search ----

  /** How many slots after `start` the slot `id` comes, going round the table. */
  function Distance(start: nat, id: nat): (d: nat)
    requires start < MAX_THREADS && id < MAX_THREADS
    ensures d < MAX_THREADS
  {
    if id >= start then id - start else id + MAX_THREADS - start
  }

  lemma {:induction false} ScanFindsNearest(threads: Table, p: nat, idx: nat, n: nat, id: nat)
    requires idx < MAX_THREADS && id < MAX_THREADS
    requires ReadyAt(threads, id, p) && Distance(idx, id) < n
    ensures Scan(threads, p, idx, n).Some?
    ensures Distance(idx, Scan(threads, p, idx, n).value) <= Distance(idx, id)
    decreases n
  {
    if !ReadyAt(threads, idx, p) {
      var next := (idx + 1) % MAX_THREADS;
      assert Distance(next, id) == Distance(idx, id) - 1;
      ScanFindsNearest(threads, p, next, n - 1, id);
      var found := Scan(threads, p, next, n - 1).value;
      assert found != idx;
      assert Distance(next, found) == Distance(idx, found) - 1;
    }
  }

  /** `pick_next` returns a Ready thread of the best ready priority whenever the lowest set
      bit is backed by one, and no other Ready thread of that priority comes sooner. */
  lemma PickIsNearest(s: Sched, id: nat)
    requires Shape(s) && id < MAX_THREADS && s.ready != {} && ReadyAt(s.threads, id, Lowest(s.ready))
    ensures PickNext(s).Some?
    ensures ReadyAt(s.threads, PickNext(s).value, Lowest(s.ready))
    ensures Distance(ScanStart(s.cursor[Lowest(s.ready)]), PickNext(s).value)
         <= Distance(ScanStart(s.cursor[Lowest(s.ready)]), id)
  {
    var p := Lowest(s.ready);
    ScanFindsNearest(s.threads, p, ScanStart(s.cursor[p]), MAX_THREADS, id);
  }

  // ---- Rescheduling ----

  /** The state in which `do_schedule` is entered: nobody runs, and the bitmap is exact. */
  ghost predicate Reschedulable(s: Sched) {
    && Shape(s)
    && s.started
    && s.ready != {}
    && BitsExact(s.threads, s.ready)
    && NoneRunningBut(s.threads, NULL_ID)
    && Occupied(s.threads, s.current)
    && (InState(s.threads, s.current, Ready) ==> s.cursor[s.threads[s.current].value.priority] == s.current)
    && ThreadsOk(s.threads, s.tickCount)
    && Bookkeeping(s)
  }

  lemma {:induction false} TallyPut(threads: Table, id: nat, t: Thread)
    requires id < |threads|
    ensures Tally(threads[id := Some(t)]) == Tally(threads) + if threads[id].Some? then 0 else 1
  {
    var last := |threads| - 1;
    if id < last {
      TallyPut(threads[..last], id, t);
      assert threads[id := Some(t)][..last] == threads[..last][id := Some(t)];
    } else {
      assert threads[id := Some(t)][..last] == threads[..last];
    }
  }

  lemma ChainExtends(handoffs: seq<Handoff>, mode: SwitchMode, from: nat, to: nat)
    requires Chained(handoffs) && Holder(handoffs) == from && from < MAX_THREADS && to < MAX_THREADS && from != to
    ensures Chained(handoffs + [HandoffFor(mode, from, to)])
    ensures Holder(handoffs + [HandoffFor(mode, from, to)]) == to
  {
    var longer := handoffs + [HandoffFor(mode, from, to)];
    forall k | 0 <= k < |longer|
      ensures LinkOk(longer, k)
    {
      assert k < |handoffs| ==> LinkOk(handoffs, k) && longer[k] == handoffs[k];
    }
  }

  /** Replacing slot `id` keeps every other Ready thread where it was. */
  lemma OthersStayReady(threads: Table, id: nat, t: Thread, p: nat)
    requires id < |threads| && AnyReady(threads, p) && !ReadyAt(threads, id, p)
    ensures AnyReady(threads[id := Some(t)], p)
  {
    var i :| 0 <= i < |threads| && ReadyAt(threads, i, p);
    assert ReadyAt(threads[id := Some(t)], i, p);
  }

  lemma DispatchBits(s: Sched, next: nat)
    requires Shape(s) && BitsExact(s.threads, s.ready) && InState(s.threads, next, Ready)
    ensures BitsCoverReady(SetRunning(s, next).threads, s.ready)
    ensures forall p | p in s.ready :: AnyReady(SetRunning(s, next).threads, p) || p == s.threads[next].value.priority
  {
    var t := s.threads[next].value.(state := Running);
    forall p | p in s.ready && p != t.priority
      ensures AnyReady(SetRunning(s, next).threads, p)
    {
      OthersStayReady(s.threads, next, t, p);
    }
  }

  lemma DispatchKeepsInv(s: Sched, next: nat, mode: SwitchMode)
    requires Reschedulable(s)
    requires ReadyAt(s.threads, next, Lowest(s.ready))
    ensures var s1 := if next == s.current then SetRunning(s, next) else SwitchTo(s, next, mode);
            Inv(s1) && NoReadyOutranks(s1) && s1.started
  {
    DispatchBits(s, next);
    TallyPut(s.threads, next, s.threads[next].value.(state := Running));
    if next != s.current {
      ChainExtends(s.handoffs, mode, s.current, next);
    }
  }

  /** Rescheduling from such a state never panics and never comes back empty-handed. */
  lemma DoScheduleKeepsInv(s: Sched, mode: SwitchMode)
    requires Reschedulable(s)
    ensures PickNext(s).Some? && DoSchedule(s, mode).Done?
    ensures Inv(DoSchedule(s, mode).value) && NoReadyOutranks(DoSchedule(s, mode).value)
    ensures DoSchedule(s, mode).value.started
  {
    var p := Lowest(s.ready);
    assert AnyReady(s.threads, p);
    var id :| 0 <= id < |s.threads| && ReadyAt(s.threads, id, p);
    PickIsNearest(s, id);
    DispatchKeepsInv(s, PickNext(s).value, mode);
  }

  lemma DemotedIsReschedulable(s: Sched)
    requires Inv(s) && s.started
    ensures Reschedulable(DemoteCurrent(s))
  {
    var t := s.threads[s.current].value.(state := Ready);
    var s1 := DemoteCurrent(s);
    TallyPut(s.threads, s.current, t);
    assert ReadyAt(s1.threads, s.current, t.priority);
    forall p | p in s.ready
      ensures AnyReady(s1.threads, p)
    {
      if p != t.priority {
        OthersStayReady(s.threads, s.current, t, p);
      }
    }
  }

  /** A thread other than the idle thread leaves the ready set; the idle thread is still there. */
  lemma SuspendedIsReschedulable(s: Sched, t: Thread, idle: nat)
    requires Inv(s) && s.started && IdleAlive(s.threads, idle) && idle != s.current
    requires t.priority == s.threads[s.current].value.priority
    requires t.state != Ready && t.state != Running && ThreadOk(t, s.tickCount)
    ensures Reschedulable(Suspended(s, t))
  {
    var p := t.priority;
    var threads := s.threads[s.current := Some(t)];
    TallyPut(s.threads, s.current, t);
    assert ReadyAt(threads, idle, threads[idle].value.priority);
    assert AnyReady(threads, threads[idle].value.priority);
    forall q | q in s.ready && q != p
      ensures AnyReady(threads, q)
    {
      OthersStayReady(s.threads, s.current, t, q);
    }
    ClearedBitsExact(threads, s.ready, p);
  }

  lemma ClearedBitsExact(threads: Table, ready: Mask, p: nat)
    requires BitsCoverReady(threads, ready) && forall q | q in ready && q != p :: AnyReady(threads, q)
    ensures BitsExact(threads, if AnyReady(threads, p) then ready else ready - {p})
  {
    if !AnyReady(threads, p) {
      forall i | 0 <= i < |threads| && threads[i].Some? && threads[i].value.state == Ready
        ensures threads[i].value.priority in ready - {p}
      {
        assert !ReadyAt(threads, i, p);
      }
    }
  }

  lemma YieldKeepsInv(s: Sched)
    requires Inv(s) && s.started
    ensures Yield(s).Done? && Inv(Yield(s).value) && Yield(s).value.started && NoReadyOutranks(Yield(s).value)
  {
    DemotedIsReschedulable(s);
    DoScheduleKeepsInv(DemoteCurrent(s), FromThread);
  }

  lemma LeavingKeepsInv(s: Sched, t: Thread, idle: nat)
    requires Inv(s) && s.started && IdleAlive(s.threads, idle) && idle != s.current
    requires t.priority == s.threads[s.current].value.priority
    requires t.state != Ready && t.state != Running && ThreadOk(t, s.tickCount)
    ensures var r := DoSchedule(Suspended(s, t), FromThread);
            r.Done? && Inv(r.value) && r.value.started && NoReadyOutranks(r.value)
  {
    SuspendedIsReschedulable(s, t, idle);
    DoScheduleKeepsInv(Suspended(s, t), FromThread);
  }

  lemma SleepKeepsInv(s: Sched, ticks: nat, idle: nat)
    requires Inv(s) && s.started && IdleAlive(s.threads, idle) && idle != s.current
    ensures Sleep(s, ticks).Done? && Inv(Sleep(s, ticks).value)
    ensures Sleep(s, ticks).value.started && NoReadyOutranks(Sleep(s, ticks).value)
  {
    LeavingKeepsInv(s, SleepingThread(s, s.threads[s.current].value, ticks), idle);
  }

  lemma BlockKeepsInv(s: Sched, timeout: Option<nat>, idle: nat)
    requires Inv(s) && s.started && IdleAlive(s.threads, idle) && idle != s.current
    ensures BlockCurrent(s, timeout).Done? && Inv(BlockCurrent(s, timeout).value)
    ensures BlockCurrent(s, timeout).value.started && NoReadyOutranks(BlockCurrent(s, timeout).value)
  {
    LeavingKeepsInv(s, BlockedThread(s, s.threads[s.current].value, timeout), idle);
  }

  lemma CreateKeepsInv(s: Sched, priority: nat, tick: nat)
    requires Inv(s)
    ensures Inv(Create(s, priority, tick).0)
  {
    var free := FreeSlot(s, 0);
    if free.Some? {
      var t := NewThread(priority, tick);
      TallyPut(s.threads, free.value, t);
      BitsGrow(s, free.value, t);
    }
  }

  /** What a new thread is: Ready, at the given priority but 31 at most, with a full slice of
      `tick` ticks, waiting for nothing; nobody else changes. */
  lemma CreatedThread(s: Sched, priority: nat, tick: nat)
    requires Shape(s)
    ensures var (s', slot) := Create(s, priority, tick);
            && (slot.None? <==> forall j | 0 <= j < MAX_THREADS :: s.threads[j].Some?)
            && (forall j | 0 <= j < MAX_THREADS && slot != Some(j) :: s'.threads[j] == s.threads[j])
            && (slot.Some? ==>
                  && s.threads[slot.value].None? && (forall j | 0 <= j < slot.value :: s.threads[j].Some?)
                  && s'.threads[slot.value].Some?
                  && var t := s'.threads[slot.value].value;
                     && t.state == Ready && t.priority == (if priority <= 31 then priority else 31)
                     && t.tick == tick && t.initTick == tick && t.sleepUntil == 0 && !t.isIpcWait
                     && t.sigPending == {} && t.sigMask == {} && t.priority in s'.ready)
  {
    var free := FreeSlot(s, 0);
    assert free.None? ==> forall j | 0 <= j < MAX_THREADS :: s.threads[j].Some?;
  }

  /** Making slot `id` Ready and setting its bit, while the current thread stays put. */
  lemma BitsGrow(s: Sched, id: nat, t: Thread)
    requires Shape(s) && BitsJustified(s) && id < MAX_THREADS && !InState(s.threads, id, Running)
    requires (id != s.current || !CurrentRunning(s)) && !InState(s.threads, id, Ready)
    requires t.state == Ready && t.priority < MAX_PRIORITY
    ensures BitsJustified(Put(s, id, t).(ready := s.ready + {t.priority}))
  {
    var s1 := Put(s, id, t).(ready := s.ready + {t.priority});
    assert ReadyAt(s1.threads, id, t.priority);
    forall p | p in s.ready && AnyReady(s.threads, p)
      ensures AnyReady(s1.threads, p)
    {
      OthersStayReady(s.threads, id, t, p);
    }
  }

  lemma UnblockKeepsInv(s: Sched, id: nat)
    requires Inv(s) && id < MAX_THREADS
    ensures Inv(Unblock(s, id))
  {
    if s.threads[id].Some? && AwaitingIpc(s.threads[id].value) {
      var t := s.threads[id].value.(ipcError := IPC_OK, isIpcWait := false, sleepUntil := 0, state := Ready);
      TallyPut(s.threads, id, t);
      BitsGrow(s, id, t);
      assert Unblock(s, id) == Put(s, id, t).(ready := s.ready + {t.priority});
    }
  }

  /** `sched_start` panics exactly when nothing was created. */
  lemma StartKeepsInv(s: Sched)
    requires Inv(s) && !s.started
    ensures Start(s).Panic? <==> s.ready == {}
    ensures Start(s).Done? ==> Inv(Start(s).value) && Start(s).value.started && NoReadyOutranks(Start(s).value)
  {
    if s.ready != {} {
      var p := Lowest(s.ready);
      assert AnyReady(s.threads, p);
      var id :| 0 <= id < |s.threads| && ReadyAt(s.threads, id, p);
      PickIsNearest(s, id);
      StartDispatch(s, PickNext(s).value);
    }
  }

  lemma StartDispatch(s: Sched, next: nat)
    requires Inv(s) && !s.started && s.ready != {} && ReadyAt(s.threads, next, Lowest(s.ready))
    requires PickNext(s) == Some(next)
    ensures Inv(Start(s).value) && NoReadyOutranks(Start(s).value)
  {
    assert BitsExact(s.threads, s.ready);
    DispatchBits(s, next);
    TallyPut(s.threads, next, s.threads[next].value.(state := Running));
    FirstHandoff(s.handoffs, next);
  }

  lemma FirstHandoff(handoffs: seq<Handoff>, to: nat)
    requires Chained(handoffs) && Holder(handoffs) == NULL_ID && to < MAX_THREADS
    ensures Chained(handoffs + [First(to)]) && Holder(handoffs + [First(to)]) == to
  {
    assert |handoffs| > 0 ==> LinkOk(handoffs, |handoffs| - 1);
  }

  // ---- The tick ----

  lemma {:induction false} TallySame(a: Table, b: Table)
    requires |a| == |b| && forall i | 0 <= i < |a| :: a[i].Some? == b[i].Some?
    ensures Tally(a) == Tally(b)
  {
    if |a| > 0 {
      TallySame(a[..|a| - 1], b[..|b| - 1]);
    }
  }

  lemma WakeKeepsBits(s: Sched)
    requires Shape(s) && BitsJustified(s)
    ensures BitsJustified(WakeExpired(s, MAX_THREADS))
  {
    var r := WakeExpired(s, MAX_THREADS);
    forall p | p in r.ready && !(CurrentRunning(s) && s.threads[s.current].value.priority == p)
      ensures AnyReady(r.threads, p)
    {
      if AnyReady(s.threads, p) {
        var i :| 0 <= i < MAX_THREADS && ReadyAt(s.threads, i, p);
        assert ReadyAt(r.threads, i, p);
      } else {
        var i :| 0 <= i < MAX_THREADS && ExpiredAt(s, i) && s.threads[i].value.priority == p;
        assert ReadyAt(r.threads, i, p);
      }
    }
    forall i | 0 <= i < MAX_THREADS && r.threads[i].Some? && r.threads[i].value.state == Ready
      ensures r.threads[i].value.priority in r.ready
    {
      assert ExpiredAt(s, i) || s.threads[i].value.state == Ready;
    }
  }

  /** Waking the expired threads at the new tick count leaves only deadlines still to come. */
  lemma WakeKeepsThreads(threads: Table, s: Sched)
    requires s.threads == threads && Shape(s) && s.tickCount > 0 && ThreadsOk(threads, s.tickCount - 1)
    ensures ThreadsOk(WakeExpired(s, MAX_THREADS).threads, s.tickCount)
    ensures DeadlinesAhead(WakeExpired(s, MAX_THREADS).threads, s.tickCount)
  {
  }

  ghost predicate DeadlinesAhead(threads: Table, now: nat) {
    forall i | 0 <= i < |threads| && threads[i].Some? && threads[i].value.state in {Sleeping, BlockedTimeout} ::
      threads[i].value.sleepUntil == 0 || threads[i].value.sleepUntil > now
  }

  lemma WakeKeepsInv(s: Sched)
    requires Inv(s)
    ensures Inv(WakeExpired(s.(tickCount := s.tickCount + 1), MAX_THREADS))
  {
    var s1 := s.(tickCount := s.tickCount + 1);
    var r := WakeExpired(s1, MAX_THREADS);
    WakeKeepsBits(s1);
    WakeKeepsThreads(s.threads, s1);
    TallySame(s.threads, r.threads);
  }

  /** Rewriting fields of one thread that the invariant does not read. */
  lemma RetouchKeepsInv(s: Sched, id: nat, t: Thread)
    requires Inv(s) && Occupied(s.threads, id)
    requires t.(tick := 0, initTick := 0, sigPending := {}, sigMask := {})
          == s.threads[id].value.(tick := 0, initTick := 0, sigPending := {}, sigMask := {})
    ensures Inv(Put(s, id, t))
  {
    var s1 := Put(s, id, t);
    TallyPut(s.threads, id, t);
    forall p | p in s.ready && AnyReady(s.threads, p)
      ensures AnyReady(s1.threads, p)
    {
      var i :| 0 <= i < |s.threads| && ReadyAt(s.threads, i, p);
      assert ReadyAt(s1.threads, i, p);
    }
  }

  /** Taking the deliverable signals out and putting them back changes nothing. */
  lemma RearmIsIdentity(t: Thread)
    ensures RearmSignals(t) == t
  {
  }

  lemma AfterWakeupsIsWakeExpired(s: Sched)
    requires Shape(s)
    ensures AfterWakeups(s) == WakeExpired(s.(tickCount := s.tickCount + 1), MAX_THREADS)
  {
    var s1 := WakeExpired(s.(tickCount := s.tickCount + 1), MAX_THREADS);
    if Occupied(s1.threads, s1.current) {
      RearmIsIdentity(s1.threads[s1.current].value);
      assert s1.threads[s1.current := s1.threads[s1.current]] == s1.threads;
    }
  }

  lemma AfterWakeupsKeepsInv(s: Sched)
    requires Inv(s)
    ensures Inv(AfterWakeups(s)) && DeadlinesAhead(AfterWakeups(s).threads, s.tickCount + 1)
  {
    WakeKeepsInv(s);
    AfterWakeupsIsWakeExpired(s);
  }

  lemma PreemptKeepsInv(s: Sched)
    requires Inv(s) && s.started
    ensures Preempt(s).Done? && Inv(Preempt(s).value) && Preempt(s).value.started && NoReadyOutranks(Preempt(s).value)
  {
    DemotedIsReschedulable(s);
    var p := s.threads[s.current].value.priority;
    assert s.ready + {p} == s.ready;
    DoScheduleKeepsInv(DemoteCurrent(s), FromIsr);
  }

  lemma PreemptIfOutrankedKeepsInv(s: Sched)
    requires Inv(s) && s.started
    ensures PreemptIfOutranked(s).Done? && Inv(PreemptIfOutranked(s).value)
    ensures PreemptIfOutranked(s).value.started && NoReadyOutranks(PreemptIfOutranked(s).value)
  {
    if Lowest(s.ready) < CurrentPriority(s) {
      PreemptKeepsInv(s);
    }
  }

  /** A tick of a started scheduler never panics, keeps the invariant, leaves no Ready thread
      above the Running one, whoever was woken since the last tick, and leaves only deadlines
      still to come. */
  lemma TickKeepsInv(s: Sched)
    requires Inv(s) && s.started
    ensures Tick(s).Done? && Inv(Tick(s).value) && Tick(s).value.started && NoReadyOutranks(Tick(s).value)
    ensures DeadlinesAhead(Tick(s).value.threads, Tick(s).value.tickCount)
  {
    hide TimeSlice, AfterWakeups;
    AfterWakeupsKeepsInv(s);
    TimeSliceKeepsInv(AfterWakeups(s));
    TimeSliceKeepsDeadlines(AfterWakeups(s));
  }

  /** The time slice and the preemption check dispatch threads; they touch no sleeping one. */
  lemma TimeSliceKeepsDeadlines(s: Sched)
    requires Shape(s) && TimeSlice(s).Done? && DeadlinesAhead(s.threads, s.tickCount)
    ensures DeadlinesAhead(TimeSlice(s).value.threads, s.tickCount)
  {
    hide Preempt;
    var s1 := s;
    if CurrentRunning(s) {
      var t := s.threads[s.current].value;
      s1 := Put(s, s.current, t.(tick := if Decrement(t.tick) == 0 then t.initTick else t.tick - 1));
    }
    if TimeSlice(s).value != s1 {
      PreemptKeepsDeadlines(s1);
    }
  }

  lemma PreemptKeepsDeadlines(s: Sched)
    requires Shape(s) && s.current < MAX_THREADS && Preempt(s).Done? && DeadlinesAhead(s.threads, s.tickCount)
    ensures DeadlinesAhead(Preempt(s).value.threads, s.tickCount)
  {
    hide PickNext;
  }

  lemma TimeSliceKeepsInv(s: Sched)
    requires Inv(s) && s.started
    ensures TimeSlice(s).Done? && Inv(TimeSlice(s).value) && TimeSlice(s).value.started && NoReadyOutranks(TimeSlice(s).value)
  {
    var t := s.threads[s.current].value;
    if Decrement(t.tick) == 0 {
      RetouchKeepsInv(s, s.current, t.(tick := t.initTick));
      PreemptKeepsInv(Put(s, s.current, t.(tick := t.initTick)));
    } else {
      RetouchKeepsInv(s, s.current, t.(tick := t.tick - 1));
      PreemptIfOutrankedKeepsInv(Put(s, s.current, t.(tick := t.tick - 1)));
    }
  }

  /** Before `sched_start` a tick indexes the table with `NULL_ID` exactly when any
      thread exists; otherwise it only counts. */
  lemma TickBeforeStart(s: Sched)
    requires Inv(s) && !s.started
    ensures Tick(s).Panic? <==> exists i | 0 <= i < MAX_THREADS :: s.threads[i].Some?
    ensures Tick(s).Done? ==> Inv(Tick(s).value) && !Tick(s).value.started
  {
    AfterWakeupsKeepsInv(s);
    var r := AfterWakeups(s);
    forall i | 0 <= i < MAX_THREADS
      ensures !ExpiredAt(s.(tickCount := s.tickCount + 1), i) && r.threads[i] == s.threads[i]
    {
    }
    assert r.ready == s.ready;
    if p :| p in s.ready {
      assert AnyReady(s.threads, p);
    }
  }
}
