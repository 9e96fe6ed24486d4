/** The hazards of timed waits, of a second sender or receiver and of serving the lowest id,
    each met on a run from `sched_init`: an idle thread and two others. */
module ObjectWitnesses {
  import opened Common
  import opened Masks
  import opened SchedulerSpec
  import opened SchedulerInvariant
  import opened SchedulerRuns
  import opened Kernel
  import opened Examples
  import Event = EventFlags
  import Mtx = Mutex
  import Queues = MsgQueueRuns
  import Ring = MsgQueueSpec
  import Sem = Semaphore

  const O: ObjectId := 0

  function Two(a: Thread, b: Thread): seq<Thread> {
    [Fresh(Ready, 31), a, b]
  }

  function Last5(id: nat): (r: seq<nat>)
    ensures |r| == MAX_PRIORITY
  {
    NoCursor()[5 := id]
  }

  // ---- The scheduler's part of the runs ----

  function Start5(): Sched {
    At(Two(Fresh(Running, 5), Fresh(Ready, 5)), 1, {31, 5}, Last5(1), 0, [First(1)])
  }

  lemma Start5IsReached(objects: set<ObjectId>)
    ensures Booted(Start5(), objects) && KInv(Quiet(Start5(), objects), 0)
  {
    var ps := [31, 5, 5];
    assert Bits(ps) == {31, 5} by {
      assert ps[0] in ps && ps[1] in ps;
    }
    Boot(ps, 1, objects);
    var ts := FreshRow(ps);
    assert ts[1 := ts[1].(state := Running)] == Two(Fresh(Running, 5), Fresh(Ready, 5));
    KReachableIsSafe(Quiet(Start5(), objects), 0, objects);
  }

  /** Thread 1 blocks, thread 2 runs. */
  function FirstBlocked(timeout: Option<nat>): Sched {
    At(Two(BlockedAt(Fresh(Running, 5), 0, timeout), Fresh(Running, 5)), 2, {31, 5}, Last5(2), 0,
       [First(1), Cooperative(1, 2)])
  }

  lemma FirstBlocks(timeout: Option<nat>)
    ensures Shape(Start5()) && BlockCurrent(Start5(), timeout) == Done(FirstBlocked(timeout))
  {
    hide BlockCurrent;
    var ts := Two(Fresh(Running, 5), Fresh(Ready, 5));
    var ts1 := ts[1 := BlockedAt(ts[1], 0, timeout)];
    assert ts1[2].state == Ready && ts1[2].priority == 5;
    BlockAt(ts, 1, {31, 5}, Last5(1), 0, [First(1)], timeout, 2);
    assert ts1[2 := ts1[2].(state := Running)] == Two(BlockedAt(Fresh(Running, 5), 0, timeout), Fresh(Running, 5));
    assert Last5(1)[5 := 2] == Last5(2);
    assert [First(1)] + [Cooperative(1, 2)] == [First(1), Cooperative(1, 2)];
  }

  /** A tick later its wait of one tick has timed out. */
  function FirstTimedOut(): Sched {
    At(Two(AfterTick(BlockedAt(Fresh(Running, 5), 0, Some(1)), 1), Fresh(Running, 5).(tick := 9)), 2, {31, 5}, Last5(2), 1,
       [First(1), Cooperative(1, 2)])
  }

  lemma FirstTimesOut()
    ensures Shape(FirstBlocked(Some(1))) && Tick(FirstBlocked(Some(1))) == Done(FirstTimedOut())
  {
    hide Tick;
    var ts := Two(BlockedAt(Fresh(Running, 5), 0, Some(1)), Fresh(Running, 5));
    assert Expired(ts[1], 1);
    assert (set i | 0 <= i < |ts| && Expired(ts[i], 1) :: ts[i].priority) == {5};
    TickAt(ts, 2, {31, 5}, Last5(2), 0, [First(1), Cooperative(1, 2)], {31, 5});
    var ts1 := seq(|ts|, i requires 0 <= i < |ts| => AfterTick(ts[i], 1));
    assert ts1[2 := ts[2].(tick := 9)]
        == Two(AfterTick(BlockedAt(Fresh(Running, 5), 0, Some(1)), 1), Fresh(Running, 5).(tick := 9));
  }

  /** Thread 1 yields, thread 2 runs. */
  function FirstYielded(): Sched {
    At(Two(Fresh(Ready, 5), Fresh(Running, 5)), 2, {31, 5}, Last5(2), 0, [First(1), Cooperative(1, 2)])
  }

  lemma FirstYields()
    ensures Shape(Start5()) && Yield(Start5()) == Done(FirstYielded())
  {
    hide Yield;
    var ts := Two(Fresh(Running, 5), Fresh(Ready, 5));
    YieldAt(ts, 1, {31, 5}, Last5(1), 0, [First(1)], 2);
    var ts1 := ts[1 := ts[1].(state := Ready)];
    assert ts1[2 := ts1[2].(state := Running)] == Two(Fresh(Ready, 5), Fresh(Running, 5));
    assert Last5(1)[5 := 2] == Last5(2);
    assert [First(1)] + [Cooperative(1, 2)] == [First(1), Cooperative(1, 2)];
  }

  /** Then thread 2 blocks and thread 1 is back. */
  function SecondBlocked(timeout: Option<nat>): Sched {
    At(Two(Fresh(Running, 5), BlockedAt(Fresh(Running, 5), 0, timeout)), 1, {31, 5}, Last5(1), 0,
       [First(1), Cooperative(1, 2), Cooperative(2, 1)])
  }

  lemma SecondBlocks(timeout: Option<nat>)
    ensures Shape(FirstYielded()) && BlockCurrent(FirstYielded(), timeout) == Done(SecondBlocked(timeout))
  {
    hide BlockCurrent;
    var ts := Two(Fresh(Ready, 5), Fresh(Running, 5));
    var ts1 := ts[2 := BlockedAt(ts[2], 0, timeout)];
    assert ts1[1].state == Ready && ts1[1].priority == 5;
    BlockAt(ts, 2, {31, 5}, Last5(2), 0, [First(1), Cooperative(1, 2)], timeout, 1);
    assert ts1[1 := ts1[1].(state := Running)] == Two(Fresh(Running, 5), BlockedAt(Fresh(Running, 5), 0, timeout));
    assert Last5(2)[5 := 1] == Last5(1);
    assert [First(1), Cooperative(1, 2)] + [Cooperative(2, 1)] == [First(1), Cooperative(1, 2), Cooperative(2, 1)];
  }

  function SecondTimedOut(): Sched {
    At(Two(Fresh(Running, 5).(tick := 9), AfterTick(BlockedAt(Fresh(Running, 5), 0, Some(1)), 1)), 1, {31, 5}, Last5(1), 1,
       [First(1), Cooperative(1, 2), Cooperative(2, 1)])
  }

  lemma SecondTimesOut()
    ensures Shape(SecondBlocked(Some(1))) && Shape(SecondTimedOut())
    ensures Tick(SecondBlocked(Some(1))) == Done(SecondTimedOut())
  {
    hide Tick;
    var ts := Two(Fresh(Running, 5), BlockedAt(Fresh(Running, 5), 0, Some(1)));
    assert Expired(ts[2], 1);
    assert (set i | 0 <= i < |ts| && Expired(ts[i], 1) :: ts[i].priority) == {5};
    TickAt(ts, 1, {31, 5}, Last5(1), 0, [First(1), Cooperative(1, 2), Cooperative(2, 1)], {31, 5});
    var ts1 := seq(|ts|, i requires 0 <= i < |ts| => AfterTick(ts[i], 1));
    assert ts1[1 := ts[1].(tick := 9)]
        == Two(Fresh(Running, 5).(tick := 9), AfterTick(BlockedAt(Fresh(Running, 5), 0, Some(1)), 1));
  }

  /** Both block for good, the idle thread runs. */
  function BothBlocked(): Sched {
    var b := BlockedAt(Fresh(Running, 5), 0, None);
    At([Fresh(Running, 31), b, b], 0, {31}, Last5(2)[31 := 0], 0, [First(1), Cooperative(1, 2), Cooperative(2, 0)])
  }

  lemma BothBlock()
    ensures Shape(FirstBlocked(None)) && Shape(BothBlocked())
    ensures BlockCurrent(FirstBlocked(None), None) == Done(BothBlocked())
  {
    hide BlockCurrent;
    var b := BlockedAt(Fresh(Running, 5), 0, None);
    var ts := Two(b, Fresh(Running, 5));
    var ts1 := ts[2 := b];
    assert BitsWithout(ts1, {31, 5}, 5) == {31};
    BlockAt(ts, 2, {31, 5}, Last5(2), 0, [First(1), Cooperative(1, 2)], None, 0);
    assert ts1[0 := ts1[0].(state := Running)] == [Fresh(Running, 31), b, b];
    assert [First(1), Cooperative(1, 2)] + [Cooperative(2, 0)] == [First(1), Cooperative(1, 2), Cooperative(2, 0)];
  }

  /** A wake-up of a thread blocked in its first wait makes its row what it was before. */
  lemma WakeAt(ts: seq<Thread>, id: nat, p: nat, current: nat, ready: Mask, cursor: seq<nat>, now: nat, log: seq<Handoff>)
    requires RowOk(ts, cursor) && id < |ts| && p < MAX_PRIORITY && ts[id] == BlockedAt(Fresh(Running, p), 0, None)
    ensures Shape(At(ts, current, ready, cursor, now, log))
    ensures Unblock(At(ts, current, ready, cursor, now, log), id)
            == At(ts[id := Fresh(Ready, p)], current, ready + {p}, cursor, now, log)
  {
    AtIsShaped(ts, current, ready, cursor, now, log);
    assert Row(ts)[id := Some(Fresh(Ready, p))] == Row(ts[id := Fresh(Ready, p)]);
  }

  lemma FirstWakes()
    ensures Shape(FirstBlocked(None)) && Unblock(FirstBlocked(None), 1) == FirstYielded()
  {
    hide Unblock;
    var ts := Two(BlockedAt(Fresh(Running, 5), 0, None), Fresh(Running, 5));
    WakeAt(ts, 1, 5, 2, {31, 5}, Last5(2), 0, [First(1), Cooperative(1, 2)]);
    assert ts[1 := Fresh(Ready, 5)] == Two(Fresh(Ready, 5), Fresh(Running, 5));
    assert {31, 5} + {5} == {31, 5};
  }

  /** Thread 2 yields back. */
  function FirstBack(): Sched {
    At(Two(Fresh(Running, 5), Fresh(Ready, 5)), 1, {31, 5}, Last5(1), 0, [First(1), Cooperative(1, 2), Cooperative(2, 1)])
  }

  lemma SecondYields()
    ensures Shape(FirstYielded()) && Shape(FirstBack()) && Yield(FirstYielded()) == Done(FirstBack())
  {
    hide Yield;
    var ts := Two(Fresh(Ready, 5), Fresh(Running, 5));
    YieldAt(ts, 2, {31, 5}, Last5(2), 0, [First(1), Cooperative(1, 2)], 1);
    var ts1 := ts[2 := ts[2].(state := Ready)];
    assert ts1[1 := ts1[1].(state := Running)] == Two(Fresh(Running, 5), Fresh(Ready, 5));
    assert Last5(2)[5 := 1] == Last5(1);
    assert [First(1), Cooperative(1, 2)] + [Cooperative(2, 1)] == [First(1), Cooperative(1, 2), Cooperative(2, 1)];
  }

  /** Both awake again, the idle thread still running. */
  function BothAwake(): Sched {
    At([Fresh(Running, 31), Fresh(Ready, 5), Fresh(Ready, 5)], 0, {31, 5}, Last5(2)[31 := 0], 0,
       [First(1), Cooperative(1, 2), Cooperative(2, 0)])
  }

  lemma BothWake()
    ensures Shape(BothBlocked()) && Shape(BothAwake()) && Shape(Unblock(BothBlocked(), 1))
    ensures Unblock(Unblock(BothBlocked(), 1), 2) == BothAwake()
  {
    hide Unblock;
    var b := BlockedAt(Fresh(Running, 5), 0, None);
    var log := [First(1), Cooperative(1, 2), Cooperative(2, 0)];
    var ts := [Fresh(Running, 31), b, b];
    WakeAt(ts, 1, 5, 0, {31}, Last5(2)[31 := 0], 0, log);
    WakeAt(ts[1 := Fresh(Ready, 5)], 2, 5, 0, {31} + {5}, Last5(2)[31 := 0], 0, log);
    var end := ts[1 := Fresh(Ready, 5)][2 := Fresh(Ready, 5)];
    assert end == [Fresh(Running, 31), Fresh(Ready, 5), Fresh(Ready, 5)];
    assert {31} + {5} + {5} == {31, 5};
    AtIsShaped(end, 0, {31, 5}, Last5(2)[31 := 0], 0, log);
  }

  /** The idle thread yields to thread 1. */
  function FirstOfBoth(): Sched {
    At(Two(Fresh(Running, 5), Fresh(Ready, 5)), 1, {31, 5}, Last5(2)[31 := 0][5 := 1], 0,
       [First(1), Cooperative(1, 2), Cooperative(2, 0), Cooperative(0, 1)])
  }

  lemma IdleYields()
    ensures Shape(BothAwake()) && Shape(FirstOfBoth()) && Yield(BothAwake()) == Done(FirstOfBoth())
  {
    hide Yield;
    var log := [First(1), Cooperative(1, 2), Cooperative(2, 0)];
    var ts := [Fresh(Running, 31), Fresh(Ready, 5), Fresh(Ready, 5)];
    YieldAt(ts, 0, {31, 5}, Last5(2)[31 := 0], 0, log, 1);
    var ts1 := ts[0 := ts[0].(state := Ready)];
    assert ts1[1 := ts1[1].(state := Running)] == Two(Fresh(Running, 5), Fresh(Ready, 5));
    assert log + [Cooperative(0, 1)] == [First(1), Cooperative(1, 2), Cooperative(2, 0), Cooperative(0, 1)];
    AtIsShaped(Two(Fresh(Running, 5), Fresh(Ready, 5)), 1, {31, 5}, Last5(2)[31 := 0][5 := 1], 0, log + [Cooperative(0, 1)]);
  }

  // ---- Semaphore ----

  const LOSSY_TAKE: seq<Sem.Action> := [Sem.TakeEnter(Some(1)), Sem.Other(Schedule(OpTick)), Sem.Release]

  ghost predicate SemFromBoot(states: seq<Sem.System>, acts: seq<Sem.Action>) {
    && Sem.SemRun(states, acts, 0, O)
    && KReachable(states[0].k, 0, {O}) && Sem.Initial(states[0], 0, O, 0)
  }

  /** A take of one tick, the tick, and a release before the taker has run: the count was
      zero and still is, and nobody has the unit. */
  lemma TimedTakeLosesUnit()
    ensures exists states: seq<Sem.System> ::
              SemFromBoot(states, LOSSY_TAKE) && states[3].released == 1 && states[3].lost == 1 && states[3].count == 0
  {
    hide BlockCurrent, Tick, Unblock, Shape, KInv;
    Start5IsReached({O});
    FirstBlocks(Some(1));
    FirstTimesOut();
    var k0 := Quiet(Start5(), {O});
    var k1 := Kernel(FirstBlocked(Some(1)), k0.pc[1 := Some(O)], k0.waiters[O := {1}]);
    var sys0 := Sem.System(k0, 0, 0, 0, 0);
    var sys1 := sys0.(k := k1);
    var sys2 := sys1.(k := k1.(sched := FirstTimedOut()));
    assert Waiters(k0, O) + {1} == {1};
    assert Sem.Act(sys0, LOSSY_TAKE[0], O) == Done(sys1);
    assert Sem.Act(sys1, LOSSY_TAKE[1], O) == Done(sys2);
    assert Waiters(sys2.k, O) == {1} && PhaseAt(sys2.k, O, 1) == TimedOut;
    var sys3 := Sem.Act(sys2, Sem.Release, O).value;
    var states := [sys0, sys1, sys2, sys3];
    assert SemFromBoot(states, LOSSY_TAKE);
  }

  // ---- Mutex ----

  const STRAY_LOCK: seq<Mtx.Action> :=
    [Mtx.LockEnter(None), Mtx.Other(Schedule(OpYield)), Mtx.LockEnter(Some(1)), Mtx.Other(Schedule(OpTick)), Mtx.Unlock]

  ghost predicate MtxFromBoot(states: seq<Mtx.System>, acts: seq<Mtx.Action>) {
    && Mtx.MtxRun(states, acts, 0, O)
    && KReachable(states[0].k, 0, {O}) && Mtx.Initial(states[0], 0, O)
  }

  function Unlocked(): Mtx.System {
    Mtx.System(Quiet(Start5(), {O}), false, Mtx.NO_OWNER, 0, seq(MAX_THREADS, _ => 0), seq(MAX_THREADS, _ => 0))
  }

  function Locked(): Mtx.System {
    Unlocked().(locked := true, owner := 1, nest := 1, depth := Unlocked().depth[1 := 1])
  }

  function LockedAnd(s: Sched, waiting: bool): Mtx.System {
    var k := Locked().k;
    Locked().(k := if waiting then Kernel(s, k.pc[2 := Some(O)], map[O := {2}]) else k.(sched := s))
  }

  lemma LockSteps()
    ensures Mtx.SShape(Unlocked()) && Mtx.Allowed(Unlocked(), STRAY_LOCK[0], 0, O)
    ensures Mtx.Act(Unlocked(), STRAY_LOCK[0], O) == Done(Locked())
    ensures Mtx.SShape(Locked()) && Mtx.Allowed(Locked(), STRAY_LOCK[1], 0, O)
    ensures Mtx.Act(Locked(), STRAY_LOCK[1], O) == Done(LockedAnd(FirstYielded(), false))
  {
    hide Yield, Shape;
    FirstYields();
    assert Unlocked().depth[1 := 0 + Bump(true)] == Locked().depth;
  }

  lemma SecondLockBlocks()
    ensures Mtx.SShape(LockedAnd(FirstYielded(), false)) && Mtx.Allowed(LockedAnd(FirstYielded(), false), STRAY_LOCK[2], 0, O)
    ensures Mtx.Act(LockedAnd(FirstYielded(), false), STRAY_LOCK[2], O) == Done(LockedAnd(SecondBlocked(Some(1)), true))
  {
    hide BlockCurrent, Shape;
    SecondBlocks(Some(1));
    var sys := LockedAnd(FirstYielded(), false);
    assert Waiters(sys.k, O) + {2} == {2};
    assert sys.k.waiters[O := {2}] == map[O := {2}];
  }

  lemma SecondLockTimesOut()
    ensures Mtx.SShape(LockedAnd(SecondBlocked(Some(1)), true))
    ensures Mtx.Allowed(LockedAnd(SecondBlocked(Some(1)), true), STRAY_LOCK[3], 0, O)
    ensures Mtx.Act(LockedAnd(SecondBlocked(Some(1)), true), STRAY_LOCK[3], O) == Done(LockedAnd(SecondTimedOut(), true))
  {
    hide Tick, Shape;
    SecondTimesOut();
  }

  /** A lock of one tick, the tick, and an unlock before the locker has run: it owns the
      mutex while its call returns the timeout. */
  lemma TimedLockStrays()
    ensures exists states: seq<Mtx.System> ::
              && MtxFromBoot(states, STRAY_LOCK) && Mtx.SShape(states[5])
              && states[5].locked && states[5].owner == 2 && states[5].depth[2] == 0 && states[5].stray[2] == 1
              && PhaseAt(states[5].k, O, 2) == TimedOut
  {
    hide Mtx.Act, KInv, Shape;
    Start5IsReached({O});
    LockSteps();
    SecondLockBlocks();
    SecondLockTimesOut();
    var sys := LockedAnd(SecondTimedOut(), true);
    StrayUnlock(sys);
    assert MtxFromBoot([Unlocked(), Locked(), LockedAnd(FirstYielded(), false), LockedAnd(SecondBlocked(Some(1)), true),
                        sys, Mtx.Act(sys, Mtx.Unlock, O).value], STRAY_LOCK);
  }

  lemma StrayUnlock(sys: Mtx.System)
    requires sys == LockedAnd(SecondTimedOut(), true)
    ensures Mtx.SShape(sys) && Mtx.Allowed(sys, Mtx.Unlock, 0, O)
    ensures Mtx.Act(sys, Mtx.Unlock, O).Done?
    ensures var sys' := Mtx.Act(sys, Mtx.Unlock, O).value;
            && Mtx.SShape(sys') && sys'.locked && sys'.owner == 2 && sys'.depth[2] == 0 && sys'.stray[2] == 1
            && PhaseAt(sys'.k, O, 2) == TimedOut
  {
    assert Lowest(Waiters(sys.k, O)) == 2;
  }

  // ---- Event flags ----

  const ANY_0: Event.Waiter := Event.Waiter({0}, Event.Or, false)
  const CLEAR_0: Event.Waiter := Event.Waiter({0}, Event.Or, true)

  const SHARED_FLAG: seq<Event.Action> :=
    [Event.WaitEnter(ANY_0, None), Event.WaitEnter(CLEAR_0, None), Event.Set({0}), Event.Other(Schedule(OpYield))]

  const CLEARED_FLAG: seq<Event.Action> :=
    [Event.WaitEnter(ANY_0, None), Event.Set({0}), Event.Clear({0}), Event.Other(Schedule(OpYield))]

  ghost predicate EventFromBoot(states: seq<Event.System>, acts: seq<Event.Action>) {
    && Event.EventRun(states, acts, 0, O)
    && KReachable(states[0].k, 0, {O}) && Event.Initial(states[0], 0, O)
  }

  /** Thread 1 is back from its wait for flag 0, which returns success and no flag. */
  ghost predicate ReturnsNothing(sys: Event.System) {
    && Event.SShape(sys) && CanLeave(sys.k, O) && sys.k.sched.current == 1 && sys.calls[1] == ANY_0
    && Occupied(sys.k.sched.threads, 1) && Event.Returned(sys, O) == Some({})
  }

  function Listening(): Event.System {
    Event.System(Quiet(Start5(), {O}), {}, seq(MAX_THREADS, _ => None), seq(MAX_THREADS, _ => ANY_0))
  }

  function OneWaits(): Event.System {
    var sys := Listening();
    sys.(k := Kernel(FirstBlocked(None), sys.k.pc[1 := Some(O)], map[O := {1}]), params := sys.params[1 := Some(ANY_0)])
  }

  function BothWait(): Event.System {
    var sys := OneWaits();
    sys.(k := Kernel(BothBlocked(), sys.k.pc[2 := Some(O)], map[O := {1, 2}]),
         params := sys.params[2 := Some(CLEAR_0)], calls := sys.calls[2 := CLEAR_0])
  }

  lemma OneStartsToWait()
    ensures Event.SShape(Listening()) && Event.Allowed(Listening(), SHARED_FLAG[0], 0, O)
    ensures Event.Act(Listening(), SHARED_FLAG[0], O) == Done(OneWaits())
  {
    hide BlockCurrent, Shape;
    FirstBlocks(None);
    var sys := Listening();
    assert Waiters(sys.k, O) + {1} == {1};
    assert sys.k.waiters[O := {1}] == map[O := {1}];
    assert sys.calls[1 := ANY_0] == sys.calls;
  }

  lemma OtherStartsToWait()
    ensures Event.SShape(OneWaits()) && Event.Allowed(OneWaits(), SHARED_FLAG[1], 0, O)
    ensures Event.Act(OneWaits(), SHARED_FLAG[1], O) == Done(BothWait())
  {
    hide BlockCurrent, Shape;
    BothBlock();
    FirstBlocks(None);
    var sys := OneWaits();
    assert Waiters(sys.k, O) + {2} == {1, 2};
    assert sys.k.waiters[O := {1, 2}] == map[O := {1, 2}];
  }

  lemma BothWaitIsReached()
    ensures EventFromBoot([Listening(), OneWaits(), BothWait()], SHARED_FLAG[..2])
    ensures Event.EventInv(OneWaits(), 0, O) && Event.EventInv(BothWait(), 0, O)
  {
    hide Event.Act, Event.Allowed, KInv, Shape;
    Start5IsReached({O});
    OneStartsToWait();
    OtherStartsToWait();
    var states := [Listening(), OneWaits(), BothWait()];
    assert Event.EventRun(states, SHARED_FLAG[..2], 0, O);
    Event.RunSafety(states, SHARED_FLAG[..2], 0, O, 1);
    Event.RunSafety(states, SHARED_FLAG[..2], 0, O, 2);
  }

  function BothWoken(s: Sched): Event.System {
    BothWait().(k := Kernel(s, BothWait().k.pc, map[O := {}]))
  }

  lemma FlagGoesToBoth()
    ensures Event.SShape(BothWait()) && Event.Allowed(BothWait(), SHARED_FLAG[2], 0, O)
    ensures Event.Act(BothWait(), SHARED_FLAG[2], O) == Done(BothWoken(BothAwake()))
  {
    hide Event.Act, Event.EventInv, KInv, Shape, Unblock, Event.WakeAll, Event.ClearedBefore, Event.ChosenNow, At, Last5;
    BothWaitIsReached();
    assert Event.SShape(BothWait()) by { BothBlock(); }
    var sys := BothWait();
    BothAreChosen(sys);
    Event.SetWakesChosen(sys, 0, O, {0});
    WakingBoth(sys);
    assert sys.flags + {0} - Event.ClearedBefore(sys.params, {1, 2}, MAX_THREADS) == {};
  }

  lemma WakingBoth(sys: Event.System)
    requires sys == BothWait() && KShape(sys.k)
    ensures Event.WakeAll(sys.k, O, {1, 2}) == Kernel(BothAwake(), sys.k.pc, map[O := {}])
  {
    hide Shape, Unblock, LowestFrom, At, Last5, Event.WakeAll;
    BothWake();
    Event.WakeAllIsUnblockAll(sys.k, O, {1, 2});
    assert Lowest({1, 2}) == 1 && {1, 2} - {1} == {2} && Lowest({2}) == 2 && {2} - {2} == {};
    var none: Mask := {1, 2} - {1, 2};
    assert none == {} && sys.k.waiters == map[O := {1, 2}];
    assert sys.k.waiters[O := none] == map[O := {}];
  }

  lemma FirstOfBothRuns()
    ensures Event.SShape(BothWoken(BothAwake())) && Event.Allowed(BothWoken(BothAwake()), SHARED_FLAG[3], 0, O)
    ensures Event.Act(BothWoken(BothAwake()), SHARED_FLAG[3], O) == Done(BothWoken(FirstOfBoth()))
  {
    hide Yield, Shape, Last5;
    IdleYields();
  }

  /** Two threads wait for flag 0, the second one clearing it. Setting it wakes both, and the
      first one's wait, which clears nothing and returns first, returns no flag at all. */
  lemma SharedFlagIsLost()
    ensures exists states: seq<Event.System> ::
              EventFromBoot(states, SHARED_FLAG) && ReturnsNothing(states[4])
  {
    hide Event.Act, Event.Allowed, Event.EventInv, KInv, Shape, ReturnsNothing, At, Two;
    BothWaitIsReached();
    OneStartsToWait();
    OtherStartsToWait();
    FlagGoesToBoth();
    FirstOfBothRuns();
    BothLeaveNothing();
    assert EventFromBoot([Listening(), OneWaits(), BothWait(), BothWoken(BothAwake()), BothWoken(FirstOfBoth())], SHARED_FLAG);
  }

  function OneWoken(flags: Mask, s: Sched): Event.System {
    OneWaits().(k := Kernel(s, OneWaits().k.pc, map[O := {}]), flags := flags)
  }

  lemma BothLeaveNothing()
    ensures ReturnsNothing(BothWoken(FirstOfBoth()))
  {
    IdleYields();
    var sys := BothWoken(FirstOfBoth());
    assert sys.k.sched.threads[1] == Some(Fresh(Running, 5));
    assert sys.flags * ANY_0.flags == {};
  }

  lemma ClearLeavesNothing()
    ensures ReturnsNothing(OneWoken({}, FirstBack()))
  {
    SecondYields();
    var sys := OneWoken({}, FirstBack());
    assert sys.k.sched.threads[1] == Some(Fresh(Running, 5));
    assert sys.flags * ANY_0.flags == {};
  }

  lemma OnlyOneIsChosen(sys: Event.System)
    requires Event.SShape(sys) && sys.flags == {} && Waiters(sys.k, O) == {1} && sys.params[1] == Some(ANY_0)
    ensures Event.ChosenNow(sys, O, {0}) == {1}
    ensures Event.ClearedBefore(sys.params, {1}, MAX_THREADS) == {}
  {
    var flags := sys.flags + {0};
    assert Event.ConditionMet(flags, ANY_0) by {
      assert 0 in flags * ANY_0.flags;
    }
    Event.ChosenIff(flags, sys.params, {1}, 1);
  }

  lemma FlagGoesToOne()
    ensures Event.SShape(OneWaits()) && Event.Allowed(OneWaits(), CLEARED_FLAG[1], 0, O)
    ensures Event.Act(OneWaits(), CLEARED_FLAG[1], O) == Done(OneWoken({0}, FirstYielded()))
  {
    hide Event.Act, Event.EventInv, KInv, Shape, Unblock, LowestFrom, Event.ClearedBefore, Event.ChosenNow, Last5;
    BothWaitIsReached();
    FirstWakes();
    var sys := OneWaits();
    OnlyOneIsChosen(sys);
    Event.SetWakesChosen(sys, 0, O, {0});
    Event.WakeAllIsUnblockAll(sys.k, O, {1});
    assert Lowest({1}) == 1 && {1} - {1} == {};
    assert sys.k.waiters[O := {1} - {1}] == map[O := {}];
    assert sys.flags + {0} - {} == {0};
  }

  lemma ClearThenYield()
    ensures Event.SShape(OneWoken({0}, FirstYielded())) && Event.SShape(OneWoken({}, FirstYielded()))
    ensures Event.Allowed(OneWoken({0}, FirstYielded()), CLEARED_FLAG[2], 0, O)
    ensures Event.Act(OneWoken({0}, FirstYielded()), CLEARED_FLAG[2], O) == Done(OneWoken({}, FirstYielded()))
    ensures Event.Allowed(OneWoken({}, FirstYielded()), CLEARED_FLAG[3], 0, O)
    ensures Event.Act(OneWoken({}, FirstYielded()), CLEARED_FLAG[3], O) == Done(OneWoken({}, FirstBack()))
  {
    hide Yield, Shape, Last5;
    SecondYields();
    var flags: Mask := {0};
    assert flags - {0} == {};
  }

  /** A flag set and then cleared before the thread it woke is back: the wait returns nothing,
      although no waiter cleared it. */
  lemma ClearedFlagIsLost()
    ensures exists states: seq<Event.System> ::
              EventFromBoot(states, CLEARED_FLAG) && ReturnsNothing(states[4])
  {
    hide Event.Act, Event.Allowed, Event.EventInv, KInv, Shape, ReturnsNothing, At, Two;
    BothWaitIsReached();
    OneStartsToWait();
    FlagGoesToOne();
    ClearThenYield();
    ClearLeavesNothing();
    assert EventFromBoot([Listening(), OneWaits(), OneWoken({0}, FirstYielded()), OneWoken({}, FirstYielded()),
                          OneWoken({}, FirstBack())], CLEARED_FLAG);
  }

  lemma BothAreChosen(sys: Event.System)
    requires Event.SShape(sys) && sys.flags == {} && Waiters(sys.k, O) == {1, 2}
    requires sys.params[1] == Some(ANY_0) && sys.params[2] == Some(CLEAR_0)
    ensures Event.ChosenNow(sys, O, {0}) == {1, 2}
    ensures 0 in Event.ClearedBefore(sys.params, {1, 2}, MAX_THREADS)
  {
    var flags := sys.flags + {0};
    assert Event.ConditionMet(flags, ANY_0) by {
      assert 0 in flags * ANY_0.flags;
    }
    Event.ChosenIff(flags, sys.params, {1, 2}, 1);
    Event.ChosenIff(flags, sys.params, {1, 2}, 2);
  }

  // Two flags: an AND wait needs both, an OR wait one.

  const BOTH_01: Event.Waiter := Event.Waiter({0, 1}, Event.And, false)
  const ANY_03: Event.Waiter := Event.Waiter({0, 3}, Event.Or, false)

  const AND_WAIT: seq<Event.Action> :=
    [Event.WaitEnter(BOTH_01, None), Event.Set({0}), Event.Set({1}), Event.Other(Schedule(OpYield))]

  const OR_WAIT: seq<Event.Action> := [Event.WaitEnter(ANY_03, None), Event.Set({3}), Event.Other(Schedule(OpYield))]

  /** Thread 1 waits as `w` says, or was woken from that wait; thread 2 runs. */
  function Waits(w: Event.Waiter, flags: Mask, s: Sched, waiting: Mask): Event.System {
    var sys := Listening();
    Event.System(Kernel(s, sys.k.pc[1 := Some(O)], map[O := waiting]), flags, sys.params[1 := Some(w)], sys.calls[1 := w])
  }

  lemma StartsToWait(w: Event.Waiter)
    requires !Event.ConditionMet({}, w)
    ensures Event.EventInv(Listening(), 0, O) && Event.Initial(Listening(), 0, O) && KReachable(Listening().k, 0, {O})
    ensures Event.SShape(Waits(w, {}, FirstBlocked(None), {1}))
    ensures Event.Allowed(Listening(), Event.WaitEnter(w, None), 0, O)
    ensures Event.Act(Listening(), Event.WaitEnter(w, None), O) == Done(Waits(w, {}, FirstBlocked(None), {1}))
  {
    hide BlockCurrent, Shape, KInv;
    Start5IsReached({O});
    FirstWakes();
    FirstBlocks(None);
    var sys := Listening();
    assert Waiters(sys.k, O) + {1} == {1};
    assert sys.k.waiters[O := {1}] == map[O := {1}];
    Event.RunSafety([sys], [], 0, O, 0);
  }

  lemma SetWhileWaiting(w: Event.Waiter, before: Mask, flags: Mask)
    requires Event.EventInv(Waits(w, before, FirstBlocked(None), {1}), 0, O) && !w.clearOnExit
    ensures var sys := Waits(w, before, FirstBlocked(None), {1});
            Event.Act(sys, Event.Set(flags), O)
            == Done(if Event.ConditionMet(before + flags, w) then Waits(w, before + flags, FirstYielded(), {})
                    else Waits(w, before + flags, FirstBlocked(None), {1}))
  {
    hide Event.Act, KInv, Shape, Unblock, LowestFrom, Event.WakeAll, Event.ConditionMet;
    var sys := Waits(w, before, FirstBlocked(None), {1});
    OnlyWaiter(sys, flags);
    var chosen := Event.ChosenNow(sys, O, flags);
    Event.SetWakesChosen(sys, 0, O, flags);
    Event.WakeAllIsUnblockAll(sys.k, O, chosen);
    FirstWakes();
    assert sys.flags + flags - {} == sys.flags + flags;
    assert Lowest({1}) == 1 && {1} - {1} == {};
    if chosen == {1} {
      assert sys.k.waiters[O := {1} - chosen] == map[O := {}];
    } else {
      assert {1} - chosen == {1} && sys.k.waiters[O := {1}] == sys.k.waiters;
    }
  }

  lemma OnlyWaiter(sys: Event.System, flags: Mask)
    requires Event.SShape(sys) && Waiters(sys.k, O) == {1} && sys.params[1].Some? && !sys.params[1].value.clearOnExit
    ensures Event.ChosenNow(sys, O, flags)
         == if Event.ConditionMet(sys.flags + flags, sys.params[1].value) then {1} else {}
    ensures Event.ClearedBefore(sys.params, Event.ChosenNow(sys, O, flags), MAX_THREADS) == {}
  {
    hide Event.ConditionMet;
    var chosen := Event.ChosenNow(sys, O, flags);
    Event.ChosenIff(sys.flags + flags, sys.params, {1}, 1);
    assert sys.flags + flags - Event.ClearedBefore(sys.params, chosen, 1) == sys.flags + flags;
    assert chosen <= {1};
  }

  lemma YieldsBack(w: Event.Waiter, flags: Mask)
    ensures Event.SShape(Waits(w, flags, FirstYielded(), {})) && Event.SShape(Waits(w, flags, FirstBack(), {}))
    ensures Event.Allowed(Waits(w, flags, FirstYielded(), {}), Event.Other(Schedule(OpYield)), 0, O)
    ensures Event.Act(Waits(w, flags, FirstYielded(), {}), Event.Other(Schedule(OpYield)), O)
            == Done(Waits(w, flags, FirstBack(), {}))
    ensures var sys := Waits(w, flags, FirstBack(), {});
            && CanLeave(sys.k, O) && sys.k.sched.current == 1 && Occupied(sys.k.sched.threads, 1)
            && Event.Returned(sys, O) == Some(flags * w.flags)
  {
    hide Yield, Shape;
    SecondYields();
    assert Waits(w, flags, FirstBack(), {}).k.sched.threads[1] == Some(Fresh(Running, 5));
  }

  /** Wait for flags 0 and 1 together: after flag 0 the thread sleeps on, after flag 1 it is
      woken, and it returns both. */
  lemma AndWaitNeedsBoth()
    ensures exists states: seq<Event.System> ::
              && EventFromBoot(states, AND_WAIT)
              && Event.SShape(states[2]) && PhaseAt(states[2].k, O, 1) == Waiting(false) && states[2].flags == {0}
              && Event.SShape(states[3]) && PhaseAt(states[3].k, O, 1) == Granted
              && Event.SShape(states[4]) && states[4].k.sched.current == 1 && Occupied(states[4].k.sched.threads, 1)
              && Event.Returned(states[4], O) == Some({0, 1})
  {
    hide Event.Act, Event.Allowed, Event.EventInv, Event.SShape, KInv, At, Event.Returned;
    var w := BOTH_01;
    NotYet();
    StartsToWait(w);
    var s0, s1 := Listening(), Waits(w, {}, FirstBlocked(None), {1});
    Event.ActKeepsEventInv(s0, AND_WAIT[0], 0, O);
    EventIsShaped(s1);
    SettingIsAllowed(s1, {0});
    SetWhileWaiting(w, {}, {0});
    var s2 := Waits(w, {0}, FirstBlocked(None), {1});
    assert {} + {0} == {0} && {0} + {1} == {0, 1};
    Event.ActKeepsEventInv(s1, AND_WAIT[1], 0, O);
    EventIsShaped(s2);
    SettingIsAllowed(s2, {1});
    SetWhileWaiting(w, {0}, {1});
    YieldsBack(w, {0, 1});
    AsleepThenGranted(w);
    var s3, s4 := Waits(w, {0, 1}, FirstYielded(), {}), Waits(w, {0, 1}, FirstBack(), {});
    assert {0, 1} * w.flags == {0, 1};
    assert EventFromBoot([s0, s1, s2, s3, s4], AND_WAIT);
  }

  lemma NotYet()
    ensures !Event.ConditionMet({}, BOTH_01) && !Event.ConditionMet({0}, BOTH_01) && Event.ConditionMet({0, 1}, BOTH_01)
    ensures !Event.ConditionMet({}, ANY_03) && Event.ConditionMet({3}, ANY_03)
  {
    Event.MetIff({}, BOTH_01);
    Event.MetIff({0}, BOTH_01);
    Event.MetIff({0, 1}, BOTH_01);
    Event.MetIff({}, ANY_03);
    Event.MetIff({3}, ANY_03);
    assert 0 in BOTH_01.flags && 1 in BOTH_01.flags && 3 in ANY_03.flags;
  }

  lemma SettingIsAllowed(sys: Event.System, flags: Mask)
    requires KShape(sys.k)
    ensures Event.Allowed(sys, Event.Set(flags), 0, O)
  {
  }

  lemma EventIsShaped(sys: Event.System)
    requires Event.EventInv(sys, 0, O)
    ensures Event.SShape(sys) && KShape(sys.k)
  {
  }

  lemma AsleepThenGranted(w: Event.Waiter)
    ensures KShape(Waits(w, {0}, FirstBlocked(None), {1}).k) && KShape(Waits(w, {0, 1}, FirstYielded(), {}).k)
    ensures PhaseAt(Waits(w, {0}, FirstBlocked(None), {1}).k, O, 1) == Waiting(false)
    ensures PhaseAt(Waits(w, {0, 1}, FirstYielded(), {}).k, O, 1) == Granted
  {
    hide Shape, Unblock;
    FirstWakes();
    SecondYields();
  }

  /** Wait for flag 0 or flag 3: flag 3 alone wakes the thread, which returns it. */
  lemma OrWaitNeedsOne()
    ensures exists states: seq<Event.System> ::
              && EventFromBoot(states, OR_WAIT)
              && Event.SShape(states[3]) && states[3].k.sched.current == 1 && Occupied(states[3].k.sched.threads, 1)
              && Event.Returned(states[3], O) == Some({3})
  {
    hide Event.Act, Event.Allowed, Event.EventInv, Event.SShape, KInv, At, Event.Returned;
    var w := ANY_03;
    NotYet();
    StartsToWait(w);
    var s0, s1 := Listening(), Waits(w, {}, FirstBlocked(None), {1});
    Event.ActKeepsEventInv(s0, OR_WAIT[0], 0, O);
    EventIsShaped(s1);
    SettingIsAllowed(s1, {3});
    SetWhileWaiting(w, {}, {3});
    assert {} + {3} == {3};
    YieldsBack(w, {3});
    var s2, s3 := Waits(w, {3}, FirstYielded(), {}), Waits(w, {3}, FirstBack(), {});
    assert {3} * w.flags == {3};
    assert EventFromBoot([s0, s1, s2, s3], OR_WAIT);
  }

  // ---- Message queue ----

  const PARTIES: Queues.Parties := Queues.Parties(0, 1, 2, 0, 1)

  const HELLO: Ring.Msg := [7]

  ghost predicate QueueFromBoot(states: seq<Queues.System>, acts: seq<Queues.Action>) {
    && Queues.QRun(states, acts, PARTIES)
    && KReachable(states[0].k, 0, {0, 1}) && Queues.Initial(states[0], PARTIES)
  }

  /** A queue of one message of one byte. */
  function Empty(): Queues.System {
    Queues.System(Quiet(Start5(), {0, 1}), Ring.Queue([0], 1, 1, 0, 0, 0, {}, {}), [], [], [])
  }

  lemma EmptyIsReached()
    ensures QueueFromBoot([Empty()], [])
  {
    hide KInv;
    Start5IsReached({0, 1});
  }

  const WOKEN_RECEIVER: seq<Queues.Action> :=
    [Queues.Other(Schedule(OpYield)), Queues.RecvEnter(None), Queues.SendEnter(HELLO, None)]

  function Yielded(): Queues.System {
    Empty().(k := Empty().k.(sched := FirstYielded()))
  }

  function ReceiverAsleep(): Queues.System {
    Empty().(k := Kernel(SecondBlocked(None), Empty().k.pc[2 := Some(0)], map[0 := {2}, 1 := {}]))
  }

  lemma ReceiverSleeps()
    ensures Queues.SShape(Empty()) && Queues.Allowed(Empty(), WOKEN_RECEIVER[0], PARTIES)
    ensures Queues.Act(Empty(), WOKEN_RECEIVER[0], PARTIES) == Done(Yielded())
    ensures Queues.SShape(Yielded()) && Queues.Allowed(Yielded(), WOKEN_RECEIVER[1], PARTIES)
    ensures Queues.Act(Yielded(), WOKEN_RECEIVER[1], PARTIES) == Done(ReceiverAsleep())
  {
    hide Yield, BlockCurrent, Shape;
    FirstYields();
    SecondBlocks(None);
    var k := Yielded().k;
    assert Waiters(k, 0) + {2} == {2} && Waiters(k, 1) == {};
    assert k.waiters[0 := {2}][1 := {}] == map[0 := {2}, 1 := {}];
  }

  lemma ReceiverAsleepIsReached()
    ensures Queues.QInv(ReceiverAsleep(), PARTIES)
  {
    hide Queues.Act, Queues.Allowed, Queues.SShape, Queues.QInv, KInv;
    EmptyIsReached();
    ReceiverSleeps();
    var states := [Empty(), Yielded(), ReceiverAsleep()];
    assert Queues.QRun(states, WOKEN_RECEIVER[..2], PARTIES);
    Queues.RunSafety(states, WOKEN_RECEIVER[..2], PARTIES, 2);
  }

  lemma SenderWakesReceiver()
    requires Queues.QInv(ReceiverAsleep(), PARTIES)
    ensures Queues.Allowed(ReceiverAsleep(), WOKEN_RECEIVER[2], PARTIES)
    ensures Queues.Act(ReceiverAsleep(), WOKEN_RECEIVER[2], PARTIES).Done?
    ensures var sys := Queues.Act(ReceiverAsleep(), WOKEN_RECEIVER[2], PARTIES).value;
            && Queues.SShape(sys) && PhaseAt(sys.k, 0, 2) == Granted && sys.ring.count == 1
            && CanCall(sys.k, 0) && sys.k.sched.current == 1
  {
    hide Ring.Write, Ring.Offset, Ring.Ring, Good, KApply, Queues.ActSendEnter, Queues.AfterWake;
    var sys := ReceiverAsleep();
    Queues.SendEnterKernel(sys, HELLO, None, PARTIES);
    Queues.WakeOne(sys.k, 0, 0, 2);
    WakeKeepsCaller(sys.k, 0);
    assert sys.k.pc[2] == Some(0) && sys.k.sched.threads[2] == Some(BlockedAt(Fresh(Running, 5), 0, None));
  }

  lemma QInvIsShaped(sys: Queues.System)
    requires Queues.QInv(sys, PARTIES)
    ensures Queues.SShape(sys)
  {
  }

  lemma WakeKeepsCaller(k: Kernel, o: ObjectId)
    requires KShape(k)
    ensures var k' := Queues.AfterWake(k, o);
            k'.pc == k.pc && k'.sched.current == k.sched.current && k'.sched.started == k.sched.started
  {
    hide Shape, Lowest;
  }

  /** The receiver sleeps, the sender sends and then receives itself: the woken receiver's
      dequeue panics. */
  lemma SecondReceiverPanics()
    ensures exists states: seq<Queues.System> ::
              && QueueFromBoot(states, WOKEN_RECEIVER) && Queues.SShape(states[3])
              && PhaseAt(states[3].k, 0, 2) == Granted
              && var r := Queues.ActRecvEnter(states[3], None, PARTIES);
                 && r.Done? && Queues.SShape(r.value) && PhaseAt(r.value.k, 0, 2) == Granted
                 && Ring.RecvLeave(Queues.QueueOf(r.value, PARTIES), r.value.k.sched, IPC_OK, 2) == Panic
  {
    hide Queues.Act, Queues.Allowed, Queues.SShape, Queues.ActRecvEnter, Queues.QInv, Ring.RecvLeave, KInv;
    EmptyIsReached();
    ReceiverSleeps();
    ReceiverAsleepIsReached();
    SenderWakesReceiver();
    assert Queues.SShape(ReceiverAsleep()) by { QInvIsShaped(ReceiverAsleep()); }
    var sys := Queues.Act(ReceiverAsleep(), WOKEN_RECEIVER[2], PARTIES).value;
    var states := [Empty(), Yielded(), ReceiverAsleep(), sys];
    assert Queues.QRun(states, WOKEN_RECEIVER, PARTIES);
    Queues.RunSafety(states, WOKEN_RECEIVER, PARTIES, 3);
    Queues.SecondReceiverPanicsIff(sys, None, PARTIES);
    assert QueueFromBoot(states, WOKEN_RECEIVER);
  }

  const WOKEN_SENDER: seq<Queues.Action> :=
    [Queues.SendEnter(HELLO, None), Queues.SendEnter(HELLO, None), Queues.RecvEnter(None)]

  function Full(): Queues.System {
    Empty().(ring := Ring.Queue(HELLO, 1, 1, 0, 0, 1, {}, {}), sent := [HELLO])
  }

  function SenderAsleep(): Queues.System {
    Full().(k := Kernel(FirstBlocked(None), Full().k.pc[1 := Some(1)], map[0 := {}, 1 := {1}]), outgoing := HELLO)
  }

  lemma OneFits()
    ensures Queues.SShape(Empty()) && Queues.Allowed(Empty(), WOKEN_SENDER[0], PARTIES)
    ensures Queues.Act(Empty(), WOKEN_SENDER[0], PARTIES) == Done(Full())
  {
    hide Shape;
    FirstBlocks(None);
    var k := Empty().k;
    assert Waiters(k, 0) == {} && Waiters(k, 1) == {};
    assert k.waiters[0 := {}][1 := {}] == k.waiters;
    assert Ring.Write([0], 0, HELLO) == HELLO;
    assert [] + [HELLO] == [HELLO];
  }

  lemma SenderSleeps()
    ensures Queues.SShape(Full()) && Queues.Allowed(Full(), WOKEN_SENDER[1], PARTIES)
    ensures Queues.Act(Full(), WOKEN_SENDER[1], PARTIES) == Done(SenderAsleep())
  {
    hide BlockCurrent, Shape;
    FirstBlocks(None);
    var k := Full().k;
    assert Waiters(k, 0) == {} && Waiters(k, 1) + {1} == {1};
    assert k.waiters[0 := {}][1 := {1}] == map[0 := {}, 1 := {1}];
  }

  lemma SenderAsleepIsReached()
    ensures Queues.QInv(SenderAsleep(), PARTIES)
  {
    hide Queues.Act, Queues.Allowed, Queues.SShape, Queues.QInv, KInv;
    EmptyIsReached();
    OneFits();
    SenderSleeps();
    var states := [Empty(), Full(), SenderAsleep()];
    assert Queues.QRun(states, WOKEN_SENDER[..2], PARTIES);
    Queues.RunSafety(states, WOKEN_SENDER[..2], PARTIES, 2);
  }

  lemma ReceiverWakesSender()
    requires Queues.QInv(SenderAsleep(), PARTIES)
    ensures Queues.Allowed(SenderAsleep(), WOKEN_SENDER[2], PARTIES)
    ensures Queues.Act(SenderAsleep(), WOKEN_SENDER[2], PARTIES).Done?
    ensures var sys := Queues.Act(SenderAsleep(), WOKEN_SENDER[2], PARTIES).value;
            && Queues.SShape(sys) && PhaseAt(sys.k, 1, 1) == Granted
            && sys.ring.count == 0 && sys.ring.capacity == 1 && sys.ring.msgSize == 1
            && CanCall(sys.k, 0) && sys.k.sched.current == 2
  {
    hide Ring.Slot, Ring.Offset, Ring.Ring, Good, KApply, Queues.ActRecvEnter, Queues.AfterWake;
    var sys := SenderAsleep();
    Queues.RecvEnterKernel(sys, None, PARTIES);
    Queues.WakeOne(sys.k, 0, 1, 1);
    WakeKeepsCaller(sys.k, 1);
    assert sys.k.pc[1] == Some(1) && sys.k.sched.threads[1] == Some(BlockedAt(Fresh(Running, 5), 0, None));
  }

  /** The sender sleeps on a full queue, the receiver makes room and then sends itself: the
      woken sender writes a second message into a queue of one. */
  lemma SecondSenderOverfills()
    ensures exists states: seq<Queues.System> ::
              && QueueFromBoot(states, WOKEN_SENDER) && Queues.SShape(states[3])
              && PhaseAt(states[3].k, 1, 1) == Granted
              && var r := Queues.ActSendEnter(states[3], HELLO, None, PARTIES);
                 && r.Done? && Queues.SShape(r.value) && |r.value.outgoing| == r.value.ring.msgSize
                 && var after := Ring.SendLeave(Queues.QueueOf(r.value, PARTIES), r.value.k.sched, IPC_OK, 1, r.value.outgoing).0;
                    after.count > after.capacity
  {
    hide Queues.Act, Queues.Allowed, Queues.SShape, Queues.ActSendEnter, Queues.QInv, Ring.SendLeave, KInv;
    EmptyIsReached();
    OneFits();
    SenderSleeps();
    SenderAsleepIsReached();
    ReceiverWakesSender();
    assert Queues.SShape(SenderAsleep()) by { QInvIsShaped(SenderAsleep()); }
    var sys := Queues.Act(SenderAsleep(), WOKEN_SENDER[2], PARTIES).value;
    var states := [Empty(), Full(), SenderAsleep(), sys];
    assert Queues.QRun(states, WOKEN_SENDER, PARTIES);
    Queues.RunSafety(states, WOKEN_SENDER, PARTIES, 3);
    Queues.SecondSenderOverfillsIff(sys, HELLO, None, PARTIES);
    assert QueueFromBoot(states, WOKEN_SENDER);
  }

  // ---- Urgency ----

  const TWO_TAKES: seq<Sem.Action> := [Sem.TakeEnter(None), Sem.TakeEnter(None), Sem.Release]

  /** Thread 1 has priority 9, thread 2 the better priority 5. */
  function StartUnequal(): Sched {
    At([Fresh(Ready, 31), Fresh(Ready, 9), Fresh(Running, 5)], 2, {31, 9, 5}, Last5(2), 0, [First(2)])
  }

  function UrgentBlocked(): Sched {
    At([Fresh(Ready, 31), Fresh(Running, 9), BlockedAt(Fresh(Running, 5), 0, None)], 1, {31, 9}, Last5(2)[9 := 1], 0,
       [First(2), Cooperative(2, 1)])
  }

  function UnequalBlocked(): Sched {
    At([Fresh(Running, 31), BlockedAt(Fresh(Running, 9), 0, None), BlockedAt(Fresh(Running, 5), 0, None)], 0, {31},
       Last5(2)[9 := 1][31 := 0], 0, [First(2), Cooperative(2, 1), Cooperative(1, 0)])
  }

  lemma StartUnequalIsReached()
    ensures Booted(StartUnequal(), {O}) && KInv(Quiet(StartUnequal(), {O}), 0)
  {
    var ps := [31, 9, 5];
    assert Bits(ps) == {31, 9, 5} by {
      assert ps[0] in ps && ps[1] in ps && ps[2] in ps;
    }
    Boot(ps, 2, {O});
    var ts := FreshRow(ps);
    assert ts[2 := ts[2].(state := Running)] == [Fresh(Ready, 31), Fresh(Ready, 9), Fresh(Running, 5)];
    KReachableIsSafe(Quiet(StartUnequal(), {O}), 0, {O});
  }

  lemma UrgentBlocks()
    ensures Shape(StartUnequal()) && BlockCurrent(StartUnequal(), None) == Done(UrgentBlocked())
  {
    hide BlockCurrent;
    var ts := [Fresh(Ready, 31), Fresh(Ready, 9), Fresh(Running, 5)];
    var ts1 := ts[2 := BlockedAt(ts[2], 0, None)];
    assert BitsWithout(ts1, {31, 9, 5}, 5) == {31, 9};
    BlockAt(ts, 2, {31, 9, 5}, Last5(2), 0, [First(2)], None, 1);
    assert ts1[1 := ts1[1].(state := Running)]
        == [Fresh(Ready, 31), Fresh(Running, 9), BlockedAt(Fresh(Running, 5), 0, None)];
    assert [First(2)] + [Cooperative(2, 1)] == [First(2), Cooperative(2, 1)];
  }

  lemma LessUrgentBlocks()
    ensures Shape(UrgentBlocked()) && Shape(UnequalBlocked())
    ensures BlockCurrent(UrgentBlocked(), None) == Done(UnequalBlocked())
  {
    hide BlockCurrent;
    var ts := [Fresh(Ready, 31), Fresh(Running, 9), BlockedAt(Fresh(Running, 5), 0, None)];
    var ts1 := ts[1 := BlockedAt(ts[1], 0, None)];
    assert BitsWithout(ts1, {31, 9}, 9) == {31};
    BlockAt(ts, 1, {31, 9}, Last5(2)[9 := 1], 0, [First(2), Cooperative(2, 1)], None, 0);
    assert ts1[0 := ts1[0].(state := Running)]
        == [Fresh(Running, 31), BlockedAt(Fresh(Running, 9), 0, None), BlockedAt(Fresh(Running, 5), 0, None)];
    assert [First(2), Cooperative(2, 1)] + [Cooperative(1, 0)] == [First(2), Cooperative(2, 1), Cooperative(1, 0)];
  }

  function Untaken(): Sem.System {
    Sem.System(Quiet(StartUnequal(), {O}), 0, 0, 0, 0)
  }

  function UrgentTakes(): Sem.System {
    Untaken().(k := Kernel(UrgentBlocked(), Untaken().k.pc[2 := Some(O)], map[O := {2}]))
  }

  function BothTake(): Sem.System {
    Untaken().(k := Kernel(UnequalBlocked(), UrgentTakes().k.pc[1 := Some(O)], map[O := {1, 2}]))
  }

  lemma TakesBlock()
    ensures KShape(Untaken().k) && Sem.Allowed(Untaken(), TWO_TAKES[0], 0, O)
    ensures Sem.Act(Untaken(), TWO_TAKES[0], O) == Done(UrgentTakes())
    ensures KShape(UrgentTakes().k) && Sem.Allowed(UrgentTakes(), TWO_TAKES[1], 0, O)
    ensures Sem.Act(UrgentTakes(), TWO_TAKES[1], O) == Done(BothTake())
  {
    hide BlockCurrent, Shape;
    UrgentBlocks();
    LessUrgentBlocks();
    assert Waiters(Untaken().k, O) + {2} == {2} && Waiters(UrgentTakes().k, O) + {1} == {1, 2};
    assert Untaken().k.waiters[O := {2}] == map[O := {2}];
    assert UrgentTakes().k.waiters[O := {1, 2}] == map[O := {1, 2}];
  }

  /** Two threads wait for a unit; the release grants it to the one of priority 9 while the
      one of priority 5 sleeps on. */
  lemma ReleasePassesOverUrgent()
    ensures exists states: seq<Sem.System> ::
              && SemFromBoot(states, TWO_TAKES) && KShape(states[3].k)
              && PhaseAt(states[3].k, O, 1) == Granted && PhaseAt(states[3].k, O, 2).Waiting?
              && PriorityAt(states[3].k, 2) == 5 && PriorityAt(states[3].k, 1) == 9
  {
    hide Sem.Act, KInv;
    StartUnequalIsReached();
    TakesBlock();
    ReleasePicksOne();
    var sys := Sem.Act(BothTake(), Sem.Release, O).value;
    assert SemFromBoot([Untaken(), UrgentTakes(), BothTake(), sys], TWO_TAKES);
  }

  lemma ReleasePicksOne()
    ensures KShape(BothTake().k) && Sem.Act(BothTake(), Sem.Release, O).Done?
    ensures var k := Sem.Act(BothTake(), Sem.Release, O).value.k;
            && KShape(k) && PhaseAt(k, O, 1) == Granted && PhaseAt(k, O, 2).Waiting?
            && PriorityAt(k, 2) == 5 && PriorityAt(k, 1) == 9
  {
    hide Shape, Unblock, LowestFrom, Last5;
    LessUrgentBlocks();
    var sys := BothTake();
    assert Waiters(sys.k, O) == {1, 2} && Lowest({1, 2}) == 1;
    GrantInRow(sys.k.sched, 1);
    var k := sys.k.(sched := Unblock(sys.k.sched, 1), waiters := sys.k.waiters[O := {1, 2} - {1}]);
    assert Sem.Act(sys, Sem.Release, O).value.k == k;
    assert k.pc[1] == Some(O) && k.pc[2] == Some(O);
    assert k.sched.threads[2] == Some(BlockedAt(Fresh(Running, 5), 0, None));
  }

  lemma GrantInRow(s: Sched, id: nat)
    requires Shape(s) && id < MAX_THREADS && Occupied(s.threads, id) && AwaitingIpc(s.threads[id].value)
    ensures var t := s.threads[id].value;
            Unblock(s, id).threads
            == s.threads[id := Some(t.(state := Ready, ipcError := IPC_OK, isIpcWait := false, sleepUntil := 0))]
  {
  }
}
