/** Small concrete systems, for showing that the states the other modules speak of are ones
    the code can reach: a handful of threads in the first slots of the table, and what each
    scheduler operation does to them. */
module Examples {
  import opened Common
  import opened Masks
  import opened SchedulerSpec
  import opened SchedulerInvariant
  import opened SchedulerRuns
  import opened Kernel

  const TICKS: nat := 10

  function Row(ts: seq<Thread>): (r: Table)
    requires |ts| <= 4
    ensures |r| == MAX_THREADS
    ensures forall i | 0 <= i < MAX_THREADS :: r[i] == if i < |ts| then Some(ts[i]) else None
  {
    seq(MAX_THREADS, i requires 0 <= i < MAX_THREADS => if i < |ts| then Some(ts[i]) else None)
  }

  function Fresh(state: ThreadState, priority: nat): Thread {
    Thread(state, priority, TICKS, TICKS, 0, 0, false, {}, {})
  }

  function NoCursor(): (r: seq<nat>)
    ensures |r| == MAX_PRIORITY && forall p | 0 <= p < MAX_PRIORITY :: r[p] == NULL_ID
  {
    seq(MAX_PRIORITY, _ => NULL_ID)
  }

  function FreshRow(ps: seq<nat>): (ts: seq<Thread>)
    ensures |ts| == |ps| && forall i | 0 <= i < |ps| :: ts[i] == Fresh(Ready, ps[i])
  {
    seq(|ps|, i requires 0 <= i < |ps| => Fresh(Ready, ps[i]))
  }

  /** Threads created with the given priorities, nothing started. */
  function Created(ps: seq<nat>, ready: Mask): Sched
    requires |ps| <= 4
  {
    Sched(Row(FreshRow(ps)), |ps|, NULL_ID, ready, NoCursor(), 0, false, [])
  }

  /** A started scheduler with the threads `ts`. */
  function At(ts: seq<Thread>, current: nat, ready: Mask, cursor: seq<nat>, now: nat, log: seq<Handoff>): Sched
    requires |ts| <= 4
  {
    Sched(Row(ts), |ts|, current, ready, cursor, now, true, log)
  }

  ghost predicate RowOk(ts: seq<Thread>, cursor: seq<nat>) {
    && |ts| <= 4 && |cursor| == MAX_PRIORITY
    && (forall t | t in ts :: t.priority < MAX_PRIORITY)
    && (forall p | 0 <= p < MAX_PRIORITY :: cursor[p] < MAX_THREADS || cursor[p] == NULL_ID)
  }

  lemma AtIsShaped(ts: seq<Thread>, current: nat, ready: Mask, cursor: seq<nat>, now: nat, log: seq<Handoff>)
    requires RowOk(ts, cursor)
    ensures Shape(At(ts, current, ready, cursor, now, log))
  {
  }

  /** `next` is the Ready thread of the best set priority that comes first after the cursor. */
  ghost predicate Picks(ts: seq<Thread>, ready: Mask, cursor: seq<nat>, next: nat)
    requires RowOk(ts, cursor)
  {
    && next < |ts| && ts[next].state == Ready && ts[next].priority in ready
    && (forall p | p in ready :: ts[next].priority <= p)
    && forall j | 0 <= j < |ts| && ts[j].state == Ready && ts[j].priority == ts[next].priority ::
         Distance(ScanStart(cursor[ts[next].priority]), next) <= Distance(ScanStart(cursor[ts[next].priority]), j)
  }

  lemma PickIs(s: Sched, ts: seq<Thread>, next: nat)
    requires Shape(s) && RowOk(ts, s.cursor) && s.threads == Row(ts) && Picks(ts, s.ready, s.cursor, next)
    ensures PickNext(s) == Some(next)
  {
    hide PickNext, Scan, LowestFrom;
    assert Lowest(s.ready) == ts[next].priority;
    PickIsNearest(s, next);
    NearestIsOne(ScanStart(s.cursor[ts[next].priority]), next, PickNext(s).value);
  }

  lemma NearestIsOne(start: nat, i: nat, j: nat)
    requires start < MAX_THREADS && i < MAX_THREADS && j < MAX_THREADS && Distance(start, i) == Distance(start, j)
    ensures i == j
  {
  }

  /** Dispatching `next`, the current thread being one of the row. */
  lemma Dispatch(ts: seq<Thread>, current: nat, ready: Mask, cursor: seq<nat>, now: nat, log: seq<Handoff>,
                 mode: SwitchMode, next: nat)
    requires RowOk(ts, cursor) && current < |ts| && Picks(ts, ready, cursor, next) && next != current
    ensures Shape(At(ts, current, ready, cursor, now, log))
    ensures DoSchedule(At(ts, current, ready, cursor, now, log), mode)
            == Done(At(ts[next := ts[next].(state := Running)], next, ready, cursor[ts[next].priority := next], now,
                       log + [HandoffFor(mode, current, next)]))
  {
    var s := At(ts, current, ready, cursor, now, log);
    AtIsShaped(ts, current, ready, cursor, now, log);
    PickIs(s, ts, next);
    var t := ts[next].(state := Running);
    assert Row(ts)[next := Some(t)] == Row(ts[next := t]);
  }

  // ---- From `sched_init` on ----

  lemma CreateNext(ps: seq<nat>, ready: Mask, p: nat)
    requires |ps| < 4 && p < LOWEST_PRIORITY + 1 && forall q | q in ps :: q < MAX_PRIORITY
    ensures Shape(Created(ps, ready))
    ensures Create(Created(ps, ready), p, TICKS).0 == Created(ps + [p], ready + {p})
  {
    var s := Created(ps, ready);
    assert s.threads[|ps|].None?;
    forall i | 0 <= i < |ps|
      ensures s.threads[i] == Some(Fresh(Ready, ps[i])) && ps[i] < MAX_PRIORITY
    {
      assert ps[i] in ps;
    }
    assert FreeSlot(s, 0) == Some(|ps|);
    assert s.threads[|ps| := Some(NewThread(p, TICKS))] == Created(ps + [p], ready).threads;
  }

  lemma NoneCreated()
    ensures Init() == Created([], {})
  {
    assert Init().threads == Created([], {}).threads;
    assert Init().cursor == NoCursor();
  }

  lemma StartCreated(ps: seq<nat>, ready: Mask, next: nat)
    requires |ps| <= 4 && RowOk(FreshRow(ps), NoCursor()) && Picks(FreshRow(ps), ready, NoCursor(), next)
    ensures Shape(Created(ps, ready))
    ensures var ts := FreshRow(ps);
            Start(Created(ps, ready))
            == Done(At(ts[next := ts[next].(state := Running)], next, ready, NoCursor()[ps[next] := next], 0, [First(next)]))
  {
    hide PickNext;
    var ts := FreshRow(ps);
    forall i | 0 <= i < |ps|
      ensures ts[i].priority < MAX_PRIORITY
    {
      assert ts[i] in ts;
    }
    var s := Created(ps, ready);
    PickIs(s, ts, next);
    var t := ts[next].(state := Running);
    assert s.threads[next] == Some(ts[next]);
    assert Row(ts)[next := Some(t)] == Row(ts[next := t]);
    assert SetRunning(s, next).threads == Row(ts[next := t]);
    var r := Start(s).value;
    var x := At(ts[next := t], next, ready, NoCursor()[ps[next] := next], 0, [First(next)]);
    assert r.threads == x.threads;
    assert r.count == x.count;
    assert r.cursor == x.cursor;
    assert r.handoffs == x.handoffs;
  }

  // ---- Once started ----

  function BlockedAt(t: Thread, now: nat, timeout: Option<nat>): Thread {
    var t1 := t.(ipcError := IPC_WAIT_SENTINEL, isIpcWait := true);
    match timeout
    case Some(ticks) => t1.(sleepUntil := now + ticks, state := BlockedTimeout)
    case None => t1.(state := Blocked)
  }

  ghost function BitsWithout(ts: seq<Thread>, ready: Mask, p: nat): Mask {
    if exists j | 0 <= j < |ts| :: ts[j].state == Ready && ts[j].priority == p then ready else ready - {p}
  }

  lemma BlockAt(ts: seq<Thread>, current: nat, ready: Mask, cursor: seq<nat>, now: nat, log: seq<Handoff>,
                timeout: Option<nat>, next: nat)
    requires RowOk(ts, cursor) && current < |ts| && next != current
    requires var ts1 := ts[current := BlockedAt(ts[current], now, timeout)];
             RowOk(ts1, cursor) && Picks(ts1, BitsWithout(ts1, ready, ts[current].priority), cursor, next)
    ensures Shape(At(ts, current, ready, cursor, now, log))
    ensures var ts1 := ts[current := BlockedAt(ts[current], now, timeout)];
            BlockCurrent(At(ts, current, ready, cursor, now, log), timeout)
            == Done(At(ts1[next := ts1[next].(state := Running)], next, BitsWithout(ts1, ready, ts[current].priority),
                       cursor[ts1[next].priority := next], now, log + [Cooperative(current, next)]))
  {
    hide DoSchedule;
    var s := At(ts, current, ready, cursor, now, log);
    AtIsShaped(ts, current, ready, cursor, now, log);
    var ts1 := ts[current := BlockedAt(ts[current], now, timeout)];
    var p := ts[current].priority;
    assert Row(ts)[current := Some(ts1[current])] == Row(ts1);
    assert AnyReady(Row(ts1), p) <==> exists j | 0 <= j < |ts1| :: ts1[j].state == Ready && ts1[j].priority == p by {
      if j :| 0 <= j < |ts1| && ts1[j].state == Ready && ts1[j].priority == p {
        assert ReadyAt(Row(ts1), j, p);
      }
    }
    Dispatch(ts1, current, BitsWithout(ts1, ready, p), cursor, now, log, FromThread, next);
  }

  lemma YieldAt(ts: seq<Thread>, current: nat, ready: Mask, cursor: seq<nat>, now: nat, log: seq<Handoff>, next: nat)
    requires RowOk(ts, cursor) && current < |ts| && next != current && ts[current].state == Running
    requires var ts1 := ts[current := ts[current].(state := Ready)]; RowOk(ts1, cursor) && Picks(ts1, ready, cursor, next)
    ensures Shape(At(ts, current, ready, cursor, now, log))
    ensures var ts1 := ts[current := ts[current].(state := Ready)];
            Yield(At(ts, current, ready, cursor, now, log))
            == Done(At(ts1[next := ts1[next].(state := Running)], next, ready, cursor[ts1[next].priority := next], now,
                       log + [Cooperative(current, next)]))
  {
    hide DoSchedule;
    AtIsShaped(ts, current, ready, cursor, now, log);
    var ts1 := ts[current := ts[current].(state := Ready)];
    assert Row(ts)[current := Some(ts1[current])] == Row(ts1);
    Dispatch(ts1, current, ready, cursor, now, log, FromThread, next);
  }

  function AfterTick(t: Thread, now: nat): Thread {
    if Expired(t, now) then WakeThread(t) else t
  }

  /** A tick that wakes whoever is due and switches to nobody. */
  lemma TickAt(ts: seq<Thread>, current: nat, ready: Mask, cursor: seq<nat>, now: nat, log: seq<Handoff>, ready': Mask)
    requires RowOk(ts, cursor) && current < |ts| && ts[current].state == Running && ts[current].tick > 1
    requires ready' == ready + set i | 0 <= i < |ts| && Expired(ts[i], now + 1) :: ts[i].priority
    requires forall p | p in ready' :: ts[current].priority <= p
    ensures Shape(At(ts, current, ready, cursor, now, log))
    ensures var ts1 := seq(|ts|, i requires 0 <= i < |ts| => AfterTick(ts[i], now + 1));
            Tick(At(ts, current, ready, cursor, now, log))
            == Done(At(ts1[current := ts[current].(tick := ts[current].tick - 1)], current, ready', cursor, now + 1, log))
  {
    hide WakeExpired, Preempt, LowestFrom;
    var s := At(ts, current, ready, cursor, now, log);
    AtIsShaped(ts, current, ready, cursor, now, log);
    AfterWakeupsIsWakeExpired(s);
    WakeRow(ts, current, ready, cursor, now, log, ready');
    var ts1 := seq(|ts|, i requires 0 <= i < |ts| => AfterTick(ts[i], now + 1));
    var t := ts[current].(tick := ts[current].tick - 1);
    assert Row(ts1)[current := Some(t)] == Row(ts1[current := t]);
  }

  lemma WakeRow(ts: seq<Thread>, current: nat, ready: Mask, cursor: seq<nat>, now: nat, log: seq<Handoff>, ready': Mask)
    requires RowOk(ts, cursor)
    requires ready' == ready + set i | 0 <= i < |ts| && Expired(ts[i], now + 1) :: ts[i].priority
    ensures Shape(At(ts, current, ready, cursor, now, log))
    ensures var ts1 := seq(|ts|, i requires 0 <= i < |ts| => AfterTick(ts[i], now + 1));
            WakeExpired(At(ts, current, ready, cursor, now, log).(tickCount := now + 1), MAX_THREADS)
            == At(ts1, current, ready', cursor, now + 1, log)
  {
    AtIsShaped(ts, current, ready, cursor, now, log);
    var s := At(ts, current, ready, cursor, now, log).(tickCount := now + 1);
    var ts1 := seq(|ts|, i requires 0 <= i < |ts| => AfterTick(ts[i], now + 1));
    assert WakeExpired(s, MAX_THREADS).threads == Row(ts1);
    assert (set i | 0 <= i < MAX_THREADS && ExpiredAt(s, i) :: s.threads[i].value.priority)
        == (set i | 0 <= i < |ts| && Expired(ts[i], now + 1) :: ts[i].priority) by {
      assert forall i | 0 <= i < MAX_THREADS :: ExpiredAt(s, i) <==> i < |ts| && Expired(ts[i], now + 1);
    }
  }

  // ---- Reachable states ----

  ghost predicate RunTo(states: seq<Sched>, ops: seq<Op>, idle: nat, s: Sched) {
    Run(states, ops, idle) && states[0] == Init() && states[|ops|] == s
  }

  /** Some run from `sched_init` ends in `s`. */
  ghost predicate Reachable(s: Sched, idle: nat) {
    exists states: seq<Sched>, ops: seq<Op> :: RunTo(states, ops, idle, s)
  }

  lemma ReachInit(idle: nat)
    ensures Reachable(Init(), idle)
  {
    assert RunTo([Init()], [], idle, Init());
  }

  lemma ReachStep(s: Sched, op: Op, idle: nat, s': Sched)
    requires Reachable(s, idle) && Step(s, op, idle, s')
    ensures Reachable(s', idle)
  {
    hide Step, Apply, Legal;
    var states: seq<Sched>, ops: seq<Op> :| RunTo(states, ops, idle, s);
    var longer, more := states + [s'], ops + [op];
    forall k | 0 <= k < |more|
      ensures Step(longer[k], more[k], idle, longer[k + 1])
    {
      if k < |ops| {
        assert Step(states[k], ops[k], idle, states[k + 1]);
      }
    }
    assert RunTo(longer, more, idle, s');
  }

  lemma ReachableIsGood(s: Sched, idle: nat)
    requires Reachable(s, idle)
    ensures Good(s, idle)
  {
    var states: seq<Sched>, ops: seq<Op> :| RunTo(states, ops, idle, s);
    RunSafety(states, ops, idle, |ops|);
  }

  ghost predicate KRunTo(ks: seq<Kernel>, steps: seq<KStep>, idle: nat, objects: set<ObjectId>, k: Kernel) {
    KRun(ks, steps, idle) && ks[0] == KInit(objects) && ks[|steps|] == k
  }

  /** Some run of the kernel with these objects ends in `k`. */
  ghost predicate KReachable(k: Kernel, idle: nat, objects: set<ObjectId>) {
    exists ks: seq<Kernel>, steps: seq<KStep> :: KRunTo(ks, steps, idle, objects, k)
  }

  lemma KReachStep(k: Kernel, step: KStep, idle: nat, objects: set<ObjectId>, k': Kernel)
    requires KReachable(k, idle, objects)
    requires KShape(k) && KLegal(k, step, idle) && KApply(k, step) == Done(k')
    ensures KReachable(k', idle, objects)
  {
    hide KApply, KLegal, KShape;
    var ks: seq<Kernel>, steps: seq<KStep> :| KRunTo(ks, steps, idle, objects, k);
    var longer, more := ks + [k'], steps + [step];
    forall n | 0 <= n < |more|
      ensures KShape(longer[n]) && KLegal(longer[n], more[n], idle) && KApply(longer[n], more[n]) == Done(longer[n + 1])
    {
      if n < |steps| {
        assert KApply(ks[n], steps[n]) == Done(ks[n + 1]);
      }
    }
    assert KRunTo(longer, more, idle, objects, k');
  }

  lemma KReachableIsSafe(k: Kernel, idle: nat, objects: set<ObjectId>)
    requires KReachable(k, idle, objects)
    ensures KInv(k, idle)
  {
    var ks: seq<Kernel>, steps: seq<KStep> :| KRunTo(ks, steps, idle, objects, k);
    KRunSafety(ks, steps, idle, objects, |steps|);
  }

  // ---- From `sched_init` to the first thread ----

  /** A scheduler whose threads have called no object yet. */
  function Quiet(s: Sched, objects: set<ObjectId>): Kernel {
    KInit(objects).(sched := s)
  }

  ghost predicate Booted(s: Sched, objects: set<ObjectId>) {
    Reachable(s, 0) && KReachable(Quiet(s, objects), 0, objects)
  }

  lemma BootStep(s: Sched, op: Op, objects: set<ObjectId>, s': Sched)
    requires Booted(s, objects) && (op.OpCreate? || op.OpStart?) && Step(s, op, 0, s')
    ensures Booted(s', objects)
  {
    hide Create, Start;
    ReachStep(s, op, 0, s');
    KReachStep(Quiet(s, objects), Schedule(op), 0, objects, Quiet(s', objects));
  }

  function Bits(ps: seq<nat>): Mask
    requires forall p | p in ps :: p <= LOWEST_PRIORITY
  {
    set p | p in ps
  }

  lemma BootInit(objects: set<ObjectId>)
    ensures Booted(Init(), objects)
  {
    ReachInit(0);
    assert KRunTo([KInit(objects)], [], 0, objects, Quiet(Init(), objects));
  }

  lemma CreateStep(ps: seq<nat>, p: nat)
    requires |ps| < 4 && p <= LOWEST_PRIORITY && forall q | q in ps :: q <= LOWEST_PRIORITY
    ensures Step(Created(ps, Bits(ps)), OpCreate(p, TICKS), 0, Created(ps + [p], Bits(ps + [p])))
  {
    hide Created, Create, Shape;
    CreateNext(ps, Bits(ps), p);
    assert Bits(ps) + {p} == Bits(ps + [p]);
  }

  lemma {:induction false} BootCreated(ps: seq<nat>, objects: set<ObjectId>)
    requires |ps| <= 4 && forall p | p in ps :: p <= LOWEST_PRIORITY
    ensures Booted(Created(ps, Bits(ps)), objects)
  {
    hide Created, Step, Legal, Apply, Booted;
    if ps == [] {
      NoneCreated();
      assert Bits(ps) == {};
      BootInit(objects);
    } else {
      var rest, p := ps[..|ps| - 1], ps[|ps| - 1];
      assert ps == rest + [p] && p in ps;
      assert forall q | q in rest :: q in ps;
      BootCreated(rest, objects);
      CreateStep(rest, p);
      BootStep(Created(rest, Bits(rest)), OpCreate(p, TICKS), objects, Created(ps, Bits(ps)));
    }
  }

  /** The system after `sched_start`, thread 0 being the idle thread. */
  lemma Boot(ps: seq<nat>, next: nat, objects: set<ObjectId>)
    requires 0 < |ps| <= 4 && (forall p | p in ps :: p <= LOWEST_PRIORITY)
    requires RowOk(FreshRow(ps), NoCursor()) && Picks(FreshRow(ps), Bits(ps), NoCursor(), next)
    ensures var ts := FreshRow(ps);
            Booted(At(ts[next := ts[next].(state := Running)], next, Bits(ps), NoCursor()[ps[next] := next], 0,
                      [First(next)]), objects)
  {
    hide Start;
    BootCreated(ps, objects);
    StartCreated(ps, Bits(ps), next);
    var ts := FreshRow(ps);
    BootStep(Created(ps, Bits(ps)), OpStart, objects,
             At(ts[next := ts[next].(state := Running)], next, Bits(ps), NoCursor()[ps[next] := next], 0, [First(next)]));
  }
}
