/** The scheduler and the machine together, from `sched_init` on: creating a thread builds its
    first frame, the start loads one, and from then on the machine carries out what the
    scheduler decides. */
module JointRuns {
  import opened Common
  import opened ArmSpec
  import opened SchedulerSpec
  import opened SchedulerInvariant
  import opened SwitchRuns
  import SchedulerRuns

  // ---- What the scheduler logs ----

  /** From `s` to `s'` nobody was switched, or the current thread handed over to the next. */
  ghost predicate Logged(s: Sched, s': Sched, mode: SwitchMode) {
    || (s'.handoffs == s.handoffs && s'.current == s.current)
    || (s'.handoffs == s.handoffs + [HandoffFor(mode, s.current, s'.current)] && s'.current != s.current)
  }

  lemma DoScheduleLogs(s: Sched, mode: SwitchMode)
    requires Shape(s) && DoSchedule(s, mode).Done?
    ensures Logged(s, DoSchedule(s, mode).value, mode)
  {
    hide PickNext, Shape;
  }

  lemma TickLogs(s: Sched)
    requires Shape(s) && Tick(s).Done?
    ensures Logged(s, Tick(s).value, FromIsr)
  {
    hide DoSchedule, Shape, WakeExpired, Logged;
    var s1 := AfterWakeups(s);
    assert s1.handoffs == s.handoffs && s1.current == s.current by { AfterWakeupsIsWakeExpired(s); WakingLogsNothing(s); }
    TimeSliceLogs(s1);
    assert Logged(s, TimeSlice(s1).value, FromIsr) by { SameLog(s, s1, TimeSlice(s1).value, FromIsr); }
  }

  lemma WakingLogsNothing(s: Sched)
    requires Shape(s)
    ensures var s1 := WakeExpired(s.(tickCount := s.tickCount + 1), MAX_THREADS);
            s1.handoffs == s.handoffs && s1.current == s.current
  {
  }

  lemma SameLog(s: Sched, s1: Sched, s': Sched, mode: SwitchMode)
    requires s1.handoffs == s.handoffs && s1.current == s.current && Logged(s1, s', mode)
    ensures Logged(s, s', mode)
  {
  }

  lemma TimeSliceLogs(s: Sched)
    requires Shape(s) && TimeSlice(s).Done?
    ensures Logged(s, TimeSlice(s).value, FromIsr)
  {
    hide DoSchedule, Preempt;
    var s1 := s;
    if CurrentRunning(s) {
      var t := s.threads[s.current].value;
      s1 := Put(s, s.current, t.(tick := if Decrement(t.tick) == 0 then t.initTick else t.tick - 1));
    }
    if TimeSlice(s).value != s1 {
      PreemptLogs(s1);
    }
  }

  lemma PreemptLogs(s: Sched)
    requires Shape(s) && s.current < MAX_THREADS && Preempt(s).Done?
    ensures Logged(s, Preempt(s).value, FromIsr)
  {
    hide DoSchedule;
    var s1 := if CurrentRunning(s)
              then DemoteCurrent(s).(ready := s.ready + {s.threads[s.current].value.priority})
              else s;
    DoScheduleLogs(s1, FromIsr);
  }

  lemma LeavingLogs(s: Sched, t: Thread)
    requires Shape(s) && s.current < MAX_THREADS && t.priority < MAX_PRIORITY
    requires DoSchedule(Suspended(s, t), FromThread).Done?
    ensures Logged(s, DoSchedule(Suspended(s, t), FromThread).value, FromThread)
  {
    hide DoSchedule;
    DoScheduleLogs(Suspended(s, t), FromThread);
  }

  /** An operation logs at most one hand-off, from the current thread to the next one, of the
      kind its caller's mode asks for. */
  lemma OperationLogs(s: Sched, op: SchedulerRuns.Op, idle: nat)
    requires SchedulerRuns.Good(s, idle) && SchedulerRuns.Legal(s, op, idle) && s.started
    ensures SchedulerRuns.Apply(s, op).Done?
    ensures Logged(s, SchedulerRuns.Apply(s, op).value, if op.OpTick? then FromIsr else FromThread)
  {
    hide DoSchedule, Tick;
    SchedulerRuns.StepKeepsGood(s, op, idle);
    match op {
      case OpYield => DoScheduleLogs(DemoteCurrent(s), FromThread);
      case OpSleep(ticks) => LeavingLogs(s, SleepingThread(s, s.threads[s.current].value, ticks));
      case OpBlock(timeout) => LeavingLogs(s, BlockedThread(s, s.threads[s.current].value, timeout));
      case OpTick => TickLogs(s);
      case OpCreate(_, _) =>
      case OpUnblock(_) =>
      case OpStart =>
    }
  }

  // ---- Before the start ----

  /** The scheduler, the machine running the boot code, and the first contexts built so far. */
  datatype Boot = Boot(s: Sched, m: Machine, saved: map<nat, Context>)

  datatype BootStep =
    | Prepare(next: Machine)
    | BootCreate(priority: nat, tick: nat, entry: nat, parameter: nat, exit: nat)

  predicate HasThread(s: Sched, t: nat) {
    t < MAX_THREADS && Occupied(s.threads, t)
  }

  /** Nothing started; every thread in the table, and no other, has its first context in
      memory on its own stack. */
  ghost predicate BootOk(l: Layout, b: Boot, idle: nat) {
    && SchedulerRuns.Good(b.s, idle) && !b.s.started && b.s.handoffs == []
    && LayoutOk(l) && |b.m.r| == 13 && Mode(b.m.cpsr) == SVC_MODE && Read(b.m.mem, l.sw.flag) != 1
    && l.irqStack.lo + IRQ_SAVE <= b.m.irq.sp <= l.irqStack.hi
    && (forall t: nat :: t in b.saved <==> HasThread(b.s, t))
    && forall t | t in b.saved :: Kept(l, b.m.mem, t, b.saved[t])
  }

  /** A word that the first contexts and the switch do not depend on. */
  ghost predicate BootHarmless(l: Layout, b: Boot, x: nat)
    requires LayoutOk(l)
  {
    && x != l.sw.flag && (forall i | 0 <= i < MAX_THREADS :: x != l.slots[i])
    && forall t | t in b.saved :: Outside(x, b.saved[t].sp, FRAME)
  }

  /** `stack_init` is called for the lowest free slot; its stack must hold one frame. */
  ghost predicate BootLegal(l: Layout, b: Boot, step: BootStep)
    requires LayoutOk(l) && Shape(b.s)
  {
    match step
    case Prepare(next) =>
      && |next.r| == 13 && Mode(next.cpsr) == SVC_MODE && next.irq.sp == b.m.irq.sp
      && forall x: nat | !BootHarmless(l, b, x) :: Read(next.mem, x) == Read(b.m.mem, x)
    case BootCreate(_, _, _, _, _) =>
      var slot := FreeSlot(b.s, 0);
      slot.Some? ==> slot.value < MAX_THREADS && Room(l, slot.value, StackTop(l.stacks[slot.value]))
  }

  ghost function BootApply(l: Layout, b: Boot, step: BootStep): Boot
    requires LayoutOk(l) && Shape(b.s) && BootLegal(l, b, step)
  {
    match step
    case Prepare(next) => b.(m := next)
    case BootCreate(priority, tick, entry, parameter, exit) =>
      var s' := Create(b.s, priority, tick).0;
      match FreeSlot(b.s, 0)
      case None => b.(s := s')
      case Some(t) =>
        var c := InitialContext(l.stacks[t], entry, parameter, exit);
        Boot(s', b.m.(mem := Save(b.m.mem, c, l.slots[t])), b.saved[t := c])
  }

  lemma BootInit(l: Layout, m: Machine, idle: nat)
    requires LayoutOk(l) && |m.r| == 13 && Mode(m.cpsr) == SVC_MODE && Read(m.mem, l.sw.flag) != 1
    requires l.irqStack.lo + IRQ_SAVE <= m.irq.sp <= l.irqStack.hi
    ensures BootOk(l, Boot(Init(), m, map[]), idle)
  {
    SchedulerRuns.InitGood(idle);
  }

  lemma BootKeepsOk(l: Layout, b: Boot, step: BootStep, idle: nat)
    requires BootOk(l, b, idle) && BootLegal(l, b, step)
    ensures BootOk(l, BootApply(l, b, step), idle)
  {
    match step {
      case Prepare(next) => PreparingKeepsOk(l, b, next, idle);
      case BootCreate(priority, tick, entry, parameter, exit) =>
        CreatingKeepsOk(l, b, priority, tick, entry, parameter, exit, idle);
    }
  }

  lemma PreparingKeepsOk(l: Layout, b: Boot, next: Machine, idle: nat)
    requires BootOk(l, b, idle) && BootLegal(l, b, Prepare(next))
    ensures BootOk(l, b.(m := next), idle)
  {
    hide Kept, SchedulerRuns.Good;
    forall t | t in b.saved
      ensures Kept(l, next.mem, t, b.saved[t])
    {
      KeptInRange(l, b.m.mem, t, b.saved[t]);
      assert forall x | b.saved[t].sp - FRAME <= x < b.saved[t].sp :: !BootHarmless(l, b, x);
      assert !BootHarmless(l, b, l.slots[t]);
      KeptStands(l, b.m.mem, next.mem, t, b.saved[t]);
    }
    assert !BootHarmless(l, b, l.sw.flag);
  }

  lemma CreatingKeepsOk(l: Layout, b: Boot, priority: nat, tick: nat, entry: nat, parameter: nat, exit: nat, idle: nat)
    requires BootOk(l, b, idle) && BootLegal(l, b, BootCreate(priority, tick, entry, parameter, exit))
    ensures BootOk(l, BootApply(l, b, BootCreate(priority, tick, entry, parameter, exit)), idle)
  {
    hide Saved, Save, Kept, SchedulerRuns.Good;
    CreatedSlot(b.s, priority, tick, idle);
    var slot := FreeSlot(b.s, 0);
    if slot.Some? {
      var c := InitialContext(l.stacks[slot.value], entry, parameter, exit);
      OwnSaveIsKept(l, b.m.mem, slot.value, c);
      FlagUntouched(l, b.m.mem, slot.value, c);
      forall u | u in b.saved
        ensures Kept(l, Save(b.m.mem, c, l.slots[slot.value]), u, b.saved[u])
      {
        SaveKeepsOthers(l, b.m.mem, slot.value, c, u, b.saved[u]);
      }
    }
  }

  /** Creation fills the lowest free slot and touches nothing else of the table or the log. */
  lemma CreatedSlot(s: Sched, priority: nat, tick: nat, idle: nat)
    requires SchedulerRuns.Good(s, idle)
    ensures Shape(s) && FreeSlot(s, 0) == Create(s, priority, tick).1
    ensures var (s', slot) := Create(s, priority, tick);
            && SchedulerRuns.Good(s', idle) && s'.started == s.started
            && s'.handoffs == s.handoffs && s'.current == s.current
            && (slot.Some? ==> slot.value < MAX_THREADS && !HasThread(s, slot.value))
            && forall t: nat :: HasThread(s', t) <==> HasThread(s, t) || slot == Some(t)
  {
    SchedulerRuns.StepKeepsGood(s, SchedulerRuns.OpCreate(priority, tick), idle);
  }

  // ---- Once started ----

  /** `pending` are the hand-offs the scheduler has decided and the machine has not carried
      out yet: one between a thread's operation and its switch, any number inside an
      interrupt, none otherwise. */
  datatype Joint = Joint(s: Sched, w: World, pending: seq<Handoff>)

  /** Creating a thread builds its frame at once; everything else is decided first and carried
      out later. */
  datatype JointStep =
    | Decide(op: SchedulerRuns.Op)
    | CarryOut(e: Event)
    | NewThread(priority: nat, tick: nat, entry: nat, parameter: nat, exit: nat)

  ghost predicate JointLegal(l: Layout, j: Joint, step: JointStep, idle: nat)
    requires WorldOk(l, j.w)
  {
    match step
    case Decide(op) =>
      !op.OpCreate? && Shape(j.s) && SchedulerRuns.Legal(j.s, op, idle) && SchedulerRuns.Apply(j.s, op).Done?
    case CarryOut(e) => !e.Spawn? && Legal(l, j.w, e) && Log(e) == j.pending
    case NewThread(_, _, entry, parameter, exit) =>
      Shape(j.s) && (FreeSlot(j.s, 0).Some? ==> Legal(l, j.w, Spawn(FreeSlot(j.s, 0).value, entry, parameter, exit)))
  }

  ghost function JointApply(l: Layout, j: Joint, step: JointStep, idle: nat): Joint
    requires WorldOk(l, j.w) && JointLegal(l, j, step, idle)
  {
    match step
    case Decide(op) =>
      var s' := SchedulerRuns.Apply(j.s, op).value;
      Joint(s', j.w, j.pending + if |j.s.handoffs| <= |s'.handoffs| then s'.handoffs[|j.s.handoffs|..] else [])
    case CarryOut(e) => Joint(j.s, Apply(l, j.w, e), [])
    case NewThread(priority, tick, entry, parameter, exit) =>
      var s' := Create(j.s, priority, tick).0;
      match FreeSlot(j.s, 0)
      case None => j.(s := s')
      case Some(t) => Joint(s', Apply(l, j.w, Spawn(t, entry, parameter, exit)), j.pending)
  }

  ghost predicate JointRun(l: Layout, js: seq<Joint>, steps: seq<JointStep>, idle: nat) {
    && |js| == |steps| + 1
    && forall n | 0 <= n < |steps| ::
         WorldOk(l, js[n].w) && JointLegal(l, js[n], steps[n], idle) && js[n + 1] == JointApply(l, js[n], steps[n], idle)
  }

  /** The machine has a context for every thread in the table, running or saved, and for no
      other. */
  ghost predicate SameThreads(s: Sched, w: World) {
    forall t: nat :: Knows(w, t) <==> HasThread(s, t)
  }

  predicate Knows(w: World, t: nat) {
    t in w.saved || t == w.cur
  }

  /** The scheduler's log is what the machine has carried out, which left it at its current
      thread, followed by what is pending. */
  ghost predicate InStep(j: Joint) {
    && |j.pending| <= |j.s.handoffs|
    && j.s.handoffs[|j.s.handoffs| - |j.pending|..] == j.pending
    && Holder(j.s.handoffs[..|j.s.handoffs| - |j.pending|]) == j.w.cur
  }

  ghost predicate Together(l: Layout, j: Joint, idle: nat) {
    && SchedulerRuns.Good(j.s, idle) && j.s.started && WorldOk(l, j.w)
    && SameThreads(j.s, j.w) && InStep(j)
  }

  /** `sched_start`, with the address of the chosen thread's `sp` field in r0. */
  ghost predicate CanLaunch(l: Layout, b: Boot, idle: nat) {
    && Shape(b.s) && LayoutOk(l) && |b.m.r| == 13 && SchedulerRuns.Legal(b.s, SchedulerRuns.OpStart, idle)
    && Start(b.s).Done? && Start(b.s).value.current < MAX_THREADS && b.m.r[0] == l.slots[Start(b.s).value.current]
  }

  ghost function Launch(l: Layout, b: Boot, idle: nat): Joint
    requires CanLaunch(l, b, idle)
  {
    var s' := Start(b.s).value;
    Joint(s', World(Restore(b.m, Saved(b.m.mem, b.m.r[0])), s'.current, b.saved), [])
  }

  /** The start brings both into step: the machine goes on with exactly the context built for
      the thread the scheduler picked. */
  lemma LaunchStartsTogether(l: Layout, b: Boot, idle: nat)
    requires BootOk(l, b, idle) && CanLaunch(l, b, idle)
    ensures var j := Launch(l, b, idle);
            && Together(l, j, idle) && j.w.cur in b.saved && ContextOf(j.w.m) == b.saved[j.w.cur]
  {
    hide Saved, Restore, Kept, WorldOk, SchedulerRuns.Good, LayoutOk;
    StartedThread(b.s, idle);
    var j := Launch(l, b, idle);
    FirstThreadStarts(l, b.m, j.w.cur, b.saved);
    assert j.s.handoffs[..|j.s.handoffs|] == j.s.handoffs;
  }

  lemma StartedThread(s: Sched, idle: nat)
    requires SchedulerRuns.Good(s, idle) && SchedulerRuns.Legal(s, SchedulerRuns.OpStart, idle) && Start(s).Done?
    ensures var s' := Start(s).value;
            && SchedulerRuns.Good(s', idle) && s'.started && HasThread(s, s'.current)
            && Holder(s'.handoffs) == s'.current
            && forall t: nat :: HasThread(s', t) <==> HasThread(s, t)
  {
    hide PickNext;
    SchedulerRuns.StepKeepsGood(s, SchedulerRuns.OpStart, idle);
  }

  // ---- Every step keeps them together ----

  lemma DecidingStaysTogether(l: Layout, j: Joint, op: SchedulerRuns.Op, idle: nat)
    requires Together(l, j, idle) && JointLegal(l, j, Decide(op), idle)
    ensures Together(l, JointApply(l, j, Decide(op), idle), idle)
  {
    hide WorldOk, Legal, SchedulerRuns.Good, SchedulerRuns.Apply, Shape, InStep, Knows, HasThread;
    SchedulerRuns.StepKeepsGood(j.s, op, idle);
    OperationLogs(j.s, op, idle);
    StillStarted(j.s, op, idle);
    Decided(j, JointApply(l, j, Decide(op), idle));
  }

  lemma Decided(j: Joint, j': Joint)
    requires InStep(j) && j'.w == j.w && j.s.handoffs <= j'.s.handoffs
    requires j'.pending == j.pending + j'.s.handoffs[|j.s.handoffs|..]
    ensures InStep(j')
  {
    hide Holder;
    var log := j.s.handoffs[..|j.s.handoffs| - |j.pending|];
    assert j.s.handoffs == log + j.pending;
    LogGrows(log, j.pending, j.s.handoffs, j'.s.handoffs, j'.pending);
  }

  /** A running scheduler goes on running, with the same threads. */
  lemma StillStarted(s: Sched, op: SchedulerRuns.Op, idle: nat)
    requires SchedulerRuns.Good(s, idle) && SchedulerRuns.Legal(s, op, idle) && s.started && !op.OpCreate?
    ensures SchedulerRuns.Apply(s, op).Done? && SchedulerRuns.Apply(s, op).value.started
    ensures forall t: nat :: HasThread(SchedulerRuns.Apply(s, op).value, t) <==> HasThread(s, t)
  {
    SchedulerRuns.StepKeepsGood(s, op, idle);
    var s' := SchedulerRuns.Apply(s, op).value;
    forall t: nat
      ensures HasThread(s', t) <==> HasThread(s, t)
    {
      if t < MAX_THREADS {
        SchedulerRuns.StepSlot(s, op, idle, s', t);
      }
    }
  }

  lemma LogGrows(log: seq<Handoff>, pending: seq<Handoff>, before: seq<Handoff>, after: seq<Handoff>, pending': seq<Handoff>)
    requires before == log + pending && before <= after && pending' == pending + after[|before|..]
    ensures |pending'| <= |after| && after[|after| - |pending'|..] == pending' && after[..|after| - |pending'|] == log
  {
  }

  lemma CarryingOutStaysTogether(l: Layout, j: Joint, e: Event, idle: nat)
    requires Together(l, j, idle) && JointLegal(l, j, CarryOut(e), idle)
    ensures Together(l, JointApply(l, j, CarryOut(e), idle), idle)
  {
    hide WorldOk, Legal, SchedulerRuns.Good, Apply, InStep, Knows, HasThread;
    StepResumes(l, j.w, e);
    SwitchingKeepsThreads(l, j.w, e);
    CarriedOut(j, e, Apply(l, j.w, e));
  }

  lemma CarriedOut(j: Joint, e: Event, w: World)
    requires InStep(j) && Log(e) == j.pending && w.cur == if Log(e) == [] then j.w.cur else Holder(Log(e))
    ensures InStep(Joint(j.s, w, []))
  {
    hide Log;
    Splits(j.s.handoffs, j.pending);
    HolderOfTail(j.s.handoffs[..|j.s.handoffs| - |j.pending|], j.pending);
  }

  lemma Splits(all: seq<Handoff>, end: seq<Handoff>)
    requires |end| <= |all| && all[|all| - |end|..] == end
    ensures all == all[..|all| - |end|] + end && all[..|all|] == all
  {
  }

  lemma HolderOfTail(log: seq<Handoff>, end: seq<Handoff>)
    ensures Holder(log + end) == if end == [] then Holder(log) else Holder(end)
  {
    assert end == [] ==> log + end == log;
  }

  lemma SwitchingKeepsThreads(l: Layout, w: World, e: Event)
    requires WorldOk(l, w) && Legal(l, w, e) && !e.Spawn?
    ensures forall t: nat :: Knows(Apply(l, w, e), t) <==> Knows(w, t)
  {
    hide WorldOk, SwitchSpec, IrqSpec;
  }

  /** For a new thread the machine asks for nothing but room on its stack. */
  lemma NewThreadIsLegalIff(l: Layout, j: Joint, priority: nat, tick: nat, entry: nat, parameter: nat, exit: nat, idle: nat)
    requires Together(l, j, idle)
    ensures JointLegal(l, j, NewThread(priority, tick, entry, parameter, exit), idle) <==>
            match FreeSlot(j.s, 0)
            case None => true
            case Some(t) => t < MAX_THREADS && Room(l, t, StackTop(l.stacks[t]))
  {
    hide SchedulerRuns.Good;
    CreatedSlot(j.s, priority, tick, idle);
  }

  lemma NewThreadStaysTogether(l: Layout, j: Joint, priority: nat, tick: nat, entry: nat, parameter: nat, exit: nat, idle: nat)
    requires Together(l, j, idle) && JointLegal(l, j, NewThread(priority, tick, entry, parameter, exit), idle)
    ensures Together(l, JointApply(l, j, NewThread(priority, tick, entry, parameter, exit), idle), idle)
  {
    hide WorldOk, SchedulerRuns.Good, Create, Legal, Apply, Knows, HasThread, FreeSlot, InStep, Shape;
    CreatedSlot(j.s, priority, tick, idle);
    var slot, j' := FreeSlot(j.s, 0), JointApply(l, j, NewThread(priority, tick, entry, parameter, exit), idle);
    if slot.Some? {
      StepResumes(l, j.w, Spawn(slot.value, entry, parameter, exit));
      SpawningKnowsOneMore(l, j.w, slot.value, entry, parameter, exit);
    }
    StillInStep(j, j');
  }

  lemma StillInStep(j: Joint, j': Joint)
    requires InStep(j) && j'.s.handoffs == j.s.handoffs && j'.w.cur == j.w.cur && j'.pending == j.pending
    ensures InStep(j')
  {
  }

  lemma SpawningKnowsOneMore(l: Layout, w: World, t: nat, entry: nat, parameter: nat, exit: nat)
    requires WorldOk(l, w) && Legal(l, w, Spawn(t, entry, parameter, exit))
    ensures var w' := Apply(l, w, Spawn(t, entry, parameter, exit));
            w'.cur == w.cur && forall u: nat :: Knows(w', u) <==> Knows(w, u) || u == t
  {
    hide WorldOk, Save;
  }

  lemma JointStepStaysTogether(l: Layout, j: Joint, step: JointStep, idle: nat)
    requires Together(l, j, idle) && JointLegal(l, j, step, idle)
    ensures Together(l, JointApply(l, j, step, idle), idle)
  {
    hide Together, JointApply, JointLegal, WorldOk;
    match step {
      case Decide(op) => DecidingStaysTogether(l, j, op, idle);
      case CarryOut(e) => CarryingOutStaysTogether(l, j, e, idle);
      case NewThread(priority, tick, entry, parameter, exit) =>
        NewThreadStaysTogether(l, j, priority, tick, entry, parameter, exit, idle);
    }
  }

  lemma TogetherAgree(l: Layout, j: Joint, idle: nat)
    requires Together(l, j, idle)
    ensures j.pending == [] ==> j.w.cur == j.s.current
  {
    hide WorldOk, SameThreads;
    assert j.s.handoffs[..|j.s.handoffs|] == j.s.handoffs;
  }

  // ---- Whole runs ----

  ghost predicate BootRun(l: Layout, bs: seq<Boot>, boots: seq<BootStep>) {
    && |bs| == |boots| + 1 && LayoutOk(l)
    && forall n | 0 <= n < |boots| :: Shape(bs[n].s) && BootLegal(l, bs[n], boots[n]) && bs[n + 1] == BootApply(l, bs[n], boots[n])
  }

  lemma {:induction false} BootSafety(l: Layout, bs: seq<Boot>, boots: seq<BootStep>, idle: nat, n: nat)
    requires BootRun(l, bs, boots) && BootOk(l, bs[0], idle) && n <= |boots|
    ensures BootOk(l, bs[n], idle)
  {
    hide BootOk, BootLegal, BootApply, LayoutOk;
    if n > 0 {
      BootSafety(l, bs, boots, idle, n - 1);
      BootKeepsOk(l, bs[n - 1], boots[n - 1], idle);
    }
  }

  /** A context built at boot stands, unchanged, until the start. */
  lemma {:induction false} BuiltContextStays(l: Layout, bs: seq<Boot>, boots: seq<BootStep>, idle: nat, n: nat, m: nat, t: nat)
    requires BootRun(l, bs, boots) && BootOk(l, bs[0], idle) && n <= m <= |boots| && t in bs[n].saved
    ensures t in bs[m].saved && bs[m].saved[t] == bs[n].saved[t]
  {
    hide BootOk, BootLegal, BootApply, LayoutOk;
    if n < m {
      BuiltContextStays(l, bs, boots, idle, n, m - 1, t);
      BootSafety(l, bs, boots, idle, m - 1);
      StepKeepsBuilt(l, bs[m - 1], boots[m - 1], idle, t);
    }
  }

  lemma StepKeepsBuilt(l: Layout, b: Boot, step: BootStep, idle: nat, t: nat)
    requires BootOk(l, b, idle) && BootLegal(l, b, step) && t in b.saved
    ensures t in BootApply(l, b, step).saved && BootApply(l, b, step).saved[t] == b.saved[t]
  {
    hide Kept, SchedulerRuns.Good, Save, Create;
  }

  lemma BuiltContextIs(l: Layout, bs: seq<Boot>, boots: seq<BootStep>, idle: nat, n: nat, t: nat)
    requires BootRun(l, bs, boots) && BootOk(l, bs[0], idle)
    requires n < |boots| && boots[n].BootCreate? && FreeSlot(bs[n].s, 0) == Some(t)
    ensures BootOk(l, bs[|boots|], idle) && t in bs[|boots|].saved && t < |l.stacks|
    ensures bs[|boots|].saved[t] == InitialContext(l.stacks[t], boots[n].entry, boots[n].parameter, boots[n].exit)
  {
    hide BootOk, LayoutOk, Save, InitialContext;
    BootSafety(l, bs, boots, idle, n);
    BootSafety(l, bs, boots, idle, |boots|);
    BootLayout(l, bs[n], idle);
    BuiltContextStays(l, bs, boots, idle, n + 1, |boots|, t);
  }

  lemma BootLayout(l: Layout, b: Boot, idle: nat)
    requires BootOk(l, b, idle)
    ensures Shape(b.s) && |l.stacks| == MAX_THREADS && LayoutOk(l)
  {
  }

  /** `thread_create` at boot, `sched_start`: the machine begins the thread picked first at the
      entry point it was created with, its parameter in r0, the exit stub in lr. */
  lemma FirstThreadBegins(l: Layout, bs: seq<Boot>, boots: seq<BootStep>, idle: nat, n: nat)
    requires BootRun(l, bs, boots) && BootOk(l, bs[0], idle) && CanLaunch(l, bs[|boots|], idle)
    requires n < |boots| && boots[n].BootCreate? && FreeSlot(bs[n].s, 0) == Some(Launch(l, bs[|boots|], idle).w.cur)
    ensures Launch(l, bs[|boots|], idle).w.cur < |l.stacks|
    ensures var w := Launch(l, bs[|boots|], idle).w;
            Begins(w.m, l.stacks[w.cur], boots[n].entry, boots[n].parameter, boots[n].exit)
  {
    hide BootOk, CanLaunch, Launch, Together, Begins, InitialContext, FreeSlot;
    var b := bs[|boots|];
    var w := Launch(l, b, idle).w;
    BuiltContextIs(l, bs, boots, idle, n, w.cur);
    LaunchStartsTogether(l, b, idle);
    InitialContextBegins(w.m, l.stacks[w.cur], boots[n].entry, boots[n].parameter, boots[n].exit);
  }

  /** The other threads created at boot begin in the same way, each at the first event that
      runs it, whatever runs before. */
  lemma BootThreadBegins(l: Layout, bs: seq<Boot>, boots: seq<BootStep>, idle: nat, n: nat, t: nat, es: seq<Event>, e: Event)
    requires BootRun(l, bs, boots) && BootOk(l, bs[0], idle) && CanLaunch(l, bs[|boots|], idle)
    requires n < |boots| && boots[n].BootCreate? && FreeSlot(bs[n].s, 0) == Some(t)
    requires var w := Launch(l, bs[|boots|], idle).w;
             && WorldOk(l, w) && LegalRun(l, w, es) && NeverRuns(l, w, es, t)
             && WorldOk(l, Run(l, w, es)) && Legal(l, Run(l, w, es), e) && Apply(l, Run(l, w, es), e).cur == t
    ensures t < |l.stacks|
    ensures Begins(Apply(l, Run(l, Launch(l, bs[|boots|], idle).w, es), e).m, l.stacks[t],
                   boots[n].entry, boots[n].parameter, boots[n].exit)
  {
    hide BootOk, LayoutOk, WorldOk, LegalRun, NeverRuns, Run, Legal, Apply, Restore, Saved, Begins, InitialContext,
         FreeSlot, CanLaunch;
    var w := Launch(l, bs[|boots|], idle).w;
    BuiltContextIs(l, bs, boots, idle, n, t);
    ResumedAsSaved(l, w, es, e, t);
    InitialContextBegins(Apply(l, Run(l, w, es), e).m, l.stacks[t], boots[n].entry, boots[n].parameter, boots[n].exit);
  }

  /** A whole life of the system: the machine `m` after `sched_init`, boot steps, the start,
      and then scheduler operations, machine events and new threads in any order. */
  ghost predicate SystemRun(l: Layout, m: Machine, bs: seq<Boot>, boots: seq<BootStep>, js: seq<Joint>, steps: seq<JointStep>,
                            idle: nat) {
    && BootRun(l, bs, boots) && bs[0] == Boot(Init(), m, map[]) && BootOk(l, bs[0], idle)
    && CanLaunch(l, bs[|boots|], idle)
    && JointRun(l, js, steps, idle) && js[0] == Launch(l, bs[|boots|], idle)
  }

  /** In every such run: the machine holds a context for each thread in the table and no
      other, and whenever nothing is pending it runs the thread the scheduler calls current. */
  lemma {:induction false} MachineRunsCurrentThread(l: Layout, m: Machine, bs: seq<Boot>, boots: seq<BootStep>,
                                                    js: seq<Joint>, steps: seq<JointStep>, idle: nat, n: nat)
    requires SystemRun(l, m, bs, boots, js, steps, idle) && n <= |steps|
    ensures Together(l, js[n], idle)
    ensures js[n].pending == [] ==> js[n].w.cur == js[n].s.current
  {
    hide WorldOk, JointLegal, JointApply, Together, BootOk, CanLaunch, LayoutOk;
    if n == 0 {
      BootSafety(l, bs, boots, idle, |boots|);
      LaunchStartsTogether(l, bs[|boots|], idle);
    } else {
      MachineRunsCurrentThread(l, m, bs, boots, js, steps, idle, n - 1);
      JointStepStaysTogether(l, js[n - 1], steps[n - 1], idle);
    }
    TogetherAgree(l, js[n], idle);
  }

  // ---- Such runs exist ----

  function ExampleLayout(): Layout {
    Layout(seq(MAX_THREADS, i => 0x100 + WORD * i),
           seq(MAX_THREADS, i requires 0 <= i < MAX_THREADS => Region(0x1_0000 + 0x1000 * i, 0x1_1000 + 0x1000 * i)),
           Region(0x1000, 0x2000), SwitchWords(0, 4, 8))
  }

  lemma ExampleLayoutIsOk()
    ensures LayoutOk(ExampleLayout())
  {
    var l := ExampleLayout();
    forall i, k | 0 <= i < k < MAX_THREADS
      ensures l.slots[i] != l.slots[k] && Disjoint(l.stacks[i], l.stacks[k])
    {
    }
  }

  /** From a machine with empty memory: the idle thread is created, r0 is set, and the start
      is possible. */
  lemma ExampleLaunches(m: Machine)
    requires |m.r| == 13 && Mode(m.cpsr) == SVC_MODE && m.irq.sp == 0x2000 && m.mem == map[]
    ensures exists bs: seq<Boot>, boots: seq<BootStep> ::
              && BootRun(ExampleLayout(), bs, boots) && bs[0] == Boot(Init(), m, map[])
              && BootOk(ExampleLayout(), bs[0], 0) && CanLaunch(ExampleLayout(), bs[|boots|], 0)
  {
    hide LayoutOk, SchedulerRuns.Good, Save, Kept;
    var l := ExampleLayout();
    ExampleLayoutIsOk();
    var b0 := Boot(Init(), m, map[]);
    BootInit(l, m, 0);
    var create := BootCreate(31, 10, 0x8000, 7, 0x9000);
    ExampleCreates(b0);
    var b1 := BootApply(l, b0, create);
    BootKeepsOk(l, b0, create, 0);
    var prepare := Prepare(b1.m.(r := b1.m.r[0 := l.slots[0]]));
    var b2 := BootApply(l, b1, prepare);
    BootKeepsOk(l, b1, prepare, 0);
    SchedulerRuns.StepKeepsGood(b2.s, SchedulerRuns.OpStart, 0);
    StartedThread(b2.s, 0);
    assert BootRun(l, [b0, b1, b2], [create, prepare]);
  }

  lemma ExampleCreates(b: Boot)
    requires b.s == Init()
    ensures FreeSlot(b.s, 0) == Some(0) && Room(ExampleLayout(), 0, StackTop(ExampleLayout().stacks[0]))
    ensures var s' := Create(b.s, 31, 10).0; HasThread(s', 0) && forall t: nat :: HasThread(s', t) ==> t == 0
  {
    ExampleLayoutIsOk();
  }
}
