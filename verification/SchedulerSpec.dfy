/** The scheduler's state and what every operation does to it, as pure functions.
    `Scheduler.dfy` holds the class that performs the same operations in place. */
module SchedulerSpec {
  import opened Common
  import opened Masks

  const MAX_THREADS: nat := 32
  const MAX_PRIORITY: nat := 32
  const LOWEST_PRIORITY: nat := 31
  const NULL_ID: nat := 0xFF

  const IPC_OK: int := 0
  const IPC_TIMEOUT: int := -1
  const IPC_WAIT_SENTINEL: int := 0x7FFF_FFFF

  datatype ThreadState = Ready | Running | Sleeping | Blocked | BlockedTimeout

  datatype Thread = Thread(
    state: ThreadState,
    priority: nat,
    tick: nat,
    initTick: nat,
    sleepUntil: nat,
    ipcError: int,
    isIpcWait: bool,
    sigPending: Mask,
    sigMask: Mask)

  /** One call into the context-switch assembly: the first thread is started, a thread
      is switched cooperatively, or an interrupt asks for a switch on its way out. */
  datatype Handoff =
    | First(to: nat)
    | Cooperative(from: nat, to: nat)
    | Interrupt(from: nat, to: nat)

  datatype SwitchMode = FromThread | FromIsr

  type Table = seq<Option<Thread>>

  datatype Sched = Sched(
    threads: Table,
    count: nat,
    current: nat,
    ready: Mask,
    cursor: seq<nat>,
    tickCount: nat,
    started: bool,
    handoffs: seq<Handoff>)

  /** What the Rust types guarantee, plus the two facts every writer of these fields keeps. */
  ghost predicate Shape(s: Sched) {
    && |s.threads| == MAX_THREADS
    && |s.cursor| == MAX_PRIORITY
    && (forall i | 0 <= i < MAX_THREADS && s.threads[i].Some? :: s.threads[i].value.priority < MAX_PRIORITY)
    && (forall p | 0 <= p < MAX_PRIORITY :: s.cursor[p] < MAX_THREADS || s.cursor[p] == NULL_ID)
  }

  function Init(): (s: Sched)
    ensures Shape(s)
  {
    Sched(seq(MAX_THREADS, _ => None), 0, NULL_ID, {}, seq(MAX_PRIORITY, _ => NULL_ID), 0, false, [])
  }

  // ---- Reading the table ----

  predicate Occupied(threads: Table, id: nat) {
    id < |threads| && threads[id].Some?
  }

  predicate InState(threads: Table, id: nat, state: ThreadState) {
    Occupied(threads, id) && threads[id].value.state == state
  }

  predicate ReadyAt(threads: Table, id: nat, p: nat) {
    InState(threads, id, Ready) && threads[id].value.priority == p
  }

  predicate AnyReady(threads: Table, p: nat) {
    exists id | 0 <= id < |threads| :: ReadyAt(threads, id, p)
  }

  predicate CurrentRunning(s: Sched) {
    InState(s.threads, s.current, Running)
  }

  function Put(s: Sched, id: nat, t: Thread): (r: Sched)
    requires id < |s.threads|
  {
    s.(threads := s.threads[id := Some(t)])
  }

  // ---- Ready bitmap ----

  function SetReady(s: Sched, id: nat, p: nat): Sched
    requires Shape(s) && id < MAX_THREADS && p < MAX_PRIORITY
  {
    var s1 := if s.threads[id].Some? then Put(s, id, s.threads[id].value.(state := Ready)) else s;
    s1.(ready := s1.ready + {p})
  }

  function ClearReadyIfEmpty(s: Sched, p: nat): Sched {
    if AnyReady(s.threads, p) then s else s.(ready := s.ready - {p})
  }

  // ---- Picking and dispatching ----

  function ScanStart(cursor: nat): (start: nat)
    requires cursor < MAX_THREADS || cursor == NULL_ID
    ensures start < MAX_THREADS
  {
    if cursor == NULL_ID then 0 else (cursor + 1) % MAX_THREADS
  }

  /** The first Ready thread at priority `p` among the `n` slots from `idx` on, cyclically. */
  function Scan(threads: Table, p: nat, idx: nat, n: nat): (r: Option<nat>)
    requires idx < MAX_THREADS
    ensures r.Some? ==> r.value < MAX_THREADS && ReadyAt(threads, r.value, p)
    decreases n
  {
    if n == 0 then None
    else if ReadyAt(threads, idx, p) then Some(idx)
    else Scan(threads, p, (idx + 1) % MAX_THREADS, n - 1)
  }

  function PickNext(s: Sched): (r: Option<nat>)
    requires Shape(s)
    ensures r.Some? ==> r.value < MAX_THREADS && InState(s.threads, r.value, Ready)
  {
    if s.ready == {} then None
    else
      var p := Lowest(s.ready);
      Scan(s.threads, p, ScanStart(s.cursor[p]), MAX_THREADS)
  }

  function SetRunning(s: Sched, id: nat): Sched
    requires Occupied(s.threads, id)
  {
    Put(s, id, s.threads[id].value.(state := Running))
  }

  function HandoffFor(mode: SwitchMode, from: nat, to: nat): Handoff {
    if mode == FromThread then Cooperative(from, to) else Interrupt(from, to)
  }

  function SwitchTo(s: Sched, next: nat, mode: SwitchMode): Sched
    requires Shape(s) && Occupied(s.threads, next)
  {
    var p := s.threads[next].value.priority;
    var s1 := SetRunning(s, next);
    s1.(cursor := s.cursor[p := next],
        current := next,
        handoffs := s.handoffs + [HandoffFor(mode, s.current, next)])
  }

  /** `do_schedule` and `do_schedule_from_isr`. The outgoing thread is unwrapped, so an
      empty current slot is a panic. */
  function DoSchedule(s: Sched, mode: SwitchMode): (r: Outcome<Sched>)
    requires Shape(s)
    ensures r.Done? ==> Shape(r.value) && r.value.tickCount == s.tickCount && r.value.started == s.started
  {
    match PickNext(s)
    case None => Done(s)
    case Some(next) =>
      if next == s.current then Done(SetRunning(s, next))
      else if !Occupied(s.threads, s.current) then Panic
      else Done(SwitchTo(s, next, mode))
  }

  // ---- Thread operations ----

  /** The lowest free slot from `i` on. */
  function FreeSlot(s: Sched, i: nat): (r: Option<nat>)
    requires i <= |s.threads|
    ensures r.Some? ==> i <= r.value < |s.threads| && s.threads[r.value].None?
    ensures r.Some? ==> forall j | i <= j < r.value :: s.threads[j].Some?
    ensures r.None? ==> forall j | i <= j < |s.threads| :: s.threads[j].Some?
    decreases |s.threads| - i
  {
    if i == |s.threads| then None
    else if s.threads[i].None? then Some(i)
    else FreeSlot(s, i + 1)
  }

  function Clamp(priority: nat): nat {
    if priority < LOWEST_PRIORITY then priority else LOWEST_PRIORITY
  }

  function NewThread(priority: nat, tick: nat): Thread {
    Thread(Ready, Clamp(priority), tick, tick, 0, 0, false, {}, {})
  }

  /** `thread_create_inner`: the new table and the handle, if a slot is free. */
  function Create(s: Sched, priority: nat, tick: nat): (r: (Sched, Option<nat>))
    requires Shape(s)
    ensures Shape(r.0) && r.0.tickCount == s.tickCount && r.0.started == s.started
  {
    match FreeSlot(s, 0)
    case None => (s, None)
    case Some(id) =>
      var s1 := Put(s, id, NewThread(priority, tick));
      (s1.(count := s.count + 1, ready := s.ready + {Clamp(priority)}), Some(id))
  }

  /** `sched_start`: `expect("no threads")` panics when nothing can be picked. */
  function Start(s: Sched): (r: Outcome<Sched>)
    requires Shape(s)
    ensures r.Done? ==> Shape(r.value) && r.value.tickCount == s.tickCount && r.value.started
  {
    match PickNext(s)
    case None => Panic
    case Some(next) =>
      var p := s.threads[next].value.priority;
      Done(SetRunning(s, next).(cursor := s.cursor[p := next],
                                current := next,
                                started := true,
                                handoffs := s.handoffs + [First(next)]))
  }

  function DemoteCurrent(s: Sched): Sched {
    if CurrentRunning(s) then Put(s, s.current, s.threads[s.current].value.(state := Ready)) else s
  }

  function Yield(s: Sched): (r: Outcome<Sched>)
    requires Shape(s)
    ensures r.Done? ==> Shape(r.value) && r.value.tickCount == s.tickCount && r.value.started == s.started
  {
    if s.current >= MAX_THREADS then Panic
    else DoSchedule(DemoteCurrent(s), FromThread)
  }

  function Suspended(s: Sched, t: Thread): Sched
    requires Shape(s) && s.current < MAX_THREADS && t.priority < MAX_PRIORITY
  {
    ClearReadyIfEmpty(Put(s, s.current, t), t.priority)
  }

  function SleepingThread(s: Sched, t: Thread, ticks: nat): Thread {
    t.(state := Sleeping, isIpcWait := false, sleepUntil := s.tickCount + ticks)
  }

  function Sleep(s: Sched, ticks: nat): (r: Outcome<Sched>)
    requires Shape(s)
    ensures r.Done? ==> Shape(r.value) && r.value.tickCount == s.tickCount && r.value.started == s.started
  {
    if s.current >= MAX_THREADS then Panic
    else if s.threads[s.current].None? then DoSchedule(s, FromThread)
    else DoSchedule(Suspended(s, SleepingThread(s, s.threads[s.current].value, ticks)), FromThread)
  }

  function BlockedThread(s: Sched, t: Thread, timeout: Option<nat>): Thread {
    var t1 := t.(ipcError := IPC_WAIT_SENTINEL, isIpcWait := true);
    match timeout
    case Some(ticks) => t1.(sleepUntil := s.tickCount + ticks, state := BlockedTimeout)
    case None => t1.(state := Blocked)
  }

  function BlockCurrent(s: Sched, timeout: Option<nat>): (r: Outcome<Sched>)
    requires Shape(s)
    ensures r.Done? ==> Shape(r.value) && r.value.tickCount == s.tickCount && r.value.started == s.started
  {
    if s.current >= MAX_THREADS then Panic
    else if s.threads[s.current].None? then DoSchedule(s, FromThread)
    else DoSchedule(Suspended(s, BlockedThread(s, s.threads[s.current].value, timeout)), FromThread)
  }

  predicate AwaitingIpc(t: Thread) {
    t.isIpcWait && (t.state == Blocked || t.state == BlockedTimeout || t.state == Sleeping)
  }

  /** `unblock_thread`: acts only on a thread that is still waiting. */
  function Unblock(s: Sched, id: nat): (r: Sched)
    requires Shape(s) && id < MAX_THREADS
    ensures Shape(r) && r.tickCount == s.tickCount && r.started == s.started
  {
    if s.threads[id].Some? && AwaitingIpc(s.threads[id].value) then
      var t := s.threads[id].value;
      SetReady(Put(s, id, t.(ipcError := IPC_OK, isIpcWait := false, sleepUntil := 0)), id, t.priority)
    else s
  }

  // ---- The tick ----

  predicate Expired(t: Thread, now: nat) {
    (t.state == Sleeping || t.state == BlockedTimeout) && t.sleepUntil != 0 && now >= t.sleepUntil
  }

  function WakeThread(t: Thread): Thread {
    t.(ipcError := if t.isIpcWait then IPC_TIMEOUT else t.ipcError,
       isIpcWait := false,
       sleepUntil := 0,
       state := Ready)
  }

  predicate ExpiredAt(s: Sched, id: nat) {
    Occupied(s.threads, id) && Expired(s.threads[id].value, s.tickCount)
  }

  function WakeSlot(s: Sched, id: nat): Option<Thread>
    requires id < |s.threads|
  {
    if ExpiredAt(s, id) then Some(WakeThread(s.threads[id].value)) else s.threads[id]
  }

  /** The wake-up scan after it has passed the first `n` slots. */
  function WakeExpired(s: Sched, n: nat): Sched
    requires Shape(s) && n <= MAX_THREADS
  {
    s.(threads := seq(MAX_THREADS, i requires 0 <= i < MAX_THREADS => if i < n then WakeSlot(s, i) else s.threads[i]),
       ready := s.ready + set i | 0 <= i < n && ExpiredAt(s, i) :: s.threads[i].value.priority)
  }

  /** The tick takes the deliverable signals out of the pending mask and puts them back. */
  function RearmSignals(t: Thread): Thread {
    var deliverable := t.sigPending - t.sigMask;
    t.(sigPending := t.sigPending - deliverable + deliverable)
  }

  function RearmCurrent(s: Sched): Sched {
    if Occupied(s.threads, s.current) then Put(s, s.current, RearmSignals(s.threads[s.current].value)) else s
  }

  /** Demote the current thread, keep its priority's bit, and pick again. */
  function Preempt(s: Sched): (r: Outcome<Sched>)
    requires Shape(s) && s.current < MAX_THREADS
    ensures r.Done? ==> Shape(r.value) && r.value.tickCount == s.tickCount && r.value.started == s.started
  {
    var s1 := if CurrentRunning(s)
              then DemoteCurrent(s).(ready := s.ready + {s.threads[s.current].value.priority})
              else s;
    DoSchedule(s1, FromIsr)
  }

  function CurrentPriority(s: Sched): nat {
    if Occupied(s.threads, s.current) then s.threads[s.current].value.priority else LOWEST_PRIORITY
  }

  /** The check for a higher-priority thread. With no current thread the table is
      indexed with `NULL_ID`, which panics. */
  function PreemptIfOutranked(s: Sched): (r: Outcome<Sched>)
    requires Shape(s)
    ensures r.Done? ==> Shape(r.value) && r.value.tickCount == s.tickCount && r.value.started == s.started
  {
    if s.ready == {} then Done(s)
    else if s.current >= MAX_THREADS then Panic
    else if Lowest(s.ready) < CurrentPriority(s) then Preempt(s)
    else Done(s)
  }

  function Decrement(n: nat): nat {
    if n > 0 then n - 1 else 0
  }

  function TimeSlice(s: Sched): (r: Outcome<Sched>)
    requires Shape(s)
    ensures r.Done? ==> Shape(r.value) && r.value.tickCount == s.tickCount && r.value.started == s.started
  {
    if CurrentRunning(s) then
      var t := s.threads[s.current].value;
      if Decrement(t.tick) == 0 then Preempt(Put(s, s.current, t.(tick := t.initTick)))
      else PreemptIfOutranked(Put(s, s.current, t.(tick := t.tick - 1)))
    else PreemptIfOutranked(s)
  }

  function AfterWakeups(s: Sched): (r: Sched)
    requires Shape(s)
    ensures Shape(r) && r.tickCount == s.tickCount + 1 && r.started == s.started
  {
    RearmCurrent(WakeExpired(s.(tickCount := s.tickCount + 1), MAX_THREADS))
  }

  function Tick(s: Sched): (r: Outcome<Sched>)
    requires Shape(s)
    ensures r.Done? ==> Shape(r.value) && r.value.tickCount == s.tickCount + 1 && r.value.started == s.started
  {
    TimeSlice(AfterWakeups(s))
  }

  // ---- Delete, suspend, resume, exit ----

  function Remove(s: Sched, id: nat): (r: Outcome<Sched>)
    requires Shape(s) && Occupied(s.threads, id)
    ensures r.Done? ==> Shape(r.value) && r.value.started == s.started
  {
    if s.count == 0 then Panic
    else
      var s1 := s.(threads := s.threads[id := None], count := s.count - 1);
      Done(ClearReadyIfEmpty(s1, s.threads[id].value.priority))
  }

  function Delete(s: Sched, id: nat): (r: Outcome<Sched>)
    requires Shape(s)
    ensures r.Done? ==> Shape(r.value) && r.value.started == s.started
  {
    if id >= MAX_THREADS then Panic
    else if s.threads[id].None? then Done(s)
    else Remove(s, id)
  }

  function Suspend(s: Sched, id: nat): (r: Outcome<Sched>)
    requires Shape(s)
    ensures r.Done? ==> Shape(r.value) && r.value.started == s.started
  {
    if id >= MAX_THREADS then Panic
    else if InState(s.threads, id, Ready) || InState(s.threads, id, Running) then
      var t := s.threads[id].value;
      Done(ClearReadyIfEmpty(Put(s, id, t.(state := Blocked)), t.priority))
    else Done(s)
  }

  function Resume(s: Sched, id: nat): (r: Outcome<Sched>)
    requires Shape(s)
    ensures r.Done? ==> Shape(r.value) && r.value.started == s.started
  {
    if id >= MAX_THREADS then Panic
    else if InState(s.threads, id, Blocked) && !s.threads[id].value.isIpcWait then
      var s1 := SetReady(s, id, s.threads[id].value.priority);
      if s.started then DoSchedule(s1, FromThread) else Done(s1)
    else Done(s)
  }

  /** `thread_exit_stub`: the current slot is emptied before `do_schedule` unwraps it. */
  function Exit(s: Sched): Outcome<Sched>
    requires Shape(s)
  {
    if s.current >= MAX_THREADS then Panic
    else if s.threads[s.current].None? then DoSchedule(s, FromThread)
    else
      match Remove(s, s.current)
      case Panic => Panic
      case Done(s1) => DoSchedule(s1, FromThread)
  }
}
