/** One sending and one receiving thread on a message queue, with timeouts, ticks and any
    other activity in between. */
module MsgQueueRuns {
  import opened Common
  import opened Masks
  import opened SchedulerSpec
  import opened SchedulerInvariant
  import opened SchedulerRuns
  import opened Kernel
  import opened MsgQueueSpec
  import Spec = MsgQueueSpec

  /** Who is who. The queue waits on two objects: receivers on `ro`, senders on `so`. */
  datatype Parties = Parties(idle: nat, sender: nat, receiver: nat, ro: ObjectId, so: ObjectId)

  ghost predicate Distinct(c: Parties) {
    c.ro != c.so && c.sender != c.receiver && c.sender < MAX_THREADS && c.receiver < MAX_THREADS
  }

  /** `outgoing` is the argument of the send in progress; `sent` the messages whose send
      returned success, `received` those handed out. */
  datatype System = System(k: Kernel, ring: Queue, outgoing: Msg, sent: seq<Msg>, received: seq<Msg>)

  datatype Action =
    | SendEnter(msg: Msg, timeout: Option<nat>)
    | SendLeave
    | TrySend(msg: Msg)
    | RecvEnter(timeout: Option<nat>)
    | RecvLeave
    | TryRecv
    | Other(step: KStep)

  function QueueOf(sys: System, c: Parties): Queue {
    sys.ring.(recvWaiters := Waiters(sys.k, c.ro), sendWaiters := Waiters(sys.k, c.so))
  }

  ghost predicate SShape(sys: System) {
    KShape(sys.k) && QShape(sys.ring)
  }

  ghost predicate Allowed(sys: System, act: Action, c: Parties)
    requires SShape(sys)
  {
    match act
    case SendEnter(_, _) => CanCall(sys.k, c.idle) && sys.k.sched.current == c.sender
    case TrySend(_) => CanCall(sys.k, c.idle) && sys.k.sched.current == c.sender
    case SendLeave => CanLeave(sys.k, c.so)
    case RecvEnter(_) => CanCall(sys.k, c.idle) && sys.k.sched.current == c.receiver
    case TryRecv => CanCall(sys.k, c.idle) && sys.k.sched.current == c.receiver
    case RecvLeave => CanLeave(sys.k, c.ro)
    case Other(step) => KLegal(sys.k, step, c.idle) && Elsewhere(sys.k, step, c.ro) && Elsewhere(sys.k, step, c.so)
  }

  function WithMasks(k: Kernel, s: Sched, c: Parties, q: Queue): Kernel {
    k.(sched := s, waiters := k.waiters[c.ro := q.recvWaiters][c.so := q.sendWaiters])
  }

  function AfterSend(sys: System, k: Kernel, q: Queue, msg: Msg): System {
    sys.(k := k, ring := q, sent := sys.sent + [msg])
  }

  function AfterRecv(sys: System, k: Kernel, q: Queue, msg: Msg): System {
    sys.(k := k, ring := q, received := sys.received + [msg])
  }

  ghost function ActSendEnter(sys: System, msg: Msg, timeout: Option<nat>, c: Parties): Outcome<System>
    requires SShape(sys)
  {
    var k, q, id := sys.k, QueueOf(sys, c), sys.k.sched.current;
    match Spec.SendEnter(q, k.sched, msg, timeout)
    case Panic => Panic
    case Done((q', s', result)) =>
      if result == Sent then Done(AfterSend(sys, WithMasks(k, s', c, q'), q', msg))
      else if result == SendPending && id < MAX_THREADS then
        Done(sys.(k := WithMasks(k, s', c, q').(pc := k.pc[id := Some(c.so)]), outgoing := msg))
      else Done(sys)
  }

  ghost function ActSendLeave(sys: System, c: Parties): Outcome<System>
    requires SShape(sys)
  {
    var k, q, id := sys.k, QueueOf(sys, c), sys.k.sched.current;
    if !Occupied(k.sched.threads, id) || |sys.outgoing| != q.msgSize then Panic
    else
      var (q', s', result) := Spec.SendLeave(q, k.sched, IpcError(k.sched), id, sys.outgoing);
      var k' := WithMasks(k, s', c, q').(pc := k.pc[id := None]);
      Done(if result == Sent then AfterSend(sys, k', q', sys.outgoing) else sys.(k := k'))
  }

  ghost function ActRecvEnter(sys: System, timeout: Option<nat>, c: Parties): Outcome<System>
    requires SShape(sys)
  {
    var k, q, id := sys.k, QueueOf(sys, c), sys.k.sched.current;
    match Spec.RecvEnter(q, k.sched, timeout)
    case Panic => Panic
    case Done((q', s', result)) =>
      if result.Received? then Done(AfterRecv(sys, WithMasks(k, s', c, q'), q', result.msg))
      else if id < MAX_THREADS then Done(sys.(k := WithMasks(k, s', c, q').(pc := k.pc[id := Some(c.ro)])))
      else Done(sys)
  }

  ghost function ActRecvLeave(sys: System, c: Parties): Outcome<System>
    requires SShape(sys)
  {
    var k, q, id := sys.k, QueueOf(sys, c), sys.k.sched.current;
    if !Occupied(k.sched.threads, id) then Panic
    else
      match Spec.RecvLeave(q, k.sched, IpcError(k.sched), id)
      case Panic => Panic
      case Done((q', s', result)) =>
        var k' := WithMasks(k, s', c, q').(pc := k.pc[id := None]);
        Done(if result.Received? then AfterRecv(sys, k', q', result.msg) else sys.(k := k'))
  }

  ghost function Act(sys: System, act: Action, c: Parties): Outcome<System>
    requires SShape(sys)
  {
    match act
    case SendEnter(msg, timeout) => ActSendEnter(sys, msg, timeout, c)
    case SendLeave => ActSendLeave(sys, c)
    case TrySend(msg) =>
      if |msg| == sys.ring.msgSize && sys.ring.count < sys.ring.capacity then ActSendEnter(sys, msg, None, c) else Done(sys)
    case RecvEnter(timeout) => ActRecvEnter(sys, timeout, c)
    case RecvLeave => ActRecvLeave(sys, c)
    case TryRecv => if sys.ring.count > 0 then ActRecvEnter(sys, None, c) else Done(sys)
    case Other(step) =>
      (match KApply(sys.k, step)
       case Panic => Panic
       case Done(k') => Done(sys.(k := k')))
  }

  // ---- The invariant ----

  ghost predicate OnlyWaiter(k: Kernel, o: ObjectId, id: nat)
    requires KShape(k)
  {
    forall i | 0 <= i < MAX_THREADS && i != id :: PhaseAt(k, o, i) == Out
  }

  /** A sleeping receiver means an empty queue, a woken one a message to take; a sleeping
      sender means a full queue, a woken one room to write. */
  ghost predicate WaitsMakeSense(k: Kernel, count: nat, capacity: nat, c: Parties)
    requires KShape(k) && Distinct(c)
  {
    var r, s := PhaseAt(k, c.ro, c.receiver), PhaseAt(k, c.so, c.sender);
    && (r.Waiting? ==> count == 0)
    && (r.Granted? ==> count > 0)
    && (s.Waiting? ==> count == capacity)
    && (s.Granted? ==> count < capacity)
  }

  ghost predicate KernelPart(sys: System, c: Parties) {
    && SShape(sys) && Distinct(c)
    && KInv(sys.k, c.idle)
    && c.ro in sys.k.waiters && c.so in sys.k.waiters
    && OnlyWaiter(sys.k, c.ro, c.receiver)
    && OnlyWaiter(sys.k, c.so, c.sender)
    && (PhaseAt(sys.k, c.so, c.sender) != Out ==> |sys.outgoing| == sys.ring.msgSize)
    && WaitsMakeSense(sys.k, sys.ring.count, sys.ring.capacity, c)
  }

  ghost predicate QInv(sys: System, c: Parties) {
    && KernelPart(sys, c)
    && QValid(sys.ring)
    && sys.sent == sys.received + Contents(sys.ring)
  }

  // ---- Waking the other side ----

  ghost function AfterWake(k: Kernel, o: ObjectId): (r: Kernel)
    requires KShape(k)
    ensures KShape(r)
  {
    if Waiters(k, o) == {} then k else KApply(k, Wake(o, Lowest(Waiters(k, o)))).value
  }

  /** With one possible waiter, a wake-up grants it if it sleeps and changes nothing else. */
  lemma WakeOne(k: Kernel, idle: nat, o: ObjectId, id: nat)
    requires KInv(k, idle) && o in k.waiters && id < MAX_THREADS && OnlyWaiter(k, o, id)
    ensures KInv(AfterWake(k, o), idle)
    ensures forall p: ObjectId :: p in k.waiters ==> p in AfterWake(k, o).waiters
    ensures forall p: ObjectId, i | 0 <= i < MAX_THREADS ::
              PhaseAt(AfterWake(k, o), p, i) ==
              if p == o && i == id && PhaseAt(k, o, id).Waiting? then Granted else PhaseAt(k, p, i)
  {
    hide Good, Inv, LowestFrom, Lowest, Unblock;
    assert MaskOk(k, o);
    if Waiters(k, o) != {} {
      var low := Lowest(Waiters(k, o));
      assert PhaseAt(k, o, low) != Out;
      StepKeepsKInv(k, Wake(o, low), idle);
      var k' := AfterWake(k, o);
      forall p: ObjectId, i | 0 <= i < MAX_THREADS
        ensures PhaseAt(k', p, i) == if p == o && i == id && PhaseAt(k, o, id).Waiting? then Granted else PhaseAt(k, p, i)
      {
        assert SlotStep(k, Wake(o, low), k', i);
      }
    }
  }

  // ---- The actions seen from the kernel ----

  lemma SendEnterKernel(sys: System, msg: Msg, timeout: Option<nat>, c: Parties)
    requires KernelPart(sys, c) && CanCall(sys.k, c.idle)
    ensures KApply(sys.k, Enter(c.so, timeout)).Done?
    ensures ActSendEnter(sys, msg, timeout, c).Done?
    ensures var sys' := ActSendEnter(sys, msg, timeout, c).value;
            if |msg| != sys.ring.msgSize then sys' == sys
            else if sys.ring.count < sys.ring.capacity then
              && sys' == AfterSend(sys, AfterWake(sys.k, c.ro), sys'.ring, msg)
              && SameRing(sys'.ring, Enqueue(sys.ring, msg))
            else sys' == sys.(k := KApply(sys.k, Enter(c.so, timeout)).value, outgoing := msg)
  {
    hide Good, Inv, BlockCurrent, Unblock, Lowest, LowestFrom, Write, Offset, Ring;
    StepKeepsKInv(sys.k, Enter(c.so, timeout), c.idle);
    KeepMasks(sys.k, c, WithoutLowest(Waiters(sys.k, c.ro)));
    KeepMasks(sys.k, c, Waiters(sys.k, c.so) + {sys.k.sched.current});
  }

  /** The same ring, whoever waits. */
  ghost predicate SameRing(a: Queue, b: Queue) {
    a.(recvWaiters := {}, sendWaiters := {}) == b.(recvWaiters := {}, sendWaiters := {})
  }

  /** Writing a mask back unchanged is no change, before or after writing the other one. */
  lemma KeepMasks(k: Kernel, c: Parties, m: Mask)
    requires Distinct(c) && c.ro in k.waiters && c.so in k.waiters
    ensures k.waiters[c.ro := m][c.so := Waiters(k, c.so)] == k.waiters[c.ro := m]
    ensures k.waiters[c.ro := Waiters(k, c.ro)][c.so := m] == k.waiters[c.so := m]
  {
  }

  /** What one wake-up leaves of a mask. */
  function WithoutLowest(m: Mask): Mask {
    if m == {} then m else m - {Lowest(m)}
  }

  lemma SendLeaveKernel(sys: System, c: Parties)
    requires KernelPart(sys, c) && CanLeave(sys.k, c.so)
    ensures KApply(sys.k, Leave).Done? && ActSendLeave(sys, c).Done?
    ensures Occupied(sys.k.sched.threads, sys.k.sched.current)
    ensures var sys', k1 := ActSendLeave(sys, c).value, KApply(sys.k, Leave).value;
            if IpcError(sys.k.sched) == IPC_OK then
              && sys' == AfterSend(sys, AfterWake(k1, c.ro), sys'.ring, sys.outgoing)
              && |sys.outgoing| == sys.ring.msgSize
              && SameRing(sys'.ring, Enqueue(sys.ring, sys.outgoing))
            else sys' == sys.(k := k1)
  {
    hide Good, Inv, BlockCurrent, Unblock, Lowest, LowestFrom, Write, Offset, Ring;
    StepKeepsKInv(sys.k, Leave, c.idle);
    LeaverHasVerdict(sys.k, c.idle);
    LeaveMasks(sys.k, c, c.so, WithoutLowest(Waiters(sys.k, c.ro)));
  }

  lemma LeaveMasks(k: Kernel, c: Parties, o: ObjectId, m: Mask)
    requires KShape(k) && Distinct(c) && c.ro in k.waiters && c.so in k.waiters && CanLeave(k, o) && (o == c.ro || o == c.so)
    requires KApply(k, Leave).Done?
    ensures var k1 := KApply(k, Leave).value;
            && c.ro in k1.waiters && c.so in k1.waiters
            && (o == c.so ==> k1.waiters[c.ro := m] == k.waiters[c.ro := m][c.so := Waiters(k1, c.so)])
            && (o == c.ro ==> k1.waiters[c.so := m] == k.waiters[c.ro := Waiters(k1, c.ro)][c.so := m])
            && k1.waiters == k.waiters[c.ro := Waiters(k1, c.ro)][c.so := Waiters(k1, c.so)]
            && (o == c.so ==> Waiters(k1, c.ro) == Waiters(k, c.ro))
            && (o == c.ro ==> Waiters(k1, c.so) == Waiters(k, c.so))
  {
  }

  lemma RecvEnterKernel(sys: System, timeout: Option<nat>, c: Parties)
    requires KernelPart(sys, c) && CanCall(sys.k, c.idle)
    ensures KApply(sys.k, Enter(c.ro, timeout)).Done?
    ensures ActRecvEnter(sys, timeout, c).Done?
    ensures var sys' := ActRecvEnter(sys, timeout, c).value;
            if sys.ring.count > 0 then
              && Dequeue(sys.ring).Done?
              && sys' == AfterRecv(sys, AfterWake(sys.k, c.so), sys'.ring, Dequeue(sys.ring).value.1)
              && SameRing(sys'.ring, Dequeue(sys.ring).value.0)
            else sys' == sys.(k := KApply(sys.k, Enter(c.ro, timeout)).value)
  {
    hide Good, Inv, BlockCurrent, Unblock, Lowest, LowestFrom, Offset, Ring;
    StepKeepsKInv(sys.k, Enter(c.ro, timeout), c.idle);
    KeepMasks(sys.k, c, WithoutLowest(Waiters(sys.k, c.so)));
    KeepMasks(sys.k, c, Waiters(sys.k, c.ro) + {sys.k.sched.current});
    SlotIgnoresMasks(sys, c);
  }

  lemma SlotIgnoresMasks(sys: System, c: Parties)
    requires SShape(sys)
    ensures Slot(QueueOf(sys, c), sys.ring.head) == Slot(sys.ring, sys.ring.head)
  {
  }

  lemma RecvLeaveKernel(sys: System, c: Parties)
    requires KernelPart(sys, c) && CanLeave(sys.k, c.ro)
    ensures KApply(sys.k, Leave).Done?
    ensures Occupied(sys.k.sched.threads, sys.k.sched.current)
    ensures ActRecvLeave(sys, c).Panic? <==> IpcError(sys.k.sched) == IPC_OK && sys.ring.count == 0
    ensures ActRecvLeave(sys, c).Done? ==>
            var sys', k1 := ActRecvLeave(sys, c).value, KApply(sys.k, Leave).value;
            if IpcError(sys.k.sched) == IPC_OK then
              && Dequeue(sys.ring).Done?
              && sys' == AfterRecv(sys, AfterWake(k1, c.so), sys'.ring, Dequeue(sys.ring).value.1)
              && SameRing(sys'.ring, Dequeue(sys.ring).value.0)
            else sys' == sys.(k := k1)
  {
    hide Good, Inv, BlockCurrent, Unblock, Lowest, LowestFrom, Offset, Ring;
    StepKeepsKInv(sys.k, Leave, c.idle);
    LeaverHasVerdict(sys.k, c.idle);
    LeaveMasks(sys.k, c, c.ro, WithoutLowest(Waiters(sys.k, c.so)));
    SlotIgnoresMasks(sys, c);
  }

  // ---- What every action keeps ----

  lemma SameContents(a: Queue, b: Queue)
    requires QShape(a) && SameRing(a, b)
    ensures QShape(b) && Contents(a) == Contents(b) && (QValid(a) <==> QValid(b))
  {
    hide Offset, Ring;
    forall k | 0 <= k < a.count
      ensures Contents(a)[k] == Contents(b)[k]
    {
      assert Slot(a, Ring(a.head + k, a.capacity)) == Slot(b, Ring(b.head + k, b.capacity));
    }
  }

  /** A send that returns success appends to the queue and to the ledger alike. */
  lemma SentLedger(sys: System, sys': System, msg: Msg, c: Parties)
    requires QShape(sys.ring) && QValid(sys.ring) && sys.sent == sys.received + Contents(sys.ring)
    requires |msg| == sys.ring.msgSize && sys.ring.count < sys.ring.capacity
    requires SameRing(sys'.ring, Enqueue(sys.ring, msg)) && sys'.sent == sys.sent + [msg] && sys'.received == sys.received
    ensures QValid(sys'.ring) && sys'.sent == sys'.received + Contents(sys'.ring)
    ensures sys'.ring.count == sys.ring.count + 1 && sys'.ring.capacity == sys.ring.capacity && sys'.ring.msgSize == sys.ring.msgSize
  {
    hide Offset, Ring, Contents, Slot;
    EnqueueAppends(sys.ring, msg);
    SameContents(Enqueue(sys.ring, msg), sys'.ring);
  }

  lemma ReceivedLedger(sys: System, sys': System, c: Parties)
    requires QShape(sys.ring) && QValid(sys.ring) && sys.sent == sys.received + Contents(sys.ring) && sys.ring.count > 0
    requires SameRing(sys'.ring, Dequeue(sys.ring).value.0)
    requires sys'.received == sys.received + [Dequeue(sys.ring).value.1] && sys'.sent == sys.sent
    ensures QValid(sys'.ring) && sys'.sent == sys'.received + Contents(sys'.ring)
    ensures sys'.ring.count == sys.ring.count - 1 && sys'.ring.capacity == sys.ring.capacity && sys'.ring.msgSize == sys.ring.msgSize
  {
    hide Offset, Ring, Contents, Slot;
    DequeueTakesFirst(sys.ring);
    SameContents(Dequeue(sys.ring).value.0, sys'.ring);
  }

  lemma KernelPhases(k: Kernel, step: KStep, idle: nat, o: ObjectId, i: nat)
    requires KInv(k, idle) && KLegal(k, step, idle) && i < MAX_THREADS && !step.Schedule?
    ensures KApply(k, step).Done? && KInv(KApply(k, step).value, idle)
    ensures PhaseAt(KApply(k, step).value, o, i) in NextPhases(k, step, o, i)
    ensures o in k.waiters ==> o in KApply(k, step).value.waiters
  {
    hide KApply, Good, Inv;
    StepKeepsKInv(k, step, idle);
    StepMask(k, step, o);
    assert SlotStep(k, step, KApply(k, step).value, i);
  }

  /** After a blocking entry or an exit only the caller's own phase has moved. */
  lemma OwnStepPhases(k: Kernel, step: KStep, c: Parties)
    requires KInv(k, c.idle) && KLegal(k, step, c.idle) && (step.Enter? || step.Leave?) && Distinct(c)
    requires c.ro in k.waiters && c.so in k.waiters
    ensures KApply(k, step).Done? && KInv(KApply(k, step).value, c.idle)
    ensures c.ro in KApply(k, step).value.waiters && c.so in KApply(k, step).value.waiters
    ensures forall o: ObjectId, i | 0 <= i < MAX_THREADS :: PhaseAt(KApply(k, step).value, o, i) in NextPhases(k, step, o, i)
  {
    hide KApply, Good, Inv;
    KernelPhases(k, step, c.idle, c.ro, 0);
    KernelPhases(k, step, c.idle, c.so, 0);
    forall o: ObjectId, i | 0 <= i < MAX_THREADS
      ensures PhaseAt(KApply(k, step).value, o, i) in NextPhases(k, step, o, i)
    {
      KernelPhases(k, step, c.idle, o, i);
    }
  }

  lemma SendEnterKeeps(sys: System, msg: Msg, timeout: Option<nat>, c: Parties)
    requires QInv(sys, c) && CanCall(sys.k, c.idle) && sys.k.sched.current == c.sender
    ensures ActSendEnter(sys, msg, timeout, c).Done? && QInv(ActSendEnter(sys, msg, timeout, c).value, c)
  {
    hide KApply, ActSendEnter, AfterWake, Good, Inv, Contents, Offset, Ring;
    SendEnterKernel(sys, msg, timeout, c);
    var sys' := ActSendEnter(sys, msg, timeout, c).value;
    if |msg| == sys.ring.msgSize {
      if sys.ring.count < sys.ring.capacity {
        WakeOne(sys.k, c.idle, c.ro, c.receiver);
        SentLedger(sys, sys', msg, c);
      } else {
        OwnStepPhases(sys.k, Enter(c.so, timeout), c);
      }
    }
  }

  lemma SendLeaveKeeps(sys: System, c: Parties)
    requires QInv(sys, c) && CanLeave(sys.k, c.so)
    ensures ActSendLeave(sys, c).Done? && QInv(ActSendLeave(sys, c).value, c)
  {
    hide KApply, ActSendLeave, AfterWake, Good, Inv, Contents, Offset, Ring;
    SendLeaveKernel(sys, c);
    LeaverHasVerdict(sys.k, c.idle);
    OwnStepPhases(sys.k, Leave, c);
    var sys' := ActSendLeave(sys, c).value;
    assert sys.k.sched.current == c.sender;
    if IpcError(sys.k.sched) == IPC_OK {
      WakeOne(KApply(sys.k, Leave).value, c.idle, c.ro, c.receiver);
      SentLedger(sys, sys', sys.outgoing, c);
    }
  }

  lemma RecvEnterKeeps(sys: System, timeout: Option<nat>, c: Parties)
    requires QInv(sys, c) && CanCall(sys.k, c.idle) && sys.k.sched.current == c.receiver
    ensures ActRecvEnter(sys, timeout, c).Done? && QInv(ActRecvEnter(sys, timeout, c).value, c)
  {
    hide KApply, ActRecvEnter, AfterWake, Good, Inv, Contents, Offset, Ring;
    RecvEnterKernel(sys, timeout, c);
    var sys' := ActRecvEnter(sys, timeout, c).value;
    if sys.ring.count > 0 {
      WakeOne(sys.k, c.idle, c.so, c.sender);
      ReceivedLedger(sys, sys', c);
    } else {
      OwnStepPhases(sys.k, Enter(c.ro, timeout), c);
    }
  }

  lemma RecvLeaveKeeps(sys: System, c: Parties)
    requires QInv(sys, c) && CanLeave(sys.k, c.ro)
    ensures ActRecvLeave(sys, c).Done? && QInv(ActRecvLeave(sys, c).value, c)
  {
    hide KApply, ActRecvLeave, AfterWake, Good, Inv, Contents, Offset, Ring;
    RecvLeaveKernel(sys, c);
    LeaverHasVerdict(sys.k, c.idle);
    OwnStepPhases(sys.k, Leave, c);
    var sys' := ActRecvLeave(sys, c).value;
    assert sys.k.sched.current == c.receiver;
    if IpcError(sys.k.sched) == IPC_OK {
      WakeOne(KApply(sys.k, Leave).value, c.idle, c.so, c.sender);
      ReceivedLedger(sys, sys', c);
    }
  }

  /** One sender, one receiver: no action panics; a woken receiver always finds a message
      and a woken sender room; what was received, followed by what is queued, is exactly
      what was sent. */
  lemma ActKeepsQInv(sys: System, act: Action, c: Parties)
    requires QInv(sys, c) && Allowed(sys, act, c)
    ensures Act(sys, act, c).Done? && QInv(Act(sys, act, c).value, c)
  {
    hide KApply, ActSendEnter, ActSendLeave, ActRecvEnter, ActRecvLeave, Good, Inv, Contents, Offset, Ring;
    match act
    case SendEnter(msg, timeout) => SendEnterKeeps(sys, msg, timeout, c);
    case SendLeave => SendLeaveKeeps(sys, c);
    case TrySend(msg) => SendEnterKeeps(sys, msg, None, c);
    case RecvEnter(timeout) => RecvEnterKeeps(sys, timeout, c);
    case RecvLeave => RecvLeaveKeeps(sys, c);
    case TryRecv => RecvEnterKeeps(sys, None, c);
    case Other(step) =>
      ElsewhereFrame(sys.k, step, c.idle, c.ro);
      ElsewhereFrame(sys.k, step, c.idle, c.so);
  }

  /** The received messages are a prefix of the sent ones, and the two threads are never
      both asleep on the queue. */
  lemma QueueGuarantees(sys: System, c: Parties)
    requires QInv(sys, c)
    ensures sys.received <= sys.sent
    ensures !(PhaseAt(sys.k, c.ro, c.receiver).Waiting? && PhaseAt(sys.k, c.so, c.sender).Waiting?)
    ensures PhaseAt(sys.k, c.ro, c.receiver) == Granted ==> sys.ring.count > 0
    ensures PhaseAt(sys.k, c.so, c.sender) == Granted ==> sys.ring.count < sys.ring.capacity
  {
  }

  // ---- What the callers are told ----

  /** A message of the wrong size is refused; any other is queued at the end at once if there
      is room, and only a full queue makes the sender wait. */
  lemma SendSaysWhy(sys: System, msg: Msg, timeout: Option<nat>, c: Parties)
    requires QInv(sys, c) && CanCall(sys.k, c.idle)
    ensures Spec.SendEnter(QueueOf(sys, c), sys.k.sched, msg, timeout).Done?
    ensures var (q, s, result) := Spec.SendEnter(QueueOf(sys, c), sys.k.sched, msg, timeout).value;
            var queued := |Contents(sys.ring)|;
            && (result == BadSize <==> |msg| != sys.ring.msgSize)
            && (result == Sent <==> |msg| == sys.ring.msgSize && queued < sys.ring.capacity)
            && (result == SendPending <==> |msg| == sys.ring.msgSize && queued == sys.ring.capacity)
            && (result == BadSize ==> (q, s) == (QueueOf(sys, c), sys.k.sched))
            && QShape(q) && Contents(q) == Contents(sys.ring) + if result == Sent then [msg] else []
  {
    hide Good, Inv, BlockCurrent, Unblock, LowestFrom, Offset, Ring, Contents, Enqueue;
    SendEnterKernel(sys, msg, timeout, c);
    var (q, s, result) := Spec.SendEnter(QueueOf(sys, c), sys.k.sched, msg, timeout).value;
    CountIsLength(sys.ring);
    if result == Sent {
      EnqueueAppends(sys.ring, msg);
      EnqueueIgnoresMasks(sys, c, msg);
      SameContents(Enqueue(sys.ring, msg), q);
    } else {
      SameContents(sys.ring, q);
    }
  }

  lemma CountIsLength(q: Queue)
    requires QShape(q)
    ensures |Contents(q)| == q.count
  {
  }

  lemma EnqueueIgnoresMasks(sys: System, c: Parties, msg: Msg)
    requires SShape(sys) && |msg| == sys.ring.msgSize
    ensures SameRing(Enqueue(sys.ring, msg), Enqueue(QueueOf(sys, c), msg))
  {
  }

  /** A send that waited reports a timeout exactly when its wait timed out, and then queued
      nothing; otherwise its message is at the end of the queue. */
  lemma SendLeaveSaysWhy(sys: System, c: Parties)
    requires QInv(sys, c) && CanLeave(sys.k, c.so)
    ensures |sys.outgoing| == sys.ring.msgSize
    ensures var id := sys.k.sched.current;
            var (q, s, result) := Spec.SendLeave(QueueOf(sys, c), sys.k.sched, IpcError(sys.k.sched), id, sys.outgoing);
            && result == (if PhaseAt(sys.k, c.so, id) == TimedOut then SendTimeout else Sent)
            && (result == SendTimeout ==> s == sys.k.sched && id !in q.sendWaiters)
            && QShape(q) && Contents(q) == Contents(sys.ring) + if result == Sent then [sys.outgoing] else []
  {
    hide Good, Inv, Unblock, LowestFrom, Offset, Ring, Contents, Enqueue;
    LeaverHasVerdict(sys.k, c.idle);
    assert sys.k.sched.current == c.sender;
    var q := Spec.SendLeave(QueueOf(sys, c), sys.k.sched, IpcError(sys.k.sched), sys.k.sched.current, sys.outgoing).0;
    if IpcError(sys.k.sched) == IPC_OK {
      EnqueueAppends(sys.ring, sys.outgoing);
      EnqueueIgnoresMasks(sys, c, sys.outgoing);
      SameContents(Enqueue(sys.ring, sys.outgoing), q);
    } else {
      SameContents(sys.ring, q);
    }
  }

  /** A receive hands out the oldest message at once if there is one, and waits if and only
      if there is none. */
  lemma RecvSaysWhy(sys: System, timeout: Option<nat>, c: Parties)
    requires QInv(sys, c) && CanCall(sys.k, c.idle)
    ensures Spec.RecvEnter(QueueOf(sys, c), sys.k.sched, timeout).Done?
    ensures var (q, s, result) := Spec.RecvEnter(QueueOf(sys, c), sys.k.sched, timeout).value;
            var queued := Contents(sys.ring);
            && result == (if queued == [] then RecvPending else Received(queued[0]))
            && QShape(q) && Contents(q) == if queued == [] then [] else queued[1..]
  {
    hide Good, Inv, BlockCurrent, Unblock, LowestFrom, Offset, Ring, Contents, Slot;
    RecvEnterKernel(sys, timeout, c);
    CountIsLength(sys.ring);
    var q := Spec.RecvEnter(QueueOf(sys, c), sys.k.sched, timeout).value.0;
    if sys.ring.count > 0 {
      DequeueTakesFirst(sys.ring);
      SlotIgnoresMasks(sys, c);
      SameContents(Dequeue(sys.ring).value.0, q);
    } else {
      SameContents(sys.ring, q);
    }
  }

  /** A receive that waited reports a timeout exactly when its wait timed out, and then took
      nothing; otherwise it hands out the oldest message. */
  lemma RecvLeaveSaysWhy(sys: System, c: Parties)
    requires QInv(sys, c) && CanLeave(sys.k, c.ro)
    ensures var r := Spec.RecvLeave(QueueOf(sys, c), sys.k.sched, IpcError(sys.k.sched), sys.k.sched.current);
            var queued := Contents(sys.ring);
            && r.Done? && QShape(r.value.0)
            && (if PhaseAt(sys.k, c.ro, sys.k.sched.current) == TimedOut
                then r.value.2 == RecvTimeout && r.value.1 == sys.k.sched && Contents(r.value.0) == queued
                else queued != [] && r.value.2 == Received(queued[0]) && Contents(r.value.0) == queued[1..])
  {
    hide Good, Inv, Unblock, LowestFrom, Offset, Ring, Contents, Slot;
    LeaverHasVerdict(sys.k, c.idle);
    assert sys.k.sched.current == c.receiver;
    CountIsLength(sys.ring);
    var r := Spec.RecvLeave(QueueOf(sys, c), sys.k.sched, IpcError(sys.k.sched), sys.k.sched.current);
    if IpcError(sys.k.sched) == IPC_OK {
      DequeueTakesFirst(sys.ring);
      SlotIgnoresMasks(sys, c);
      SameContents(Dequeue(sys.ring).value.0, r.value.0);
    } else {
      SameContents(sys.ring, r.value.0);
    }
  }

  /** Why the theorem is about one receiver: when another thread receives while the woken
      receiver is still on its way, that receiver's dequeue panics if and only if there was
      one message only. */
  lemma SecondReceiverPanicsIff(sys: System, timeout: Option<nat>, c: Parties)
    requires QInv(sys, c) && CanCall(sys.k, c.idle) && sys.k.sched.current != c.receiver
    requires PhaseAt(sys.k, c.ro, c.receiver) == Granted
    ensures ActRecvEnter(sys, timeout, c).Done? && SShape(ActRecvEnter(sys, timeout, c).value)
    ensures var sys' := ActRecvEnter(sys, timeout, c).value;
            && PhaseAt(sys'.k, c.ro, c.receiver) == Granted
            && (Spec.RecvLeave(QueueOf(sys', c), sys'.k.sched, IPC_OK, c.receiver) == Panic <==> sys.ring.count == 1)
  {
    hide KApply, AfterWake, ActRecvEnter, Good, Inv, Contents, Offset, Ring;
    RecvEnterKernel(sys, timeout, c);
    WakeOne(sys.k, c.idle, c.so, c.sender);
    ReceivedLedger(sys, ActRecvEnter(sys, timeout, c).value, c);
  }

  /** And about one sender: when another thread sends while the woken sender is still on its
      way, that sender overfills the ring, writing over the oldest message, if and only if
      there was room for one message only. */
  lemma SecondSenderOverfillsIff(sys: System, msg: Msg, timeout: Option<nat>, c: Parties)
    requires QInv(sys, c) && CanCall(sys.k, c.idle) && sys.k.sched.current != c.sender
    requires PhaseAt(sys.k, c.so, c.sender) == Granted && |msg| == sys.ring.msgSize
    ensures ActSendEnter(sys, msg, timeout, c).Done? && SShape(ActSendEnter(sys, msg, timeout, c).value)
    ensures var sys' := ActSendEnter(sys, msg, timeout, c).value;
            && PhaseAt(sys'.k, c.so, c.sender) == Granted
            && |sys'.outgoing| == sys'.ring.msgSize
            && var after := Spec.SendLeave(QueueOf(sys', c), sys'.k.sched, IPC_OK, c.sender, sys'.outgoing).0;
               && (after.count > after.capacity <==> sys.ring.count + 1 == sys.ring.capacity)
               && (after.count > after.capacity ==> QShape(after) && Slot(after, after.head) == sys.outgoing)
  {
    hide KApply, AfterWake, ActSendEnter, Good, Inv, Contents, Offset, Ring, Slot, Write;
    SendEnterKernel(sys, msg, timeout, c);
    WakeOne(sys.k, c.idle, c.ro, c.receiver);
    var sys' := ActSendEnter(sys, msg, timeout, c).value;
    SentLedger(sys, sys', msg, c);
    if sys.ring.count + 1 == sys.ring.capacity {
      OverfillOverwrites(QueueOf(sys', c), sys.outgoing);
      MasksAside(Enqueue(QueueOf(sys', c), sys.outgoing), sys'.k.sched);
    }
  }

  lemma MasksAside(q: Queue, s: Sched)
    requires QShape(q) && Shape(s)
    ensures QShape(WakeReceiver(q, s).0) && Slot(WakeReceiver(q, s).0, q.head) == Slot(q, q.head)
    ensures SameRing(WakeReceiver(q, s).0, q)
  {
  }

  // ---- Runs ----

  ghost predicate Initial(sys: System, c: Parties) {
    && SShape(sys) && Distinct(c) && KInv(sys.k, c.idle) && FreshObject(sys.k, c.ro) && FreshObject(sys.k, c.so)
    && QValid(sys.ring) && sys.ring.count == 0 && sys.sent == [] && sys.received == []
  }

  ghost predicate QRun(states: seq<System>, acts: seq<Action>, c: Parties) {
    && |states| == |acts| + 1
    && forall n | 0 <= n < |acts| ::
         SShape(states[n]) && Allowed(states[n], acts[n], c) && Act(states[n], acts[n], c) == Done(states[n + 1])
  }

  lemma {:induction false} RunSafety(states: seq<System>, acts: seq<Action>, c: Parties, n: nat)
    requires QRun(states, acts, c) && n <= |acts| && Initial(states[0], c)
    ensures QInv(states[n], c)
    ensures states[n].received <= states[n].sent
    ensures !(PhaseAt(states[n].k, c.ro, c.receiver).Waiting? && PhaseAt(states[n].k, c.so, c.sender).Waiting?)
  {
    hide KApply, Act, Good, Inv, Offset, Ring;
    if n > 0 {
      RunSafety(states, acts, c, n - 1);
      ActKeepsQInv(states[n - 1], acts[n - 1], c);
    }
    QueueGuarantees(states[n], c);
  }
}
