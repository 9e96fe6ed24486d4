/** The fixed-size message queue: a ring of equal slots in one byte buffer, and the class
    that updates it in place. */
module MsgQueueSpec {
  import opened Common
  import opened Masks
  import opened SchedulerSpec
  import opened Kernel
  import Scheduler

  type Byte = bv8
  type Msg = seq<Byte>

  datatype Queue = Queue(
    buf: seq<Byte>,
    msgSize: nat,
    capacity: nat,
    head: nat,
    tail: nat,
    count: nat,
    recvWaiters: Mask,
    sendWaiters: Mask)

  /** What `new` asserts and every operation keeps, whatever the count. */
  ghost predicate QShape(q: Queue) {
    && q.msgSize > 0 && q.capacity > 0
    && Offset(q.capacity, q.msgSize) <= |q.buf|
    && q.head < q.capacity && q.tail < q.capacity
  }

  ghost predicate QValid(q: Queue) {
    QShape(q) && q.count <= q.capacity && q.tail == Ring(q.head + q.count, q.capacity)
  }

  /** Where slot `i` begins in the buffer. */
  function Offset(i: nat, size: nat): nat {
    i * size
  }

  function Ring(i: nat, capacity: nat): (r: nat)
    requires capacity > 0
    ensures r < capacity
  {
    i % capacity
  }

  lemma MulMonotone(a: nat, b: nat, c: nat)
    requires a <= b
    ensures a * c <= b * c
  {
  }

  lemma SlotsApart(i: nat, j: nat, size: nat)
    requires i < j
    ensures Offset(i, size) + size <= Offset(j, size)
  {
    MulMonotone(i + 1, j, size);
  }

  function Slot(q: Queue, i: nat): Msg
    requires QShape(q) && i < q.capacity
  {
    SlotsApart(i, q.capacity, q.msgSize);
    q.buf[Offset(i, q.msgSize)..Offset(i, q.msgSize) + q.msgSize]
  }

  /** The queued messages, oldest first. */
  function Contents(q: Queue): seq<Msg>
    requires QShape(q)
  {
    seq(q.count, k requires 0 <= k < q.count => Slot(q, Ring(q.head + k, q.capacity)))
  }

  // ---- The ring ----

  function Write(buf: seq<Byte>, at: nat, msg: Msg): (r: seq<Byte>)
    requires at + |msg| <= |buf|
    ensures |r| == |buf|
  {
    buf[..at] + msg + buf[at + |msg|..]
  }

  /** `enqueue` does not look at the count. */
  function Enqueue(q: Queue, msg: Msg): (r: Queue)
    requires QShape(q) && |msg| == q.msgSize
    ensures QShape(r)
  {
    hide Offset, Ring;
    SlotsApart(q.tail, q.capacity, q.msgSize);
    q.(buf := Write(q.buf, Offset(q.tail, q.msgSize), msg), tail := Ring(q.tail + 1, q.capacity), count := q.count + 1)
  }

  /** `dequeue`: with nothing queued the count underflows. */
  function Dequeue(q: Queue): (r: Outcome<(Queue, Msg)>)
    requires QShape(q)
    ensures r.Done? ==> QShape(r.value.0)
  {
    if q.count == 0 then Panic
    else Done((q.(head := Ring(q.head + 1, q.capacity), count := q.count - 1), Slot(q, q.head)))
  }

  function WakeReceiver(q: Queue, s: Sched): (Queue, Sched)
    requires Shape(s)
  {
    if q.recvWaiters == {} then (q, s)
    else
      var id := Lowest(q.recvWaiters);
      (q.(recvWaiters := q.recvWaiters - {id}), Unblock(s, id))
  }

  function WakeSender(q: Queue, s: Sched): (Queue, Sched)
    requires Shape(s)
  {
    if q.sendWaiters == {} then (q, s)
    else
      var id := Lowest(q.sendWaiters);
      (q.(sendWaiters := q.sendWaiters - {id}), Unblock(s, id))
  }

  datatype SendResult = Sent | BadSize | SendTimeout | SendPending

  datatype RecvResult = Received(msg: Msg) | RecvTimeout | RecvPending

  function Put(q: Queue, s: Sched, msg: Msg): (Queue, Sched)
    requires QShape(q) && |msg| == q.msgSize && Shape(s)
  {
    WakeReceiver(Enqueue(q, msg), s)
  }

  function Get(q: Queue, s: Sched): Outcome<(Queue, Sched, Msg)>
    requires QShape(q) && Shape(s)
  {
    match Dequeue(q)
    case Panic => Panic
    case Done((q', msg)) =>
      var (q'', s') := WakeSender(q', s);
      Done((q'', s', msg))
  }

  function SendEnter(q: Queue, s: Sched, msg: Msg, timeout: Option<nat>): Outcome<(Queue, Sched, SendResult)>
    requires QShape(q) && Shape(s)
  {
    if |msg| != q.msgSize then Done((q, s, BadSize))
    else if q.count < q.capacity then
      var (q', s') := Put(q, s, msg);
      Done((q', s', Sent))
    else if s.current >= MAX_THREADS then Panic
    else
      match BlockCurrent(s, timeout)
      case Panic => Panic
      case Done(s') => Done((q.(sendWaiters := q.sendWaiters + {s.current}), s', SendPending))
  }

  /** A woken sender enqueues without looking at the count again. */
  function SendLeave(q: Queue, s: Sched, error: int, id: nat, msg: Msg): (Queue, Sched, SendResult)
    requires QShape(q) && Shape(s) && |msg| == q.msgSize
  {
    if error != IPC_OK then (q.(sendWaiters := q.sendWaiters - {id}), s, SendTimeout)
    else
      var (q', s') := Put(q, s, msg);
      (q', s', Sent)
  }

  function RecvEnter(q: Queue, s: Sched, timeout: Option<nat>): Outcome<(Queue, Sched, RecvResult)>
    requires QShape(q) && Shape(s)
  {
    if q.count > 0 then
      var (q', s', msg) := Get(q, s).value;
      Done((q', s', Received(msg)))
    else if s.current >= MAX_THREADS then Panic
    else
      match BlockCurrent(s, timeout)
      case Panic => Panic
      case Done(s') => Done((q.(recvWaiters := q.recvWaiters + {s.current}), s', RecvPending))
  }

  /** A woken receiver dequeues without looking at the count again. */
  function RecvLeave(q: Queue, s: Sched, error: int, id: nat): Outcome<(Queue, Sched, RecvResult)>
    requires QShape(q) && Shape(s)
  {
    if error != IPC_OK then Done((q.(recvWaiters := q.recvWaiters - {id}), s, RecvTimeout))
    else
      match Get(q, s)
      case Panic => Panic
      case Done((q', s', msg)) => Done((q', s', Received(msg)))
  }

  // ---- The ring is a first-in first-out sequence ----

  lemma EnqueueSlot(q: Queue, msg: Msg, i: nat)
    requires QShape(q) && |msg| == q.msgSize && i < q.capacity
    ensures Slot(Enqueue(q, msg), i) == if i == q.tail then msg else Slot(q, i)
  {
    hide Offset, Ring;
    SlotsApart(i, q.capacity, q.msgSize);
    SlotsApart(q.tail, q.capacity, q.msgSize);
    if i < q.tail {
      SlotsApart(i, q.tail, q.msgSize);
    } else if q.tail < i {
      SlotsApart(q.tail, i, q.msgSize);
    }
    WriteWindow(q.buf, Offset(q.tail, q.msgSize), msg, Offset(i, q.msgSize));
  }

  lemma WriteWindow(buf: seq<Byte>, at: nat, msg: Msg, from: nat)
    requires at + |msg| <= |buf| && from + |msg| <= |buf|
    requires from == at || from + |msg| <= at || at + |msg| <= from
    ensures Write(buf, at, msg)[from..from + |msg|] == if from == at then msg else buf[from..from + |msg|]
  {
  }

  lemma RingIndex(head: nat, i: nat, capacity: nat)
    requires head < capacity && i <= capacity
    ensures Ring(head + i, capacity) == if head + i < capacity then head + i else head + i - capacity
  {
  }

  lemma RingStep(head: nat, k: nat, capacity: nat)
    requires head < capacity && k < capacity
    ensures Ring(Ring(head + 1, capacity) + k, capacity) == Ring(head + k + 1, capacity)
    ensures Ring(Ring(head + k, capacity) + 1, capacity) == Ring(head + k + 1, capacity)
  {
    hide Ring;
    RingIndex(head, 1, capacity);
    RingIndex(head, k, capacity);
    RingIndex(head, k + 1, capacity);
    RingIndex(Ring(head + 1, capacity), k, capacity);
    RingIndex(Ring(head + k, capacity), 1, capacity);
  }

  lemma RingDistinct(head: nat, i: nat, j: nat, capacity: nat)
    requires head < capacity && i < j < capacity
    ensures Ring(head + i, capacity) != Ring(head + j, capacity)
  {
    hide Ring;
    RingIndex(head, i, capacity);
    RingIndex(head, j, capacity);
  }

  /** Enqueueing on a queue that is not full appends. */
  lemma EnqueueAppends(q: Queue, msg: Msg)
    requires QValid(q) && q.count < q.capacity && |msg| == q.msgSize
    ensures QValid(Enqueue(q, msg)) && Contents(Enqueue(q, msg)) == Contents(q) + [msg]
  {
    hide Offset, Ring, Slot;
    var r := Enqueue(q, msg);
    RingStep(q.head, q.count, q.capacity);
    forall k | 0 <= k < r.count
      ensures Contents(r)[k] == (Contents(q) + [msg])[k]
    {
      EnqueueSlot(q, msg, Ring(q.head + k, q.capacity));
      if k < q.count {
        RingDistinct(q.head, k, q.count, q.capacity);
      }
    }
  }

  /** Dequeueing takes the oldest message. */
  lemma DequeueTakesFirst(q: Queue)
    requires QValid(q) && q.count > 0
    ensures Dequeue(q).Done?
    ensures var (q', msg) := Dequeue(q).value;
            QValid(q') && Contents(q) == [msg] + Contents(q')
  {
    hide Offset, Ring;
    var (q', msg) := Dequeue(q).value;
    RingStep(q.head, q.count - 1, q.capacity);
    RingIndex(q.head, 0, q.capacity);
    forall k | 0 <= k < q'.count
      ensures Contents(q')[k] == Contents(q)[k + 1]
    {
      RingStep(q.head, k, q.capacity);
      assert q.head + k + 1 == q.head + (k + 1);
      assert Slot(q', Ring(q'.head + k, q'.capacity)) == Slot(q, Ring(q.head + (k + 1), q.capacity));
    }
    assert Contents(q)[0] == msg;
  }

  /** One message too many lands on the oldest one. */
  lemma OverfillOverwrites(q: Queue, msg: Msg)
    requires QValid(q) && q.count == q.capacity && |msg| == q.msgSize
    ensures Enqueue(q, msg).count > q.capacity && Slot(Enqueue(q, msg), q.head) == msg
  {
    hide Offset, Ring, Slot, Write;
    RingIndex(q.head, q.capacity, q.capacity);
    EnqueueSlot(q, msg, q.head);
  }
}
