/** The message queue object, and the theorem for one sending and one receiving thread. */
module MsgQueue {
  import opened Common
  import opened Masks
  import opened SchedulerSpec
  import opened SchedulerInvariant
  import opened SchedulerRuns
  import opened Kernel
  import opened Spec = MsgQueueSpec
  import Scheduler

  class MsgQueue {
    const buf: array<Byte>
    const msgSize: nat
    const capacity: nat
    var head: nat
    var tail: nat
    var count: nat
    var recvWaiters: Mask
    var sendWaiters: Mask

    ghost function State(): Queue
      reads this, buf
    {
      Queue(buf[..], msgSize, capacity, head, tail, count, recvWaiters, sendWaiters)
    }

    ghost predicate Valid()
      reads this, buf
    {
      QShape(State())
    }

    /** The message buffer is not part of the scheduler: `new` takes it as a unique borrow. */
    ghost predicate Apart(sched: Scheduler.Scheduler) {
      buf as object != sched.threads && buf as object != sched.cursor
    }

    /** `new` asserts that at least one message fits. */
    constructor (buf: array<Byte>, msgSize: nat)
      requires 0 < msgSize <= buf.Length
      ensures Valid() && QValid(State()) && Contents(State()) == []
      ensures this.buf == buf && this.msgSize == msgSize && capacity == buf.Length / msgSize
      ensures State().recvWaiters == {} && State().sendWaiters == {}
    {
      this.buf := buf;
      this.msgSize := msgSize;
      this.capacity := buf.Length / msgSize;
      head, tail, count := 0, 0, 0;
      recvWaiters, sendWaiters := {}, {};
    }

    method Enqueue(msg: Msg)
      requires Valid() && |msg| == msgSize
      modifies `tail, `count, buf
      ensures State() == Spec.Enqueue(old(State()), msg)
    {
      hide Offset, Ring;
      SlotsApart(tail, capacity, msgSize);
      var dst := Offset(tail, msgSize);
      ghost var before := buf[..];
      forall k | 0 <= k < msgSize {
        buf[dst + k] := msg[k];
      }
      assert buf[..] == Write(before, dst, msg);
      tail := Ring(tail + 1, capacity);
      count := count + 1;
    }

    method Dequeue(out: array<Byte>) returns (ok: bool)
      requires Valid() && out.Length == msgSize && out != buf
      modifies `head, `count, out
      ensures var r := Spec.Dequeue(old(State()));
              ok == r.Done? && (ok ==> State() == r.value.0 && out[..] == r.value.1)
    {
      if count == 0 {
        return false;
      }
      hide Offset, Ring;
      SlotsApart(head, capacity, msgSize);
      var src := Offset(head, msgSize);
      forall k | 0 <= k < msgSize {
        out[k] := buf[src + k];
      }
      assert out[..] == Slot(State(), head) by {
        assert out[..] == buf[..][src..src + msgSize];
      }
      head := Ring(head + 1, capacity);
      count := count - 1;
      ok := true;
    }

    method WakeReceiver(sched: Scheduler.Scheduler)
      requires sched.Valid() && Apart(sched)
      modifies `recvWaiters, sched`ready, sched.threads
      ensures (State(), sched.State()) == Spec.WakeReceiver(old(State()), old(sched.State()))
    {
      if recvWaiters != {} {
        var id := Lowest(recvWaiters);
        recvWaiters := recvWaiters - {id};
        sched.Unblock(id);
      }
    }

    method WakeSender(sched: Scheduler.Scheduler)
      requires sched.Valid() && Apart(sched)
      modifies `sendWaiters, sched`ready, sched.threads
      ensures (State(), sched.State()) == Spec.WakeSender(old(State()), old(sched.State()))
    {
      if sendWaiters != {} {
        var id := Lowest(sendWaiters);
        sendWaiters := sendWaiters - {id};
        sched.Unblock(id);
      }
    }

    method SendEnter(sched: Scheduler.Scheduler, msg: Msg, timeout: Option<nat>) returns (ok: bool, result: SendResult)
      requires Valid() && sched.Valid() && Apart(sched)
      modifies this, buf, sched, sched.threads, sched.cursor
      ensures var r := Spec.SendEnter(old(State()), old(sched.State()), msg, timeout);
              ok == r.Done? && (ok ==> (State(), sched.State(), result) == r.value)
    {
      hide Offset, Ring, Spec.Enqueue;
      if |msg| != msgSize {
        return true, BadSize;
      }
      if count < capacity {
        Enqueue(msg);
        assert sched.State() == old(sched.State());
        WakeReceiver(sched);
        return true, Sent;
      }
      if sched.current >= MAX_THREADS {
        return false, SendPending;
      }
      sendWaiters := sendWaiters + {sched.current};
      ok := sched.BlockCurrent(timeout);
      result := SendPending;
    }

    method SendLeave(sched: Scheduler.Scheduler, id: nat, msg: Msg) returns (result: SendResult)
      requires Valid() && sched.Valid() && Occupied(sched.State().threads, sched.current) && |msg| == msgSize
      requires Apart(sched)
      modifies this, buf, sched`ready, sched.threads
      ensures (State(), sched.State(), result) ==
              Spec.SendLeave(old(State()), old(sched.State()), old(IpcError(sched.State())), id, msg)
    {
      hide Offset, Ring, Spec.Enqueue;
      var error := sched.threads[sched.current].value.ipcError;
      if error != IPC_OK {
        sendWaiters := sendWaiters - {id};
        return SendTimeout;
      }
      Enqueue(msg);
      assert sched.State() == old(sched.State());
      WakeReceiver(sched);
      result := Sent;
    }

    method TrySend(sched: Scheduler.Scheduler, msg: Msg) returns (ok: bool)
      requires Valid() && sched.Valid() && Apart(sched)
      modifies this, buf, sched`ready, sched.threads
      ensures ok <==> |msg| == msgSize && old(count) < capacity
      ensures (State(), sched.State()) == if ok then Spec.Put(old(State()), old(sched.State()), msg) else old((State(), sched.State()))
    {
      hide Offset, Ring, Spec.Enqueue;
      ok := |msg| == msgSize && count < capacity;
      if ok {
        Enqueue(msg);
        assert sched.State() == old(sched.State());
        WakeReceiver(sched);
      }
    }

    method TryRecv(sched: Scheduler.Scheduler, out: array<Byte>) returns (ok: bool)
      requires Valid() && sched.Valid() && Apart(sched) && out != buf
      requires out as object != sched.threads && out as object != sched.cursor
      modifies this, out, sched`ready, sched.threads
      ensures ok <==> out.Length == msgSize && old(count) > 0
      ensures ok ==> Done((State(), sched.State(), out[..])) == Spec.Get(old(State()), old(sched.State()))
      ensures !ok ==> State() == old(State()) && sched.State() == old(sched.State())
    {
      hide Offset, Ring, Slot;
      ok := out.Length == msgSize && count > 0;
      if ok {
        var taken := Dequeue(out);
        assert sched.State() == old(sched.State());
        WakeSender(sched);
      }
    }

    method RecvEnter(sched: Scheduler.Scheduler, out: array<Byte>, timeout: Option<nat>) returns (ok: bool, result: RecvResult)
      requires Valid() && sched.Valid() && Apart(sched) && out.Length == msgSize && out != buf
      requires out as object != sched.threads && out as object != sched.cursor
      modifies this, out, sched, sched.threads, sched.cursor
      ensures var r := Spec.RecvEnter(old(State()), old(sched.State()), timeout);
              && ok == r.Done?
              && (ok ==> (State(), sched.State(), result) == r.value)
              && (ok && result.Received? ==> out[..] == result.msg)
    {
      hide Offset, Ring, Slot;
      if count > 0 {
        ok := Dequeue(out);
        assert sched.State() == old(sched.State());
        WakeSender(sched);
        return ok, Received(out[..]);
      }
      if sched.current >= MAX_THREADS {
        return false, RecvPending;
      }
      recvWaiters := recvWaiters + {sched.current};
      ok := sched.BlockCurrent(timeout);
      result := RecvPending;
    }

    method RecvLeave(sched: Scheduler.Scheduler, out: array<Byte>, id: nat) returns (ok: bool, result: RecvResult)
      requires Valid() && sched.Valid() && Apart(sched) && Occupied(sched.State().threads, sched.current)
      requires out.Length == msgSize && out != buf && out as object != sched.threads && out as object != sched.cursor
      modifies this, out, sched`ready, sched.threads
      ensures var r := Spec.RecvLeave(old(State()), old(sched.State()), old(IpcError(sched.State())), id);
              && ok == r.Done?
              && (ok ==> (State(), sched.State(), result) == r.value)
              && (ok && result.Received? ==> out[..] == result.msg)
    {
      hide Offset, Ring, Spec.Dequeue;
      var error := sched.threads[sched.current].value.ipcError;
      if error != IPC_OK {
        recvWaiters := recvWaiters - {id};
        return true, RecvTimeout;
      }
      ok := Dequeue(out);
      if !ok {
        return false, RecvTimeout;
      }
      assert sched.State() == old(sched.State());
      WakeSender(sched);
      result := Received(out[..]);
    }
  }
}
