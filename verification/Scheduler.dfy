/** The scheduler as the code has it: one object whose fields are updated in place.
    Every method is proved to do what `SchedulerSpec` says; the theorems about runs are
    stated over those functions. */
module Scheduler {
  import opened Common
  import opened Masks
  import Spec = SchedulerSpec
  import opened SchedulerSpec

  class Scheduler {
    const threads: array<Option<Thread>>
    const cursor: array<nat>
    var count: nat
    var current: nat
    var ready: Mask
    var tickCount: nat
    var started: bool
    var handoffs: seq<Handoff>

    ghost function State(): Sched
      reads this, threads, cursor
    {
      Sched(threads[..], count, current, ready, cursor[..], tickCount, started, handoffs)
    }

    ghost predicate Valid()
      reads this, threads, cursor
    {
      Shape(State())
    }

    constructor ()
      ensures Valid() && fresh(threads) && fresh(cursor)
      ensures State() == Init()
    {
      threads := new Option<Thread>[MAX_THREADS](_ => None);
      cursor := new nat[MAX_PRIORITY](_ => NULL_ID);
      count, current, ready, tickCount, started, handoffs := 0, NULL_ID, {}, 0, false, [];
      new;
      assert threads[..] == Init().threads;
      assert cursor[..] == Init().cursor;
    }

    /** The result of an operation that may panic: on success the state is the specified one. */
    ghost predicate Completes(ok: bool, r: Outcome<Sched>)
      reads this, threads, cursor
    {
      ok == r.Done? && (ok ==> State() == r.value)
    }

    method SetReady(id: nat, priority: nat)
      requires Valid() && id < MAX_THREADS && priority < MAX_PRIORITY
      modifies `ready, threads
      ensures State() == Spec.SetReady(old(State()), id, priority)
    {
      if threads[id].Some? {
        threads[id] := Some(threads[id].value.(state := Ready));
      }
      ready := ready + {priority};
    }

    method ClearReadyIfEmpty(priority: nat)
      requires threads.Length == MAX_THREADS
      modifies `ready
      ensures State() == Spec.ClearReadyIfEmpty(old(State()), priority)
    {
      var found := false;
      for i := 0 to MAX_THREADS
        invariant found <==> exists j | 0 <= j < i :: ReadyAt(threads[..], j, priority)
      {
        if threads[i].Some? && threads[i].value.priority == priority && threads[i].value.state == Ready {
          assert ReadyAt(threads[..], i, priority);
          found := true;
        }
      }
      if !found {
        ready := ready - {priority};
      }
    }

    /** The round-robin scan: 32 slots from the one after the cursor. */
    method PickNext() returns (r: Option<nat>)
      requires Valid()
      ensures r == Spec.PickNext(State())
    {
      if ready == {} {
        return None;
      }
      var p := Lowest(ready);
      var idx: nat := if cursor[p] == NULL_ID then 0 else (cursor[p] + 1) % MAX_THREADS;
      for k := 0 to MAX_THREADS
        invariant idx < MAX_THREADS
        invariant Spec.PickNext(State()) == Scan(threads[..], p, idx, MAX_THREADS - k)
      {
        if threads[idx].Some? && threads[idx].value.priority == p && threads[idx].value.state == Ready {
          return Some(idx);
        }
        idx := (idx + 1) % MAX_THREADS;
      }
      r := None;
    }

    /** `do_schedule` (from a thread) and `do_schedule_from_isr` differ only in the
        assembly routine they call. */
    method DoSchedule(mode: SwitchMode) returns (ok: bool)
      requires Valid()
      modifies this, threads, cursor
      ensures Completes(ok, Spec.DoSchedule(old(State()), mode))
    {
      var pick := PickNext();
      if pick.None? {
        return true;
      }
      var next := pick.value;
      if next == current {
        threads[current] := Some(threads[current].value.(state := Running));
        return true;
      }
      if current >= MAX_THREADS || threads[current].None? {
        return false;
      }
      var priority := threads[next].value.priority;
      threads[next] := Some(threads[next].value.(state := Running));
      cursor[priority] := next;
      handoffs := handoffs + [HandoffFor(mode, current, next)];
      current := next;
      ok := true;
    }

    method Create(priority: nat, tick: nat) returns (handle: Option<nat>)
      requires Valid()
      modifies this, threads
      ensures (State(), handle) == Spec.Create(old(State()), priority, tick)
    {
      var id := 0;
      while id < MAX_THREADS && threads[id].Some?
        invariant id <= MAX_THREADS
        invariant FreeSlot(State(), 0) == FreeSlot(State(), id)
      {
        id := id + 1;
      }
      if id == MAX_THREADS {
        return None;
      }
      threads[id] := Some(NewThread(priority, tick));
      count := count + 1;
      ready := ready + {Clamp(priority)};
      handle := Some(id);
    }

    method Start() returns (ok: bool)
      requires Valid()
      modifies this, threads, cursor
      ensures Completes(ok, Spec.Start(old(State())))
    {
      var pick := PickNext();
      if pick.None? {
        return false;
      }
      var next := pick.value;
      var priority := threads[next].value.priority;
      threads[next] := Some(threads[next].value.(state := Running));
      cursor[priority] := next;
      current := next;
      started := true;
      handoffs := handoffs + [First(next)];
      ok := true;
    }

    method Yield() returns (ok: bool)
      requires Valid()
      modifies this, threads, cursor
      ensures Completes(ok, Spec.Yield(old(State())))
    {
      if current >= MAX_THREADS {
        return false;
      }
      if threads[current].Some? && threads[current].value.state == Running {
        threads[current] := Some(threads[current].value.(state := Ready));
      }
      assert State() == DemoteCurrent(old(State()));
      ok := DoSchedule(FromThread);
    }

    method Sleep(ticks: nat) returns (ok: bool)
      requires Valid()
      modifies this, threads, cursor
      ensures Completes(ok, Spec.Sleep(old(State()), ticks))
    {
      if current >= MAX_THREADS {
        return false;
      }
      if threads[current].Some? {
        var t := threads[current].value;
        threads[current] := Some(t.(state := Sleeping, isIpcWait := false, sleepUntil := tickCount + ticks));
        ClearReadyIfEmpty(t.priority);
        assert State() == Suspended(old(State()), SleepingThread(old(State()), t, ticks));
      }
      ok := DoSchedule(FromThread);
    }

    method BlockCurrent(timeout: Option<nat>) returns (ok: bool)
      requires Valid()
      modifies this, threads, cursor
      ensures Completes(ok, Spec.BlockCurrent(old(State()), timeout))
    {
      if current >= MAX_THREADS {
        return false;
      }
      if threads[current].Some? {
        var t := threads[current].value.(ipcError := IPC_WAIT_SENTINEL, isIpcWait := true);
        if timeout.Some? {
          t := t.(sleepUntil := tickCount + timeout.value, state := BlockedTimeout);
        } else {
          t := t.(state := Blocked);
        }
        threads[current] := Some(t);
        ClearReadyIfEmpty(t.priority);
        assert State() == Suspended(old(State()), BlockedThread(old(State()), old(State()).threads[old(current)].value, timeout));
      }
      ok := DoSchedule(FromThread);
    }

    method Unblock(id: nat)
      requires Valid() && id < MAX_THREADS
      modifies `ready, threads
      ensures State() == Spec.Unblock(old(State()), id)
    {
      if threads[id].Some? && AwaitingIpc(threads[id].value) {
        var t := threads[id].value;
        threads[id] := Some(t.(ipcError := IPC_OK, isIpcWait := false, sleepUntil := 0));
        assert threads[..] == old(threads[..])[id := threads[id]];
        SetReady(id, t.priority);
      }
    }

    /** The wake-up scan at the start of the tick. */
    method WakeExpired()
      requires Valid()
      modifies `ready, threads
      ensures State() == Spec.WakeExpired(old(State()), MAX_THREADS)
    {
      hide Spec.WakeExpired;
      ghost var s := State();
      WakeNone(s);
      for id := 0 to MAX_THREADS
        invariant State() == Spec.WakeExpired(s, id)
      {
        WakeOneMore(s, id);
        if threads[id].Some? && Expired(threads[id].value, tickCount) {
          var t := threads[id].value;
          threads[id] := Some(t.(ipcError := if t.isIpcWait then IPC_TIMEOUT else t.ipcError,
                                 isIpcWait := false,
                                 sleepUntil := 0));
          SetReady(id, t.priority);
        }
      }
    }

    method Preempt() returns (ok: bool)
      requires Valid() && current < MAX_THREADS
      modifies this, threads, cursor
      ensures Completes(ok, Spec.Preempt(old(State())))
    {
      if threads[current].Some? && threads[current].value.state == Running {
        var t := threads[current].value;
        threads[current] := Some(t.(state := Ready));
        ready := ready + {t.priority};
      }
      ok := DoSchedule(FromIsr);
    }

    method PreemptIfOutranked() returns (ok: bool)
      requires Valid()
      modifies this, threads, cursor
      ensures Completes(ok, Spec.PreemptIfOutranked(old(State())))
    {
      if ready == {} {
        return true;
      }
      if current >= MAX_THREADS {
        return false;
      }
      var priority := if threads[current].Some? then threads[current].value.priority else LOWEST_PRIORITY;
      if Lowest(ready) < priority {
        ok := Preempt();
      } else {
        ok := true;
      }
    }

    method RearmSignals()
      requires Valid()
      modifies threads
      ensures State() == RearmCurrent(old(State()))
    {
      if current < MAX_THREADS && threads[current].Some? {
        var t := threads[current].value;
        var deliverable := t.sigPending - t.sigMask;
        if deliverable != {} {
          t := t.(sigPending := t.sigPending - deliverable);
          t := t.(sigPending := t.sigPending + deliverable);
        }
        assert t == Spec.RearmSignals(threads[current].value);
        threads[current] := Some(t);
      }
    }

    method TimeSlice() returns (ok: bool)
      requires Valid()
      modifies this, threads, cursor
      ensures Completes(ok, Spec.TimeSlice(old(State())))
    {
      if current < MAX_THREADS && threads[current].Some? && threads[current].value.state == Running {
        var t := threads[current].value;
        if t.tick > 0 {
          t := t.(tick := t.tick - 1);
        }
        if t.tick == 0 {
          threads[current] := Some(t.(tick := t.initTick));
          ok := Preempt();
          return;
        }
        threads[current] := Some(t);
      }
      ok := PreemptIfOutranked();
    }

    method Tick() returns (ok: bool)
      requires Valid()
      modifies this, threads, cursor
      ensures Completes(ok, Spec.Tick(old(State())))
    {
      hide Spec.TimeSlice;
      tickCount := tickCount + 1;
      WakeExpired();
      RearmSignals();
      assert State() == AfterWakeups(old(State()));
      ok := TimeSlice();
    }

    method Remove(id: nat) returns (ok: bool)
      requires Valid() && Occupied(State().threads, id)
      modifies this, threads
      ensures Completes(ok, Spec.Remove(old(State()), id))
    {
      if count == 0 {
        return false;
      }
      var priority := threads[id].value.priority;
      threads[id] := None;
      count := count - 1;
      ClearReadyIfEmpty(priority);
      ok := true;
    }

    method Delete(id: nat) returns (ok: bool)
      requires Valid()
      modifies this, threads
      ensures Completes(ok, Spec.Delete(old(State()), id))
    {
      if id >= MAX_THREADS {
        return false;
      }
      ok := true;
      if threads[id].Some? {
        ok := Remove(id);
      }
    }

    method Suspend(id: nat) returns (ok: bool)
      requires Valid()
      modifies this, threads
      ensures Completes(ok, Spec.Suspend(old(State()), id))
    {
      if id >= MAX_THREADS {
        return false;
      }
      if threads[id].Some? && (threads[id].value.state == Ready || threads[id].value.state == Running) {
        var t := threads[id].value;
        threads[id] := Some(t.(state := Blocked));
        ClearReadyIfEmpty(t.priority);
      }
      ok := true;
    }

    method Resume(id: nat) returns (ok: bool)
      requires Valid()
      modifies this, threads, cursor
      ensures Completes(ok, Spec.Resume(old(State()), id))
    {
      if id >= MAX_THREADS {
        return false;
      }
      ok := true;
      if threads[id].Some? && threads[id].value.state == Blocked && !threads[id].value.isIpcWait {
        SetReady(id, threads[id].value.priority);
        if started {
          ok := DoSchedule(FromThread);
        }
      }
    }

    method Exit() returns (ok: bool)
      requires Valid()
      modifies this, threads, cursor
      ensures Completes(ok, Spec.Exit(old(State())))
    {
      if current >= MAX_THREADS {
        return false;
      }
      if threads[current].Some? {
        ok := Remove(current);
        if !ok {
          return;
        }
      }
      ok := DoSchedule(FromThread);
    }
  }

  /** One more slot of the wake-up scan. */
  lemma WakeOneMore(s: Sched, id: nat)
    requires Shape(s) && id < MAX_THREADS
    ensures var before := Spec.WakeExpired(s, id);
            Spec.WakeExpired(s, id + 1) ==
            if ExpiredAt(s, id)
            then before.(threads := before.threads[id := Some(WakeThread(s.threads[id].value))],
                         ready := before.ready + {s.threads[id].value.priority})
            else before
    ensures Shape(Spec.WakeExpired(s, id))
    ensures Spec.WakeExpired(s, id).threads[id] == s.threads[id] && Spec.WakeExpired(s, id).tickCount == s.tickCount
  {
  }

  lemma WakeNone(s: Sched)
    requires Shape(s)
    ensures Spec.WakeExpired(s, 0) == s
  {
  }
}
