/** Per-thread software signals: sending, masking, waiting and delivery, and the promise
    that nothing is lost between send and delivery. */
module Signal {
  import opened Common
  import opened Masks
  import opened SchedulerSpec
  import opened SchedulerInvariant
  import opened SchedulerRuns
  import opened Kernel
  import Scheduler

  const MAX_SIGNALS: nat := 32

  // ---- The operations ----

  /** `SIG_WAITERS` and `SIG_WAIT_MASK`. */
  datatype Table = Table(waiters: Mask, waitMask: seq<Mask>)

  function Deliverable(t: Thread): Mask {
    t.sigPending - t.sigMask
  }

  function Pend(s: Sched, id: nat, pending: Mask): Sched
    requires Occupied(s.threads, id)
  {
    SchedulerSpec.Put(s, id, s.threads[id].value.(sigPending := pending))
  }

  /** Take the lowest deliverable signal among `wanted` out of the pending mask. */
  function TakeSignal(s: Sched, id: nat, wanted: Mask): (Sched, Option<nat>)
    requires Occupied(s.threads, id)
  {
    var t := s.threads[id].value;
    var found := Deliverable(t) * wanted;
    if found == {} then (s, None) else (Pend(s, id, t.sigPending - {Lowest(found)}), Some(Lowest(found)))
  }

  /** `signal_send`: false is `InvalidSignal`. */
  function SendSpec(tab: Table, s: Sched, target: nat, signo: nat): Outcome<(Table, Sched, bool)>
    requires Shape(s) && |tab.waitMask| == MAX_THREADS
  {
    if signo >= MAX_SIGNALS then Done((tab, s, false))
    else if target >= MAX_THREADS then Panic
    else if s.threads[target].None? then Done((tab, s, true))
    else
      var s1 := Pend(s, target, s.threads[target].value.sigPending + {signo});
      if target in tab.waiters && Deliverable(s1.threads[target].value) * tab.waitMask[target] != {} then
        Done((tab.(waiters := tab.waiters - {target}), Unblock(s1, target), true))
      else Done((tab, s1, true))
  }

  function SetMaskSpec(s: Sched, mask: Mask): Outcome<(Sched, Mask)> {
    if s.current >= |s.threads| then Panic
    else if s.threads[s.current].None? then Done((s, {}))
    else
      var t := s.threads[s.current].value;
      Done((SchedulerSpec.Put(s, s.current, t.(sigMask := mask)), t.sigMask))
  }

  /** First step of `signal_wait`: a signal at once, or registered and blocked. */
  function WaitEnterSpec(tab: Table, s: Sched, wanted: Mask, timeout: Option<nat>): Outcome<(Table, Sched, Option<nat>)>
    requires Shape(s) && |tab.waitMask| == MAX_THREADS
  {
    var id := s.current;
    if id >= MAX_THREADS then Panic
    else if s.threads[id].Some? && TakeSignal(s, id, wanted).1.Some? then
      var (s1, signo) := TakeSignal(s, id, wanted);
      Done((tab, s1, signo))
    else
      match BlockCurrent(s, timeout)
      case Panic => Panic
      case Done(s1) => Done((Table(tab.waiters + {id}, tab.waitMask[id := wanted]), s1, None))
  }

  /** Second step: `None` is the timeout; a success without a deliverable signal would
      report signal 0. */
  function WaitLeaveSpec(tab: Table, s: Sched, id: nat, wanted: Mask): (Table, Sched, Option<nat>)
    requires Occupied(s.threads, s.current) && Occupied(s.threads, id)
  {
    if IpcError(s) != IPC_OK then (tab.(waiters := tab.waiters - {id}), s, None)
    else
      var (s1, found) := TakeSignal(s, id, wanted);
      (tab, s1, Some(if found.Some? then found.value else 0))
  }

  /** A signal is handed out if and only if one is pending, unmasked and wanted; it is the
      least of those, and only its pending bit changes. */
  lemma TakesLeast(s: Sched, id: nat, wanted: Mask)
    requires Occupied(s.threads, id)
    ensures var t, (s', got) := s.threads[id].value, TakeSignal(s, id, wanted);
            && (got.None? <==> forall x | x in t.sigPending && x in wanted :: x in t.sigMask)
            && (got.None? ==> s' == s)
            && (got.Some? ==>
                  && got.value in t.sigPending && got.value in wanted && got.value !in t.sigMask
                  && (forall x | x in t.sigPending && x in wanted && x !in t.sigMask :: got.value <= x)
                  && s' == s.(threads := s.threads[id := Some(t.(sigPending := t.sigPending - {got.value}))]))
  {
    hide LowestFrom;
    var t := s.threads[id].value;
    var found := Deliverable(t) * wanted;
    assert forall x :: x in found <==> x in t.sigPending && x !in t.sigMask && x in wanted;
  }

  /** `signal_mask` blocks the mask's signals and no others, and returns what undoes it: a
      second call with the returned mask restores everything and returns the first one. */
  lemma MaskRestores(s: Sched, mask: Mask, x: nat)
    requires Occupied(s.threads, s.current) && x < WIDTH
    ensures SetMaskSpec(s, mask).Done?
    ensures var (s1, before) := SetMaskSpec(s, mask).value;
            && Occupied(s1.threads, s.current)
            && (TakeSignal(s1, s.current, {x}).1.Some? <==> x in s.threads[s.current].value.sigPending && x !in mask)
            && SetMaskSpec(s1, before) == Done((s, mask))
  {
    var t := s.threads[s.current].value;
    var (s1, before) := SetMaskSpec(s, mask).value;
    var t1 := s1.threads[s.current].value;
    TakesLeast(s1, s.current, {x});
    assert t1.(sigMask := before) == t;
    assert s1.threads[s.current := Some(t)] == s.threads;
  }

  /** The signals of a mask in the order `signal_check` delivers them. */
  function Ascending(m: Mask): seq<nat>
    decreases |m|
  {
    if m == {} then [] else [Lowest(m)] + Ascending(m - {Lowest(m)})
  }

  /** The delivery order is strictly ascending and covers exactly the mask. */
  lemma {:induction false} AscendingIsSorted(m: Mask)
    ensures forall i | 0 <= i < |Ascending(m)| :: Ascending(m)[i] in m
    ensures forall x | x in m :: x in Ascending(m)
    ensures forall i, j | 0 <= i < j < |Ascending(m)| :: Ascending(m)[i] < Ascending(m)[j]
    decreases |m|
  {
    hide LowestFrom, Lowest;
    if m != {} {
      var rest := m - {Lowest(m)};
      var tail := Ascending(rest);
      AscendingIsSorted(rest);
      assert Ascending(m) == [Lowest(m)] + tail;
      forall i, j | 0 <= i < j <= |tail|
        ensures Ascending(m)[i] < Ascending(m)[j]
      {
        assert tail[j - 1] in rest;
      }
      forall x | x in m
        ensures x in Ascending(m)
      {
        assert x == Lowest(m) || x in tail;
      }
    }
  }

  const ALL_SIGNALS: Mask := set i | 0 <= i < MAX_SIGNALS

  class SignalTable {
    var waiters: Mask
    const waitMask: array<Mask>

    ghost function State(): Table
      reads this, waitMask
    {
      Table(waiters, waitMask[..])
    }

    ghost predicate Valid() {
      waitMask.Length == MAX_THREADS
    }

    /** The wait masks are not part of the scheduler. */
    ghost predicate Apart(sched: Scheduler.Scheduler) {
      waitMask as object != sched.threads && waitMask as object != sched.cursor
    }

    constructor ()
      ensures Valid() && fresh(waitMask)
      ensures State() == Table({}, seq(MAX_THREADS, _ => {}))
    {
      waiters := {};
      waitMask := new Mask[MAX_THREADS](_ => {});
      new;
      assert waitMask[..] == seq(MAX_THREADS, _ => {});
    }

    method Send(sched: Scheduler.Scheduler, target: nat, signo: nat) returns (ok: bool, sent: bool)
      requires Valid() && sched.Valid() && Apart(sched)
      modifies this, sched`ready, sched.threads
      ensures var r := SendSpec(old(State()), old(sched.State()), target, signo);
              ok == r.Done? && (ok ==> (State(), sched.State(), sent) == r.value)
    {
      if signo >= MAX_SIGNALS {
        return true, false;
      }
      if target >= MAX_THREADS {
        return false, false;
      }
      if sched.threads[target].Some? {
        var t := sched.threads[target].value;
        t := t.(sigPending := t.sigPending + {signo});
        sched.threads[target] := Some(t);
        if target in waiters {
          if Deliverable(t) * waitMask[target] != {} {
            waiters := waiters - {target};
            assert sched.State() == Pend(old(sched.State()), target, t.sigPending);
            sched.Unblock(target);
          }
        }
      }
      return true, true;
    }

    method SetMask(sched: Scheduler.Scheduler, mask: Mask) returns (ok: bool, previous: Mask)
      requires sched.Valid()
      modifies sched.threads
      ensures var r := SetMaskSpec(old(sched.State()), mask);
              ok == r.Done? && (ok ==> (sched.State(), previous) == r.value)
    {
      if sched.current >= MAX_THREADS {
        return false, {};
      }
      previous := {};
      if sched.threads[sched.current].Some? {
        var t := sched.threads[sched.current].value;
        previous := t.sigMask;
        sched.threads[sched.current] := Some(t.(sigMask := mask));
      }
      ok := true;
    }

    /** The critical section shared by `signal_wait` and `signal_check`. */
    method Take(sched: Scheduler.Scheduler, id: nat, wanted: Mask) returns (signo: Option<nat>)
      requires sched.Valid() && Occupied(sched.State().threads, id)
      modifies sched.threads
      ensures (sched.State(), signo) == TakeSignal(old(sched.State()), id, wanted)
    {
      var t := sched.threads[id].value;
      var found := Deliverable(t) * wanted;
      if found == {} {
        return None;
      }
      sched.threads[id] := Some(t.(sigPending := t.sigPending - {Lowest(found)}));
      signo := Some(Lowest(found));
    }

    method WaitEnter(sched: Scheduler.Scheduler, wanted: Mask, timeout: Option<nat>) returns (ok: bool, signo: Option<nat>)
      requires Valid() && sched.Valid() && Apart(sched)
      modifies this, waitMask, sched, sched.threads, sched.cursor
      ensures var r := WaitEnterSpec(old(State()), old(sched.State()), wanted, timeout);
              ok == r.Done? && (ok ==> (State(), sched.State(), signo) == r.value)
    {
      var id := sched.current;
      if id >= MAX_THREADS {
        return false, None;
      }
      if sched.threads[id].Some? {
        signo := Take(sched, id, wanted);
        if signo.Some? {
          return true, signo;
        }
      }
      waitMask[id] := wanted;
      waiters := waiters + {id};
      assert sched.State() == old(sched.State());
      ok := sched.BlockCurrent(timeout);
      signo := None;
    }

    method WaitLeave(sched: Scheduler.Scheduler, id: nat, wanted: Mask) returns (signo: Option<nat>)
      requires Valid() && sched.Valid() && Apart(sched)
      requires Occupied(sched.State().threads, sched.current) && Occupied(sched.State().threads, id)
      modifies this, sched.threads
      ensures (State(), sched.State(), signo) == WaitLeaveSpec(old(State()), old(sched.State()), id, wanted)
    {
      var error := sched.threads[sched.current].value.ipcError;
      if error != IPC_OK {
        waiters := waiters - {id};
        return None;
      }
      signo := Take(sched, id, wanted);
      if signo.None? {
        signo := Some(0);
      }
    }

    /** `signal_check` with no interruption between its critical sections: everything
        deliverable is delivered, lowest first; masked signals stay pending. */
    method Check(sched: Scheduler.Scheduler) returns (ok: bool, delivered: seq<nat>)
      requires sched.Valid()
      modifies sched.threads
      ensures ok <==> sched.current < MAX_THREADS
      ensures Occupied(old(sched.State()).threads, sched.current) ==>
                var t := old(sched.State()).threads[sched.current].value;
                && delivered == Ascending(Deliverable(t))
                && sched.State() == Pend(old(sched.State()), sched.current, t.sigPending * t.sigMask)
      ensures !Occupied(old(sched.State()).threads, sched.current) ==> delivered == [] && sched.State() == old(sched.State())
    {
      hide TakeSignal, Ascending;
      var id := sched.current;
      delivered := [];
      if id >= MAX_THREADS || sched.threads[id].None? {
        return id < MAX_THREADS, [];
      }
      ok := true;
      ghost var s := sched.State();
      ghost var t := s.threads[id].value;
      ghost var pending: Mask := t.sigPending;
      assert Pend(s, id, pending) == s;
      while true
        invariant sched.Valid() && sched.State() == Pend(s, id, pending)
        invariant t.sigPending * t.sigMask <= pending <= t.sigPending
        invariant delivered + Ascending(pending - t.sigMask) == Ascending(Deliverable(t))
        decreases |pending|
      {
        OneDelivery(s, id, pending);
        var signo := Take(sched, id, ALL_SIGNALS);
        if signo.None? {
          break;
        }
        delivered := delivered + [signo.value];
        pending := pending - {signo.value};
      }
    }
  }

  /** One round of `signal_check`, with `pending` left of the thread's signals. */
  lemma OneDelivery(s: Sched, id: nat, pending: Mask)
    requires Shape(s) && Occupied(s.threads, id)
    requires var t := s.threads[id].value; t.sigPending * t.sigMask <= pending <= t.sigPending
    ensures var t := s.threads[id].value;
            var (s', signo) := TakeSignal(Pend(s, id, pending), id, ALL_SIGNALS);
            match signo
            case None =>
              pending == t.sigPending * t.sigMask && s' == Pend(s, id, pending) && Ascending(pending - t.sigMask) == []
            case Some(x) =>
              && x in pending && x !in t.sigMask
              && s' == Pend(s, id, pending - {x})
              && Ascending(pending - t.sigMask) == [x] + Ascending(pending - {x} - t.sigMask)
  {
    hide LowestFrom;
    var t := s.threads[id].value;
    var found: Mask := pending - t.sigMask;
    assert found * ALL_SIGNALS == found;
    if found == {} {
      assert forall x | x in pending :: x in t.sigMask by {
        assert forall x | x in pending && x !in t.sigMask :: x in found;
      }
    } else {
      assert pending - {Lowest(found)} - t.sigMask == found - {Lowest(found)};
    }
  }
}
