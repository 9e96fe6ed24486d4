/** Deleting, suspending, resuming and exiting threads: exactly when the code as written
    keeps the scheduler's invariant, and what goes wrong when it does not. */
module SchedulerHazards {
  import opened Common
  import opened Masks
  import opened SchedulerSpec
  import opened SchedulerInvariant

  /** Taking `id` out of the ready set would clear the running thread's own priority bit. */
  ghost predicate ClearsCurrentBit(s: Sched, id: nat)
    requires Shape(s) && Occupied(s.threads, id)
  {
    var p := s.threads[id].value.priority;
    && CurrentRunning(s)
    && s.threads[s.current].value.priority == p
    && forall j | 0 <= j < MAX_THREADS && j != id :: !ReadyAt(s.threads, j, p)
  }

  lemma {:induction false} TallyClear(threads: Table, id: nat)
    requires id < |threads| && threads[id].Some?
    ensures Tally(threads) > 0 && Tally(threads[id := None]) == Tally(threads) - 1
  {
    var last := |threads| - 1;
    if id < last {
      TallyClear(threads[..last], id);
      assert threads[id := None][..last] == threads[..last][id := None];
    } else {
      assert threads[id := None][..last] == threads[..last];
    }
  }

  /** The bitmap after slot `id` was replaced by something that is not Ready. */
  lemma BitsAfterLeaving(s: Sched, id: nat, slot: Option<Thread>)
    requires Inv(s) && s.started && Occupied(s.threads, id) && id != s.current
    requires slot.Some? ==> slot.value.state != Ready && slot.value.state != Running
    requires !ClearsCurrentBit(s, id)
    ensures var s1 := ClearReadyIfEmpty(s.(threads := s.threads[id := slot]), s.threads[id].value.priority);
            && BitsJustified(s1) && s.threads[s.current].value.priority in s1.ready
  {
    var p := s.threads[id].value.priority;
    var threads := s.threads[id := slot];
    var s1 := ClearReadyIfEmpty(s.(threads := threads), p);
    forall q | q in s.ready && q != p && AnyReady(s.threads, q)
      ensures AnyReady(threads, q)
    {
      var i :| 0 <= i < |s.threads| && ReadyAt(s.threads, i, q);
      assert ReadyAt(threads, i, q);
    }
    forall i | 0 <= i < |threads| && threads[i].Some? && threads[i].value.state == Ready
      ensures threads[i].value.priority in s1.ready
    {
      assert ReadyAt(threads, i, threads[i].value.priority);
    }
    if s.threads[s.current].value.priority == p {
      var j :| 0 <= j < MAX_THREADS && j != id && ReadyAt(s.threads, j, p);
      assert ReadyAt(threads, j, p);
    }
  }

  lemma NoPeerClearsBit(s: Sched, id: nat, slot: Option<Thread>)
    requires Inv(s) && s.started && Occupied(s.threads, id)
    requires slot.Some? ==> slot.value.state != Ready
    requires ClearsCurrentBit(s, id)
    ensures var s1 := ClearReadyIfEmpty(s.(threads := s.threads[id := slot]), s.threads[id].value.priority);
            s.threads[s.current].value.priority !in s1.ready
  {
    var p := s.threads[id].value.priority;
    var threads := s.threads[id := slot];
    assert forall j | 0 <= j < |threads| :: j != id ==> threads[j] == s.threads[j];
    assert forall j | 0 <= j < |threads| :: !ReadyAt(threads, j, p) by {
      forall j | 0 <= j < |threads|
        ensures !ReadyAt(threads, j, p)
      {
        assert j != id ==> !ReadyAt(s.threads, j, p);
      }
    }
  }

  /** `thread_delete` keeps the invariant exactly when the victim is not the running thread
      and does not take the running thread's priority bit with it. */
  lemma DeleteKeepsInvIff(s: Sched, id: nat)
    requires Inv(s) && s.started && Occupied(s.threads, id)
    ensures Delete(s, id).Done?
    ensures Inv(Delete(s, id).value) <==> id != s.current && !ClearsCurrentBit(s, id)
  {
    TallyClear(s.threads, id);
    var s1 := Delete(s, id).value;
    if id != s.current {
      if ClearsCurrentBit(s, id) {
        NoPeerClearsBit(s, id, None);
      } else {
        BitsAfterLeaving(s, id, None);
      }
    }
  }

  /** `thread_suspend` takes a Ready or Running thread, and nobody else, out of the running:
      its slot is Blocked, outside any IPC wait, and never picked. */
  lemma SuspendBlocks(s: Sched, id: nat)
    requires Inv(s) && (InState(s.threads, id, Ready) || InState(s.threads, id, Running))
    ensures Suspend(s, id).Done?
    ensures var s' := Suspend(s, id).value;
            && s'.threads == s.threads[id := Some(s.threads[id].value.(state := Blocked))]
            && !s'.threads[id].value.isIpcWait && PickNext(s') != Some(id)
  {
    hide PickNext;
  }

  /** `thread_resume` makes a suspended thread Ready again, or dispatches it at once; a thread
      that is not suspended it leaves alone. */
  lemma ResumeUnblocks(s: Sched, id: nat)
    requires Inv(s) && id < MAX_THREADS
    ensures Resume(s, id).Done?
    ensures var s' := Resume(s, id).value;
            if InState(s.threads, id, Blocked) && !s.threads[id].value.isIpcWait
            then InState(s'.threads, id, Ready) || InState(s'.threads, id, Running)
            else s' == s
  {
  }

  /** The same condition for `thread_suspend` of a Ready or Running thread. */
  lemma SuspendKeepsInvIff(s: Sched, id: nat)
    requires Inv(s) && s.started && (InState(s.threads, id, Ready) || InState(s.threads, id, Running))
    ensures Suspend(s, id).Done?
    ensures Inv(Suspend(s, id).value) <==> id != s.current && !ClearsCurrentBit(s, id)
  {
    var t := s.threads[id].value.(state := Blocked);
    TallyPut(s.threads, id, t);
    if id != s.current {
      if ClearsCurrentBit(s, id) {
        NoPeerClearsBit(s, id, Some(t));
      } else {
        BitsAfterLeaving(s, id, Some(t));
      }
    }
  }

  /** A thread whose priority bit is clear is never picked. */
  lemma ClearedBitIsNeverPicked(s: Sched, id: nat)
    requires Shape(s) && Occupied(s.threads, id) && s.threads[id].value.priority !in s.ready
    ensures PickNext(s) != Some(id)
  {
  }

  /** The loss: delete the last Ready peer of the running thread, then yield. The yielding
      thread is Ready with its bit clear, so the scheduler does not see it any more. */
  lemma DeleteThenYieldLosesThread(s: Sched, id: nat, other: nat)
    requires Inv(s) && s.started && Occupied(s.threads, id) && id != s.current && ClearsCurrentBit(s, id)
    requires InState(s.threads, other, Ready) && other != id
    ensures Delete(s, id).Done? && Yield(Delete(s, id).value).Done?
    ensures var s2 := Yield(Delete(s, id).value).value;
            && ReadyAt(s2.threads, s.current, s.threads[s.current].value.priority)
            && s.threads[s.current].value.priority !in s2.ready
            && s2.current != s.current && PickNext(s2) != Some(s.current)
  {
    TallyClear(s.threads, id);
    NoPeerClearsBit(s, id, None);
    var s1 := Delete(s, id).value;
    var s2 := DemoteCurrent(s1);
    assert InState(s2.threads, s.current, Ready);
    ClearedBitIsNeverPicked(s2, s.current);
    AfterLossSomeoneIsPicked(s, id, other);
    assert PickNext(s2).Some? && PickNext(s2).value != s.current;
    ClearedBitIsNeverPicked(Yield(s1).value, s.current);
  }

  lemma AfterLossSomeoneIsPicked(s: Sched, id: nat, other: nat)
    requires Inv(s) && s.started && Occupied(s.threads, id) && id != s.current && ClearsCurrentBit(s, id)
    requires InState(s.threads, other, Ready) && other != id
    requires Delete(s, id).Done?
    ensures PickNext(DemoteCurrent(Delete(s, id).value)).Some?
  {
    var s1 := DemoteCurrent(Delete(s, id).value);
    var q := s.threads[other].value.priority;
    assert q != s.threads[id].value.priority by {
      assert !ReadyAt(s.threads, other, s.threads[id].value.priority);
    }
    assert q in s1.ready;
    var p := Lowest(s1.ready);
    NoPeerClearsBit(s, id, None);
    assert AnyReady(s.threads, p);
    var i :| 0 <= i < |s.threads| && ReadyAt(s.threads, i, p);
    assert ReadyAt(s1.threads, i, p);
    PickIsNearest(s1, i);
  }

  /** `thread_resume` keeps the invariant exactly when it does not reschedule: the caller
      outranks the resumed thread and every Ready one. Otherwise it is left Running beside
      the thread that was dispatched. */
  lemma ResumeKeepsInvIff(s: Sched, id: nat)
    requires Inv(s) && s.started && InState(s.threads, id, Blocked) && !s.threads[id].value.isIpcWait
    ensures Resume(s, id).Done?
    ensures Inv(Resume(s, id).value) <==>
            forall j | 0 <= j < MAX_THREADS && (j == id || InState(s.threads, j, Ready)) ::
              s.threads[j].value.priority > s.threads[s.current].value.priority
  {
    hide Resume, DoSchedule, PickNext, BitsJustified, ThreadsOk, Bookkeeping;
    if j :| 0 <= j < MAX_THREADS && (j == id || InState(s.threads, j, Ready))
            && s.threads[j].value.priority <= s.threads[s.current].value.priority {
      ResumeBreaksInv(s, id, j);
    } else {
      ResumeOnlyAdds(s, id);
    }
  }

  lemma ResumeBreaksInv(s: Sched, id: nat, j: nat)
    requires Inv(s) && s.started && InState(s.threads, id, Blocked) && !s.threads[id].value.isIpcWait
    requires j < MAX_THREADS && (j == id || InState(s.threads, j, Ready))
    requires s.threads[j].value.priority <= s.threads[s.current].value.priority
    ensures Resume(s, id).Done? && !Inv(Resume(s, id).value)
  {
    hide DoSchedule, PickNext;
    var t := s.threads[id].value.(state := Ready);
    BitsGrow(s, id, t);
    var s1 := SetReady(s, id, t.priority);
    assert ReadyAt(s1.threads, j, s.threads[j].value.priority);
    ResumeStrands(s1, j);
  }

  lemma ResumeOnlyAdds(s: Sched, id: nat)
    requires Inv(s) && s.started && InState(s.threads, id, Blocked) && !s.threads[id].value.isIpcWait
    requires forall j | 0 <= j < MAX_THREADS && (j == id || InState(s.threads, j, Ready)) ::
               s.threads[j].value.priority > s.threads[s.current].value.priority
    ensures Resume(s, id).Done? && Inv(Resume(s, id).value)
  {
    hide PickNext;
    var t := s.threads[id].value.(state := Ready);
    TallyPut(s.threads, id, t);
    BitsGrow(s, id, t);
    ResumeOutranked(s, id, SetReady(s, id, t.priority));
  }

  lemma ResumeOutranked(s: Sched, id: nat, s1: Sched)
    requires Inv(s) && s.started && InState(s.threads, id, Blocked) && s1 == SetReady(s, id, s.threads[id].value.priority)
    requires forall j | 0 <= j < MAX_THREADS && (j == id || InState(s.threads, j, Ready)) ::
               s.threads[j].value.priority > s.threads[s.current].value.priority
    ensures PickNext(s1).None?
  {
  }

  lemma ResumeStrands(s: Sched, j: nat)
    requires Shape(s) && s.started && BitsJustified(s) && CurrentRunning(s)
    requires InState(s.threads, j, Ready)
    requires s.threads[j].value.priority <= s.threads[s.current].value.priority
    ensures DoSchedule(s, FromThread).Done?
    ensures !NoneRunningBut(DoSchedule(s, FromThread).value.threads, DoSchedule(s, FromThread).value.current)
  {
    var p := Lowest(s.ready);
    if AnyReady(s.threads, p) {
      var i :| 0 <= i < |s.threads| && ReadyAt(s.threads, i, p);
      PickIsNearest(s, i);
    } else {
      PickIsNearest(s, j);
    }
    var s1 := DoSchedule(s, FromThread).value;
    assert s1.current != s.current;
    assert s1.threads[s.current] == s.threads[s.current];
  }

  /** `thread_exit` panics whenever any other thread is Ready: the slot `do_schedule`
      unwraps has just been emptied. */
  lemma ExitPanicsIff(s: Sched)
    requires Inv(s) && s.started
    ensures Exit(s).Panic? <==> exists j | 0 <= j < MAX_THREADS :: InState(s.threads, j, Ready)
  {
    hide PickNext, DoSchedule;
    TallyClear(s.threads, s.current);
    EmptyCurrentPanicsIff(Remove(s, s.current).value);
    if j :| 0 <= j < MAX_THREADS && InState(s.threads, j, Ready) {
      SomeoneIsPickedAfterExit(s, j);
    } else {
      NobodyIsPickedAfterExit(s);
    }
  }

  lemma EmptyCurrentPanicsIff(s: Sched)
    requires Shape(s) && s.current < MAX_THREADS && s.threads[s.current].None?
    ensures DoSchedule(s, FromThread).Panic? <==> PickNext(s).Some?
  {
  }

  lemma NobodyIsPickedAfterExit(s: Sched)
    requires Shape(s) && Occupied(s.threads, s.current) && Remove(s, s.current).Done?
    requires forall j | 0 <= j < MAX_THREADS :: !InState(s.threads, j, Ready)
    ensures PickNext(Remove(s, s.current).value).None?
  {
    hide PickNext;
    var s1 := Remove(s, s.current).value;
    forall j | 0 <= j < MAX_THREADS
      ensures !InState(s1.threads, j, Ready)
    {
      assert s1.threads[j].None? || s1.threads[j] == s.threads[j];
      assert !InState(s.threads, j, Ready);
    }
  }

  lemma SomeoneIsPickedAfterExit(s: Sched, j: nat)
    requires Inv(s) && s.started && Remove(s, s.current).Done? && InState(s.threads, j, Ready)
    ensures PickNext(Remove(s, s.current).value).Some?
  {
    var s1 := Remove(s, s.current).value;
    assert ReadyAt(s1.threads, j, s.threads[j].value.priority);
    assert s.threads[j].value.priority in s1.ready;
    var p := Lowest(s1.ready);
    ExitBits(s, p);
    var i :| 0 <= i < |s1.threads| && ReadyAt(s1.threads, i, p);
    PickIsNearest(s1, i);
  }

  lemma ExitBits(s: Sched, p: nat)
    requires Inv(s) && s.started && Remove(s, s.current).Done? && p in Remove(s, s.current).value.ready
    ensures AnyReady(Remove(s, s.current).value.threads, p)
  {
    var s1 := Remove(s, s.current).value;
    if p != s.threads[s.current].value.priority {
      var i :| 0 <= i < |s.threads| && ReadyAt(s.threads, i, p);
      assert ReadyAt(s1.threads, i, p);
    }
  }
}
