/** Event flags with OR/AND waits: the object, the two steps of `wait`, the fold that
    `set` performs over the waiters, and the promise that no satisfied waiter sleeps on. */
module EventFlags {
  import opened Common
  import opened Masks
  import opened SchedulerSpec
  import opened SchedulerInvariant
  import opened SchedulerRuns
  import opened Kernel
  import Scheduler

  // ---- The object ----

  datatype Mode = Or | And

  datatype Waiter = Waiter(flags: Mask, mode: Mode, clearOnExit: bool)

  datatype Event = Event(flags: Mask, waiters: Mask, params: seq<Option<Waiter>>)

  predicate ConditionMet(flags: Mask, w: Waiter) {
    match w.mode
    case Or => flags * w.flags != {}
    case And => flags * w.flags == w.flags
  }

  function Cleared(flags: Mask, w: Waiter): Mask {
    if w.clearOnExit then flags - w.flags else flags
  }

  /** `check_waiters`: one pass over `mask` in ascending order, on the flags as they are
      when each waiter's turn comes. */
  function CheckWaitersSpec(ev: Event, s: Sched, mask: Mask): (Event, Sched)
    requires Shape(s) && |ev.params| == MAX_THREADS
    decreases |mask|
  {
    if mask == {} then (ev, s)
    else
      var id := Lowest(mask);
      if ev.params[id].Some? && ConditionMet(ev.flags, ev.params[id].value) then
        CheckWaitersSpec(ev.(flags := Cleared(ev.flags, ev.params[id].value), waiters := ev.waiters - {id}),
                         Unblock(s, id), mask - {id})
      else CheckWaitersSpec(ev, s, mask - {id})
  }

  function SetSpec(ev: Event, s: Sched, flags: Mask): (Event, Sched)
    requires Shape(s) && |ev.params| == MAX_THREADS
  {
    CheckWaitersSpec(ev.(flags := ev.flags + flags), s, ev.waiters)
  }

  function ClearSpec(ev: Event, flags: Mask): Event {
    ev.(flags := ev.flags - flags)
  }

  function WaitEnterSpec(ev: Event, s: Sched, w: Waiter, timeout: Option<nat>): Outcome<(Event, Sched, Option<Mask>)>
    requires Shape(s) && |ev.params| == MAX_THREADS
  {
    if ConditionMet(ev.flags, w) then Done((ev.(flags := Cleared(ev.flags, w)), s, Some(ev.flags * w.flags)))
    else if s.current >= MAX_THREADS then Panic
    else
      match BlockCurrent(s, timeout)
      case Panic => Panic
      case Done(s') =>
        var id := s.current;
        Done((ev.(waiters := ev.waiters + {id}, params := ev.params[id := Some(w)]), s', None))
  }

  /** Back on the processor: `None` is the timeout error. */
  function WaitLeaveSpec(ev: Event, error: int, id: nat, w: Waiter): (Event, Option<Mask>)
    requires id < |ev.params|
  {
    var params := ev.params[id := None];
    if error != IPC_OK then (ev.(waiters := ev.waiters - {id}, params := params), None)
    else (ev.(flags := Cleared(ev.flags, w), params := params), Some(ev.flags * w.flags))
  }

  class EventFlags {
    var flags: Mask
    var waiters: Mask
    const params: array<Option<Waiter>>

    ghost function State(): Event
      reads this, params
    {
      Event(flags, waiters, params[..])
    }

    ghost predicate Valid()
      reads this
    {
      params.Length == MAX_THREADS
    }

    constructor ()
      ensures Valid() && fresh(params)
      ensures State() == Event({}, {}, seq(MAX_THREADS, _ => None))
    {
      flags, waiters := {}, {};
      params := new Option<Waiter>[MAX_THREADS](_ => None);
      new;
      assert params[..] == seq(MAX_THREADS, _ => None);
    }

    method CheckWaiters(sched: Scheduler.Scheduler)
      requires Valid() && sched.Valid()
      modifies this, sched`ready, sched.threads
      ensures (State(), sched.State()) == CheckWaitersSpec(old(State()), old(sched.State()), old(waiters))
    {
      var mask: Mask := waiters;
      while mask != {}
        invariant sched.Valid()
        invariant CheckWaitersSpec(old(State()), old(sched.State()), old(waiters)) == CheckWaitersSpec(State(), sched.State(), mask)
        decreases |mask|
      {
        var id := Lowest(mask);
        mask := mask - {id};
        if params[id].Some? {
          var w := params[id].value;
          if ConditionMet(flags, w) {
            if w.clearOnExit {
              flags := flags - w.flags;
            }
            waiters := waiters - {id};
            sched.Unblock(id);
          }
        }
      }
    }

    method Set(sched: Scheduler.Scheduler, bits: Mask)
      requires Valid() && sched.Valid()
      modifies this, sched`ready, sched.threads
      ensures (State(), sched.State()) == SetSpec(old(State()), old(sched.State()), bits)
    {
      flags := flags + bits;
      CheckWaiters(sched);
    }

    method Clear(bits: Mask)
      modifies this
      ensures State() == ClearSpec(old(State()), bits)
    {
      flags := flags - bits;
    }

    method WaitEnter(sched: Scheduler.Scheduler, w: Waiter, timeout: Option<nat>) returns (ok: bool, satisfied: Option<Mask>)
      requires Valid() && sched.Valid() && params as object != sched.threads && params as object != sched.cursor
      modifies this, params, sched, sched.threads, sched.cursor
      ensures var r := WaitEnterSpec(old(State()), old(sched.State()), w, timeout);
              ok == r.Done? && (ok ==> (State(), sched.State(), satisfied) == r.value)
    {
      if ConditionMet(flags, w) {
        satisfied := Some(flags * w.flags);
        if w.clearOnExit {
          flags := flags - w.flags;
        }
        return true, satisfied;
      }
      var id := sched.current;
      if id >= MAX_THREADS {
        return false, None;
      }
      waiters := waiters + {id};
      params[id] := Some(w);
      assert sched.State() == old(sched.State());
      ok := sched.BlockCurrent(timeout);
      satisfied := None;
    }

    method WaitLeave(sched: Scheduler.Scheduler, id: nat, w: Waiter) returns (satisfied: Option<Mask>)
      requires Valid() && sched.Valid() && Occupied(sched.State().threads, sched.current) && id < MAX_THREADS
      modifies this, params
      ensures (State(), satisfied) == WaitLeaveSpec(old(State()), old(IpcError(sched.State())), id, w)
    {
      var error := sched.threads[sched.current].value.ipcError;
      if error != IPC_OK {
        waiters := waiters - {id};
        params[id] := None;
        return None;
      }
      satisfied := Some(flags * w.flags);
      if w.clearOnExit {
        flags := flags - w.flags;
      }
      params[id] := None;
    }
  }

  // ---- What `check_waiters` computes ----

  type Params = seq<Option<Waiter>>

  /** The waiters the pass picks. */
  function Chosen(flags: Mask, params: Params, mask: Mask): (chosen: Mask)
    requires |params| == MAX_THREADS
    ensures chosen <= mask
    decreases |mask|
  {
    if mask == {} then {}
    else
      var id := Lowest(mask);
      if params[id].Some? && ConditionMet(flags, params[id].value) then
        {id} + Chosen(Cleared(flags, params[id].value), params, mask - {id})
      else Chosen(flags, params, mask - {id})
  }

  /** The flags that the chosen waiters below `id` clear on their way. */
  ghost function ClearedBefore(params: Params, chosen: Mask, id: nat): set<nat>
    requires |params| == MAX_THREADS
  {
    set j, f | j in chosen && j < id && params[j].Some? && params[j].value.clearOnExit && f in params[j].value.flags :: f
  }

  function UnblockAll(s: Sched, ids: Mask): (r: Sched)
    requires Shape(s)
    ensures Shape(r)
    decreases |ids|
  {
    if ids == {} then s else UnblockAll(Unblock(s, Lowest(ids)), ids - {Lowest(ids)})
  }

  /** The pass in closed form: exactly the chosen waiters are unregistered and unblocked,
      and the flags lose exactly what the chosen clear-on-exit waiters asked for. */
  lemma CheckWaitersIsChosen(ev: Event, s: Sched, mask: Mask)
    requires Shape(s) && |ev.params| == MAX_THREADS
    ensures var chosen := Chosen(ev.flags, ev.params, mask);
            CheckWaitersSpec(ev, s, mask) ==
            (ev.(flags := ev.flags - ClearedBefore(ev.params, chosen, MAX_THREADS), waiters := ev.waiters - chosen),
             UnblockAll(s, chosen))
  {
    hide CheckWaitersSpec, Chosen, ClearedBefore, UnblockAll, Shape;
    PassOnFlags(ev, s, mask);
    PassOnThreads(ev, s, mask);
  }

  lemma {:induction false} PassOnFlags(ev: Event, s: Sched, mask: Mask)
    requires Shape(s) && |ev.params| == MAX_THREADS
    ensures var chosen := Chosen(ev.flags, ev.params, mask);
            CheckWaitersSpec(ev, s, mask).0 ==
            ev.(flags := ev.flags - ClearedBefore(ev.params, chosen, MAX_THREADS), waiters := ev.waiters - chosen)
    decreases |mask|
  {
    hide Unblock, ClearedBefore, ConditionMet, Cleared, Shape;
    if mask == {} {
      NothingCleared(ev);
    } else {
      var id := Lowest(mask);
      var rest := mask - {id};
      if ev.params[id].Some? && ConditionMet(ev.flags, ev.params[id].value) {
        var ev1 := ev.(flags := Cleared(ev.flags, ev.params[id].value), waiters := ev.waiters - {id});
        var chosen := Chosen(ev1.flags, ev.params, rest);
        PassOnFlags(ev1, Unblock(s, id), rest);
        assert ev.waiters - {id} - chosen == ev.waiters - ({id} + chosen);
        ClearedSplits(ev.flags, ev.params, id, chosen);
      } else {
        PassOnFlags(ev, s, rest);
      }
    }
  }

  lemma UnblockNone(s: Sched)
    requires Shape(s)
    ensures UnblockAll(s, {}) == s
  {
  }

  lemma UnblockFirst(s: Sched, id: nat, rest: Mask)
    requires Shape(s) && id < MAX_THREADS && forall j | j in rest :: id < j
    ensures UnblockAll(s, {id} + rest) == UnblockAll(Unblock(s, id), rest)
  {
  }

  lemma {:induction false} PassOnThreads(ev: Event, s: Sched, mask: Mask)
    requires Shape(s) && |ev.params| == MAX_THREADS
    ensures CheckWaitersSpec(ev, s, mask).1 == UnblockAll(s, Chosen(ev.flags, ev.params, mask))
    decreases |mask|
  {
    hide Unblock, UnblockAll, ConditionMet, Cleared, Shape, LowestFrom, Lowest;
    if mask == {} {
      UnblockNone(s);
    } else {
      var id := Lowest(mask);
      var rest := mask - {id};
      if ev.params[id].Some? && ConditionMet(ev.flags, ev.params[id].value) {
        var ev1 := ev.(flags := Cleared(ev.flags, ev.params[id].value), waiters := ev.waiters - {id});
        PassOnThreads(ev1, Unblock(s, id), rest);
        UnblockFirst(s, id, Chosen(ev1.flags, ev.params, rest));
      } else {
        PassOnThreads(ev, s, rest);
      }
    }
  }

  lemma NothingCleared(ev: Event)
    requires |ev.params| == MAX_THREADS
    ensures ev.(flags := ev.flags - ClearedBefore(ev.params, {}, MAX_THREADS), waiters := ev.waiters - {}) == ev
  {
  }

  lemma ClearedSplits(flags: Mask, params: Params, id: nat, chosen: Mask)
    requires |params| == MAX_THREADS && id < MAX_THREADS && params[id].Some?
    ensures Cleared(flags, params[id].value) - ClearedBefore(params, chosen, MAX_THREADS)
         == flags - ClearedBefore(params, {id} + chosen, MAX_THREADS)
  {
  }

  /** Who is chosen, without running the fold: a registered waiter whose condition holds of
      the flags left over by the chosen clear-on-exit waiters with smaller ids. */
  lemma {:induction false} ChosenIff(flags: Mask, params: Params, mask: Mask, i: nat)
    requires |params| == MAX_THREADS && i < MAX_THREADS
    ensures var chosen := Chosen(flags, params, mask);
            i in chosen <==>
              && i in mask && params[i].Some?
              && ConditionMet(flags - ClearedBefore(params, chosen, i), params[i].value)
    decreases |mask|
  {
    if mask != {} {
      var id := Lowest(mask);
      var rest := mask - {id};
      if params[id].Some? && ConditionMet(flags, params[id].value) {
        var flags1 := Cleared(flags, params[id].value);
        var tail := Chosen(flags1, params, rest);
        ChosenIff(flags1, params, rest, i);
        if i == id {
          assert ClearedBefore(params, {id} + tail, i) == {};
          assert flags - {} == flags;
        } else if i in mask {
          ClearedSplitsBefore(flags, params, id, tail, i);
        }
      } else {
        ChosenIff(flags, params, rest, i);
        if i == id {
          assert ClearedBefore(params, Chosen(flags, params, rest), i) == {};
          assert flags - {} == flags;
        }
      }
    }
  }

  lemma ClearedSplitsBefore(flags: Mask, params: Params, id: nat, chosen: Mask, i: nat)
    requires |params| == MAX_THREADS && id < i < MAX_THREADS && params[id].Some?
    ensures Cleared(flags, params[id].value) - ClearedBefore(params, chosen, i)
         == flags - ClearedBefore(params, {id} + chosen, i)
  {
  }

  /** What the two modes ask for, flag by flag: OR is met by any of the flags, AND by all. */
  lemma MetIff(flags: Mask, w: Waiter)
    ensures w.mode == Or ==> (ConditionMet(flags, w) <==> exists f | f in w.flags :: f in flags)
    ensures w.mode == And ==> (ConditionMet(flags, w) <==> forall f | f in w.flags :: f in flags)
  {
    match w.mode
    case Or =>
      if f :| f in w.flags && f in flags {
        assert f in flags * w.flags;
      }
    case And =>
      if forall f | f in w.flags :: f in flags {
        assert flags * w.flags == w.flags;
      }
      assert flags * w.flags == w.flags ==> forall f | f in w.flags :: f in flags * w.flags;
  }

  /** Fewer flags never meet more conditions (an AND wait for nothing is always met). */
  lemma MetIsMonotone(fewer: Mask, more: Mask, w: Waiter)
    requires fewer <= more && ConditionMet(fewer, w)
    ensures ConditionMet(more, w)
  {
  }

  /** A registered thread that was not chosen is still unsatisfied when the pass is over. */
  lemma NotChosenIsUnmet(flags: Mask, params: Params, mask: Mask, i: nat)
    requires |params| == MAX_THREADS && i in mask && params[i].Some?
    requires i !in Chosen(flags, params, mask)
    ensures !ConditionMet(flags - ClearedBefore(params, Chosen(flags, params, mask), MAX_THREADS), params[i].value)
  {
  }

  // ---- An event object in a running system ----

  /** `calls[i]` holds the arguments of the wait thread `i` is in. */
  datatype System = System(k: Kernel, flags: Mask, params: Params, calls: seq<Waiter>)

  datatype Action =
    | Set(flags: Mask)
    | Clear(flags: Mask)
    | WaitEnter(w: Waiter, timeout: Option<nat>)
    | WaitLeave
    | Other(step: KStep)

  function EventOf(sys: System, o: ObjectId): Event {
    Event(sys.flags, Waiters(sys.k, o), sys.params)
  }

  ghost predicate SShape(sys: System) {
    KShape(sys.k) && |sys.params| == MAX_THREADS && |sys.calls| == MAX_THREADS
  }

  /** `set` and `clear` come from threads and interrupts alike. */
  ghost predicate Allowed(sys: System, act: Action, idle: nat, o: ObjectId)
    requires KShape(sys.k)
  {
    match act
    case Set(_) => true
    case Clear(_) => true
    case WaitEnter(_, _) => CanCall(sys.k, idle)
    case WaitLeave => CanLeave(sys.k, o)
    case Other(step) => KLegal(sys.k, step, idle) && Elsewhere(sys.k, step, o)
  }

  function WithEvent(sys: System, k: Kernel, ev: Event): System {
    sys.(k := k, flags := ev.flags, params := ev.params)
  }

  ghost function Act(sys: System, act: Action, o: ObjectId): Outcome<System>
    requires SShape(sys)
  {
    var k, ev, id := sys.k, EventOf(sys, o), sys.k.sched.current;
    match act
    case Set(flags) =>
      var (ev', s') := SetSpec(ev, k.sched, flags);
      Done(WithEvent(sys, k.(sched := s', waiters := k.waiters[o := ev'.waiters]), ev'))
    case Clear(flags) => Done(WithEvent(sys, k, ClearSpec(ev, flags)))
    case WaitEnter(w, timeout) =>
      (match WaitEnterSpec(ev, k.sched, w, timeout)
       case Panic => Panic
       case Done((ev', s', Some(_))) => Done(WithEvent(sys, k, ev'))
       case Done((ev', s', None)) =>
         Done(WithEvent(sys, Kernel(s', k.pc[id := Some(o)], k.waiters[o := ev'.waiters]), ev')
              .(calls := sys.calls[id := w])))
    case WaitLeave =>
      if !Occupied(k.sched.threads, id) then Panic
      else
        var (ev', _) := WaitLeaveSpec(ev, IpcError(k.sched), id, sys.calls[id]);
        Done(WithEvent(sys, k.(pc := k.pc[id := None], waiters := k.waiters[o := ev'.waiters]), ev'))
    case Other(step) =>
      (match KApply(k, step)
       case Panic => Panic
       case Done(k') => Done(sys.(k := k')))
  }

  /** No registered thread has its condition met, and each thread inside a wait still has
      the parameters it called with. */
  ghost predicate EventInv(sys: System, idle: nat, o: ObjectId) {
    && SShape(sys)
    && KInv(sys.k, idle)
    && o in sys.k.waiters
    && (forall i | i in Waiters(sys.k, o) :: !ConditionMet(sys.flags, sys.calls[i]))
    && (forall i | 0 <= i < MAX_THREADS && PhaseAt(sys.k, o, i) != Out :: sys.params[i] == Some(sys.calls[i]))
  }

  /** Waking a set of waiters, one kernel step each. */
  ghost function WakeAll(k: Kernel, o: ObjectId, ids: Mask): (r: Kernel)
    requires KShape(k)
    ensures KShape(r)
    decreases |ids|
  {
    if ids == {} then k
    else
      var id := Lowest(ids);
      WakeAll(k.(sched := Unblock(k.sched, id), waiters := k.waiters[o := Waiters(k, o) - {id}]), o, ids - {id})
  }

  lemma {:induction false} WakeAllIsUnblockAll(k: Kernel, o: ObjectId, ids: Mask)
    requires KShape(k) && o in k.waiters
    ensures WakeAll(k, o, ids) == k.(sched := UnblockAll(k.sched, ids), waiters := k.waiters[o := Waiters(k, o) - ids])
    decreases |ids|
  {
    hide Unblock, Shape, LowestFrom, Lowest;
    if ids == {} {
      assert Waiters(k, o) - {} == Waiters(k, o);
      assert k.waiters[o := Waiters(k, o)] == k.waiters;
    } else {
      var id := Lowest(ids);
      var k1 := k.(sched := Unblock(k.sched, id), waiters := k.waiters[o := Waiters(k, o) - {id}]);
      WakeAllIsUnblockAll(k1, o, ids - {id});
      assert Waiters(k, o) - {id} - (ids - {id}) == Waiters(k, o) - ids;
    }
  }

  /** Waking registered waiters keeps the kernel's invariant; those that still slept are
      granted, the rest of the system is untouched. */
  lemma {:induction false} WakeAllKeepsKInv(k: Kernel, idle: nat, o: ObjectId, ids: Mask)
    requires KInv(k, idle) && ids <= Waiters(k, o)
    ensures KInv(WakeAll(k, o, ids), idle)
    ensures forall i | 0 <= i < MAX_THREADS ::
              PhaseAt(WakeAll(k, o, ids), o, i) ==
              if i in ids && PhaseAt(k, o, i).Waiting? then Granted else PhaseAt(k, o, i)
    decreases |ids|
  {
    hide Unblock, Shape, LowestFrom, Lowest, Good, Inv, MaskOk, WaitsOk, PhaseAt;
    if ids != {} {
      var id := Lowest(ids);
      var k1 := k.(sched := Unblock(k.sched, id), waiters := k.waiters[o := Waiters(k, o) - {id}]);
      WakeKeepsKInv(k, idle, o, id);
      WakeAllKeepsKInv(k1, idle, o, ids - {id});
    }
  }

  lemma WakeKeepsKInv(k: Kernel, idle: nat, o: ObjectId, id: nat)
    requires KInv(k, idle) && id in Waiters(k, o)
    ensures var k1 := k.(sched := Unblock(k.sched, id), waiters := k.waiters[o := Waiters(k, o) - {id}]);
            && KInv(k1, idle)
            && forall i | 0 <= i < MAX_THREADS ::
                 PhaseAt(k1, o, i) == if i == id && PhaseAt(k, o, i).Waiting? then Granted else PhaseAt(k, o, i)
  {
    hide Unblock, Shape, LowestFrom, Lowest, Good, Inv, PhaseAt, MaskOk, WaitsOk;
    StepKeepsKInv(k, Wake(o, id), idle);
    forall i | 0 <= i < MAX_THREADS
      ensures PhaseAt(KApply(k, Wake(o, id)).value, o, i)
           == if i == id && PhaseAt(k, o, i).Waiting? then Granted else PhaseAt(k, o, i)
    {
      assert SlotStep(k, Wake(o, id), KApply(k, Wake(o, id)).value, i);
    }
  }

  ghost function ChosenNow(sys: System, o: ObjectId, flags: Mask): Mask
    requires SShape(sys)
  {
    Chosen(sys.flags + flags, sys.params, Waiters(sys.k, o))
  }

  /** `set` in a running system: exactly the chosen waiters leave the mask, those of them
      that still slept are granted, and nobody left behind has its condition met. */
  lemma SetWakesChosen(sys: System, idle: nat, o: ObjectId, flags: Mask)
    requires EventInv(sys, idle, o)
    ensures Act(sys, Set(flags), o).Done? && SShape(Act(sys, Set(flags), o).value)
    ensures var sys', chosen := Act(sys, Set(flags), o).value, ChosenNow(sys, o, flags);
            && sys'.k == WakeAll(sys.k, o, chosen) && KInv(sys'.k, idle)
            && Waiters(sys'.k, o) == Waiters(sys.k, o) - chosen
            && sys'.flags == sys.flags + flags - ClearedBefore(sys.params, chosen, MAX_THREADS)
            && sys'.params == sys.params && sys'.calls == sys.calls
            && forall i | 0 <= i < MAX_THREADS ::
                 PhaseAt(sys'.k, o, i) == if i in chosen && PhaseAt(sys.k, o, i).Waiting? then Granted else PhaseAt(sys.k, o, i)
  {
    hide KInv, CheckWaitersSpec, Chosen, ClearedBefore, UnblockAll, WakeAll, Shape;
    var chosen := ChosenNow(sys, o, flags);
    CheckWaitersIsChosen(EventOf(sys, o).(flags := sys.flags + flags), sys.k.sched, Waiters(sys.k, o));
    WakeAllIsUnblockAll(sys.k, o, chosen);
    WakeAllKeepsKInv(sys.k, idle, o, chosen);
  }

  lemma SetKeepsEventInv(sys: System, idle: nat, o: ObjectId, flags: Mask)
    requires EventInv(sys, idle, o)
    ensures Act(sys, Set(flags), o).Done? && EventInv(Act(sys, Set(flags), o).value, idle, o)
  {
    hide Act, Chosen, ClearedBefore, WakeAll, Good, Inv;
    SetWakesChosen(sys, idle, o, flags);
    var sys' := Act(sys, Set(flags), o).value;
    WakeAllIsUnblockAll(sys.k, o, ChosenNow(sys, o, flags));
    assert MaskOk(sys.k, o);
    forall i | i in Waiters(sys'.k, o)
      ensures !ConditionMet(sys'.flags, sys'.calls[i])
    {
      assert PhaseAt(sys.k, o, i) != Out;
      NotChosenIsUnmet(sys.flags + flags, sys.params, Waiters(sys.k, o), i);
    }
  }

  function KernelStep(sys: System, act: Action, o: ObjectId): Option<KStep>
    requires !act.Set?
  {
    match act
    case Clear(_) => None
    case WaitEnter(w, timeout) => if ConditionMet(sys.flags, w) then None else Some(Enter(o, timeout))
    case WaitLeave => Some(Leave)
    case Other(step) => Some(step)
  }

  /** Seen from the kernel, the other operations follow the wait protocol. */
  lemma ActRefinesKernel(sys: System, act: Action, idle: nat, o: ObjectId)
    requires SShape(sys) && KInv(sys.k, idle) && o in sys.k.waiters && Allowed(sys, act, idle, o) && !act.Set?
    ensures Act(sys, act, o).Done? && SShape(Act(sys, act, o).value)
    ensures match KernelStep(sys, act, o)
            case None => Act(sys, act, o).value.k == sys.k
            case Some(step) =>
              && KLegal(sys.k, step, idle)
              && KApply(sys.k, step).Done?
              && Act(sys, act, o).value.k == KApply(sys.k, step).value
  {
    hide Good, Inv, BlockCurrent, Unblock, Apply, CheckWaitersSpec, ConditionMet;
    var step := KernelStep(sys, act, o);
    if step.Some? {
      StepKeepsKInv(sys.k, step.value, idle);
    }
    if act.WaitLeave? {
      CurrentOccupied(sys.k.sched, idle);
      assert sys.k.waiters[o := Waiters(sys.k, o)] == sys.k.waiters;
    }
  }

  lemma ActParams(sys: System, act: Action, idle: nat, o: ObjectId)
    requires EventInv(sys, idle, o) && Allowed(sys, act, idle, o) && !act.Set?
    ensures Act(sys, act, o).Done? && SShape(Act(sys, act, o).value)
    ensures forall i | 0 <= i < MAX_THREADS && PhaseAt(Act(sys, act, o).value.k, o, i) != Out ::
              Act(sys, act, o).value.params[i] == Some(Act(sys, act, o).value.calls[i])
  {
    hide Good, Inv, BlockCurrent, Unblock, KApply, CheckWaitersSpec, ConditionMet;
    ActRefinesKernel(sys, act, idle, o);
    var sys' := Act(sys, act, o).value;
    var step := KernelStep(sys, act, o);
    if step.Some? {
      StepKeepsKInv(sys.k, step.value, idle);
      forall i | 0 <= i < MAX_THREADS && PhaseAt(sys'.k, o, i) != Out
        ensures sys'.params[i] == Some(sys'.calls[i])
      {
        assert SlotStep(sys.k, step.value, sys'.k, i);
      }
    }
  }

  lemma ActUnmet(sys: System, act: Action, idle: nat, o: ObjectId)
    requires EventInv(sys, idle, o) && Allowed(sys, act, idle, o) && !act.Set?
    ensures Act(sys, act, o).Done? && SShape(Act(sys, act, o).value)
    ensures o in Act(sys, act, o).value.k.waiters
    ensures forall i | i in Waiters(Act(sys, act, o).value.k, o) ::
              !ConditionMet(Act(sys, act, o).value.flags, Act(sys, act, o).value.calls[i])
  {
    hide Good, Inv, BlockCurrent, Unblock, KApply, CheckWaitersSpec, ConditionMet;
    ActRefinesKernel(sys, act, idle, o);
    var sys' := Act(sys, act, o).value;
    var step := KernelStep(sys, act, o);
    if step.Some? {
      StepMask(sys.k, step.value, o);
    }
    if act.Other? {
      ElsewhereFrame(sys.k, act.step, idle, o);
    }
    assert MaskOk(sys.k, o);
    forall i | i in Waiters(sys'.k, o)
      ensures !ConditionMet(sys'.flags, sys'.calls[i])
    {
      if i in Waiters(sys.k, o) && ConditionMet(sys'.flags, sys.calls[i]) {
        MetIsMonotone(sys'.flags, sys.flags, sys.calls[i]);
      }
    }
  }

  /** After every `set`, `clear`, registration and wait exit, and after anything else that
      happens in the system, no registered thread has its condition met. */
  lemma ActKeepsEventInv(sys: System, act: Action, idle: nat, o: ObjectId)
    requires EventInv(sys, idle, o) && Allowed(sys, act, idle, o)
    ensures Act(sys, act, o).Done? && EventInv(Act(sys, act, o).value, idle, o)
  {
    hide Good, Inv, KApply, Act;
    if act.Set? {
      SetKeepsEventInv(sys, idle, o, act.flags);
    } else {
      ActRefinesKernel(sys, act, idle, o);
      ActParams(sys, act, idle, o);
      ActUnmet(sys, act, idle, o);
      var step := KernelStep(sys, act, o);
      if step.Some? {
        StepKeepsKInv(sys.k, step.value, idle);
      }
    }
  }

  ghost predicate Initial(sys: System, idle: nat, o: ObjectId) {
    SShape(sys) && KInv(sys.k, idle) && FreshObject(sys.k, o)
  }

  ghost predicate EventRun(states: seq<System>, acts: seq<Action>, idle: nat, o: ObjectId) {
    && |states| == |acts| + 1
    && forall n | 0 <= n < |acts| ::
         SShape(states[n]) && Allowed(states[n], acts[n], idle, o) && Act(states[n], acts[n], o) == Done(states[n + 1])
  }

  lemma {:induction false} RunSafety(states: seq<System>, acts: seq<Action>, idle: nat, o: ObjectId, n: nat)
    requires EventRun(states, acts, idle, o) && n <= |acts| && Initial(states[0], idle, o)
    ensures EventInv(states[n], idle, o)
  {
    hide Good, Inv, KApply, Act;
    if n > 0 {
      RunSafety(states, acts, idle, o, n - 1);
      ActKeepsEventInv(states[n - 1], acts[n - 1], idle, o);
    }
  }

  /** Who sleeps, flag by flag and in every run: a registered OR waiter has none of its flags
      set, a registered AND waiter lacks at least one of its own. */
  lemma SleepersLackFlags(states: seq<System>, acts: seq<Action>, idle: nat, o: ObjectId, n: nat, i: nat)
    requires EventRun(states, acts, idle, o) && n <= |acts| && Initial(states[0], idle, o)
    requires i in Waiters(states[n].k, o)
    ensures SShape(states[n])
    ensures states[n].calls[i].mode == Or ==> forall f | f in states[n].calls[i].flags :: f !in states[n].flags
    ensures states[n].calls[i].mode == And ==> exists f | f in states[n].calls[i].flags :: f !in states[n].flags
  {
    hide Act, Allowed, ConditionMet, KInv;
    RunSafety(states, acts, idle, o, n);
    MetIff(states[n].flags, states[n].calls[i]);
  }

  /** Whom `set` wakes, flag by flag: at its turn, with what the waiters served before it left,
      an OR waiter if and only if some flag it asked for is set, an AND waiter if and only if
      every one is. */
  lemma SetChoosesIff(sys: System, idle: nat, o: ObjectId, flags: Mask, i: nat)
    requires EventInv(sys, idle, o) && i in Waiters(sys.k, o)
    ensures i < MAX_THREADS
    ensures var left := sys.flags + flags - ClearedBefore(sys.params, ChosenNow(sys, o, flags), i);
            && (sys.calls[i].mode == Or ==> (i in ChosenNow(sys, o, flags) <==> exists f | f in sys.calls[i].flags :: f in left))
            && (sys.calls[i].mode == And ==> (i in ChosenNow(sys, o, flags) <==> forall f | f in sys.calls[i].flags :: f in left))
  {
    hide Good, Inv, Chosen, ClearedBefore, ConditionMet;
    assert MaskOk(sys.k, o);
    ChosenIff(sys.flags + flags, sys.params, Waiters(sys.k, o), i);
    MetIff(sys.flags + flags - ClearedBefore(sys.params, ChosenNow(sys, o, flags), i), sys.calls[i]);
  }

  /** `wait` returns at once if and only if its condition holds, flag by flag; then with exactly
      the flags it asked for that are set, which it takes away if it clears on exit. Otherwise
      it is registered with its arguments. */
  lemma SatisfiedAtOnceIff(ev: Event, s: Sched, w: Waiter, timeout: Option<nat>)
    requires Inv(s) && s.started && |ev.params| == MAX_THREADS && WaitEnterSpec(ev, s, w, timeout).Done?
    ensures s.current < MAX_THREADS
    ensures var (ev', s', answer) := WaitEnterSpec(ev, s, w, timeout).value;
            && |ev'.params| == MAX_THREADS
            && (w.mode == Or ==> (answer.Some? <==> exists f | f in w.flags :: f in ev.flags))
            && (w.mode == And ==> (answer.Some? <==> forall f | f in w.flags :: f in ev.flags))
            && (answer.Some? ==>
                  && (forall f :: f in answer.value <==> f in w.flags && f in ev.flags)
                  && (forall f :: f in ev'.flags <==> f in ev.flags && !(w.clearOnExit && f in w.flags))
                  && s' == s && ev'.waiters == ev.waiters)
            && (answer.None? ==>
                  ev'.flags == ev.flags && ev'.waiters == ev.waiters + {s.current} && ev'.params[s.current] == Some(w))
  {
    hide ConditionMet, BlockCurrent;
    MetIff(ev.flags, w);
  }

  // ---- What a woken wait returns ----

  /** The flags that satisfied waiter `i` when its turn in the pass came: what `wait` says
      it returns. */
  ghost function Cause(sys: System, o: ObjectId, flags: Mask, i: nat): set<nat>
    requires SShape(sys) && i < MAX_THREADS
  {
    (sys.flags + flags - ClearedBefore(sys.params, ChosenNow(sys, o, flags), i)) * sys.calls[i].flags
  }

  /** Waiter `j`, if the pass chooses it, clears flag `f`. */
  ghost predicate ServedClears(sys: System, o: ObjectId, flags: Mask, j: nat, f: nat)
    requires SShape(sys) && j < MAX_THREADS
  {
    j in ChosenNow(sys, o, flags) && sys.calls[j].clearOnExit && f in sys.calls[j].flags
  }

  /** Of the flags waiter `i` asked for, those that caused its wake-up are still set after
      the pass, unless a waiter served at its turn or later clears them. */
  lemma CauseAfterSet(sys: System, idle: nat, o: ObjectId, flags: Mask, i: nat, f: nat)
    requires EventInv(sys, idle, o) && i in ChosenNow(sys, o, flags) && f in sys.calls[i].flags
    ensures Act(sys, Set(flags), o).Done? && SShape(Act(sys, Set(flags), o).value)
    ensures f in Act(sys, Set(flags), o).value.flags <==>
            f in Cause(sys, o, flags, i) && forall j | i <= j < MAX_THREADS :: !ServedClears(sys, o, flags, j, f)
  {
    hide Act, WakeAll, Good, Inv, ChosenNow;
    SetWakesChosen(sys, idle, o, flags);
    var chosen := ChosenNow(sys, o, flags);
    forall j | j in chosen
      ensures sys.params[j] == Some(sys.calls[j])
    {
      ChosenIsWaiting(sys, idle, o, flags, j);
    }
    if f in ClearedBefore(sys.params, chosen, MAX_THREADS) && f !in ClearedBefore(sys.params, chosen, i) {
      var j :| j in chosen && sys.calls[j].clearOnExit && f in sys.calls[j].flags;
      assert ServedClears(sys, o, flags, j, f) && i <= j;
    }
    if j :| i <= j < MAX_THREADS && ServedClears(sys, o, flags, j, f) {
      assert f in ClearedBefore(sys.params, chosen, MAX_THREADS);
    }
    if f in ClearedBefore(sys.params, chosen, i) {
      assert f in ClearedBefore(sys.params, chosen, MAX_THREADS);
    }
  }

  lemma ChosenIsWaiting(sys: System, idle: nat, o: ObjectId, flags: Mask, j: nat)
    requires EventInv(sys, idle, o) && j in ChosenNow(sys, o, flags)
    ensures sys.params[j] == Some(sys.calls[j])
  {
    hide Good, Inv;
    assert MaskOk(sys.k, o);
  }

  /** What an action sets ... */
  function Raised(act: Action): Mask {
    match act
    case Set(flags) => flags
    case _ => {}
  }

  /** ... and what it clears: an exit clears for a wait that was granted, an entry for one
      that is satisfied at once. */
  ghost function Dropped(sys: System, act: Action, o: ObjectId): set<nat>
    requires SShape(sys)
  {
    var id := sys.k.sched.current;
    match act
    case Set(flags) => ClearedBefore(sys.params, ChosenNow(sys, o, flags), MAX_THREADS)
    case Clear(flags) => flags
    case WaitEnter(w, _) => if ConditionMet(sys.flags, w) && w.clearOnExit then w.flags else {}
    case WaitLeave =>
      if Occupied(sys.k.sched.threads, id) && IpcError(sys.k.sched) == IPC_OK && sys.calls[id].clearOnExit
      then sys.calls[id].flags else {}
    case Other(_) => {}
  }

  lemma ActMovesFlags(sys: System, act: Action, idle: nat, o: ObjectId)
    requires EventInv(sys, idle, o) && Allowed(sys, act, idle, o)
    ensures Act(sys, act, o).Done?
    ensures Act(sys, act, o).value.flags == sys.flags + Raised(act) - Dropped(sys, act, o)
  {
    hide Good, Inv, KApply, BlockCurrent, ChosenNow, ClearedBefore, WakeAll, SetSpec;
    if act.Set? {
      SetWakesChosen(sys, idle, o, act.flags);
    } else {
      ActRefinesKernel(sys, act, idle, o);
    }
  }

  ghost predicate SetsAt(states: seq<System>, acts: seq<Action>, o: ObjectId, n: nat, f: nat)
    requires n < |acts| && n < |states| && SShape(states[n])
  {
    f in Raised(acts[n]) && f !in Dropped(states[n], acts[n], o)
  }

  ghost predicate ClearsAt(states: seq<System>, acts: seq<Action>, o: ObjectId, n: nat, f: nat)
    requires n < |acts| && n < |states| && SShape(states[n])
  {
    f in Dropped(states[n], acts[n], o)
  }

  /** Some action from `a` on sets flag `f`, and none between it and state `m` clears it. */
  ghost predicate SetSince(states: seq<System>, acts: seq<Action>, idle: nat, o: ObjectId, a: nat, m: nat, f: nat)
    requires EventRun(states, acts, idle, o) && m <= |acts|
  {
    exists n | a <= n < m :: SetsAt(states, acts, o, n, f) && forall p | n < p < m :: !ClearsAt(states, acts, o, p, f)
  }

  /** Some action from `a` on clears flag `f`, and none between it and state `m` sets it. */
  ghost predicate ClearedSince(states: seq<System>, acts: seq<Action>, idle: nat, o: ObjectId, a: nat, m: nat, f: nat)
    requires EventRun(states, acts, idle, o) && m <= |acts|
  {
    exists n | a <= n < m :: ClearsAt(states, acts, o, n, f) && forall p | n < p < m :: !SetsAt(states, acts, o, p, f)
  }

  lemma SinceStep(states: seq<System>, acts: seq<Action>, idle: nat, o: ObjectId, a: nat, m: nat, f: nat)
    requires EventRun(states, acts, idle, o) && a <= m < |acts|
    ensures SetSince(states, acts, idle, o, a, m + 1, f) <==>
            SetsAt(states, acts, o, m, f) || (SetSince(states, acts, idle, o, a, m, f) && !ClearsAt(states, acts, o, m, f))
    ensures ClearedSince(states, acts, idle, o, a, m + 1, f) <==>
            ClearsAt(states, acts, o, m, f) || (ClearedSince(states, acts, idle, o, a, m, f) && !SetsAt(states, acts, o, m, f))
  {
    hide SetsAt, ClearsAt, Allowed, Act;
  }

  /** A flag at any later state, by the last action that touched it. */
  lemma {:induction false} FlagAt(states: seq<System>, acts: seq<Action>, idle: nat, o: ObjectId, a: nat, m: nat, f: nat)
    requires EventRun(states, acts, idle, o) && a <= m <= |acts| && EventInv(states[a], idle, o)
    ensures EventInv(states[m], idle, o)
    ensures f in states[m].flags <==> if f in states[a].flags then !ClearedSince(states, acts, idle, o, a, m, f)
                                      else SetSince(states, acts, idle, o, a, m, f)
  {
    hide SetSince, ClearedSince, EventInv, Act, Allowed, Dropped, Raised;
    if a == m {
      NothingSince(states, acts, idle, o, a, f);
    } else {
      FlagAt(states, acts, idle, o, a, m - 1, f);
      SinceStep(states, acts, idle, o, a, m - 1, f);
      ActMovesFlags(states[m - 1], acts[m - 1], idle, o);
      ActKeepsEventInv(states[m - 1], acts[m - 1], idle, o);
    }
  }

  lemma NothingSince(states: seq<System>, acts: seq<Action>, idle: nat, o: ObjectId, a: nat, f: nat)
    requires EventRun(states, acts, idle, o) && a <= |acts|
    ensures !SetSince(states, acts, idle, o, a, a, f) && !ClearedSince(states, acts, idle, o, a, a, f)
  {
  }

  // ---- From the wake-up to the return ----

  /** A wait that has its verdict keeps it, and its arguments, until its thread returns. */
  lemma VerdictStays(sys: System, act: Action, idle: nat, o: ObjectId, i: nat)
    requires EventInv(sys, idle, o) && Allowed(sys, act, idle, o) && i < MAX_THREADS
    requires PhaseAt(sys.k, o, i) in {Granted, TimedOut} && !(act.WaitLeave? && sys.k.sched.current == i)
    ensures Act(sys, act, o).Done? && SShape(Act(sys, act, o).value)
    ensures PhaseAt(Act(sys, act, o).value.k, o, i) == PhaseAt(sys.k, o, i)
    ensures Act(sys, act, o).value.calls[i] == sys.calls[i]
  {
    hide Good, Inv, KApply, BlockCurrent, SetSpec, ChosenNow, WakeAll;
    if act.Set? {
      SetWakesChosen(sys, idle, o, act.flags);
    } else {
      ActRefinesKernel(sys, act, idle, o);
      var step := KernelStep(sys, act, o);
      if step.Some? {
        StepKeepsKInv(sys.k, step.value, idle);
        assert SlotStep(sys.k, step.value, KApply(sys.k, step.value).value, i);
      }
    }
  }

  /** The run begins with a `set` that chooses waiter `i`, and at state `m` its thread is
      about to return from the wait, for the first time since. */
  ghost predicate WokenRun(states: seq<System>, acts: seq<Action>, idle: nat, o: ObjectId, flags: Mask, i: nat, m: nat) {
    && EventRun(states, acts, idle, o) && EventInv(states[0], idle, o)
    && 0 < m < |states| && acts[0] == Set(flags) && i in ChosenNow(states[0], o, flags)
    && SShape(states[m]) && CanLeave(states[m].k, o) && states[m].k.sched.current == i
    && forall n | 0 < n < m :: !(acts[n].WaitLeave? && states[n].k.sched.current == i)
  }

  /** What the wait of the current thread returns. */
  ghost function Returned(sys: System, o: ObjectId): Option<Mask>
    requires SShape(sys) && Occupied(sys.k.sched.threads, sys.k.sched.current)
  {
    var id := sys.k.sched.current;
    WaitLeaveSpec(EventOf(sys, o), IpcError(sys.k.sched), id, sys.calls[id]).1
  }

  lemma {:induction false} VerdictUntil(states: seq<System>, acts: seq<Action>, idle: nat, o: ObjectId, flags: Mask, i: nat,
                                        m: nat, n: nat)
    requires WokenRun(states, acts, idle, o, flags, i, m) && 0 < n <= m
    ensures EventInv(states[n], idle, o)
    ensures PhaseAt(states[n].k, o, i) == if PhaseAt(states[0].k, o, i).Waiting? then Granted else TimedOut
    ensures states[n].calls[i] == states[0].calls[i]
  {
    hide EventInv, Act, Allowed, KInv, ChosenNow;
    if n == 1 {
      ActKeepsEventInv(states[0], acts[0], idle, o);
      SetWakesChosen(states[0], idle, o, flags);
      ChosenIsRegistered(states[0], idle, o, flags, i);
    } else {
      VerdictUntil(states, acts, idle, o, flags, i, m, n - 1);
      ActKeepsEventInv(states[n - 1], acts[n - 1], idle, o);
      VerdictStays(states[n - 1], acts[n - 1], idle, o, i);
    }
  }

  lemma ChosenIsRegistered(sys: System, idle: nat, o: ObjectId, flags: Mask, i: nat)
    requires EventInv(sys, idle, o) && i in ChosenNow(sys, o, flags)
    ensures PhaseAt(sys.k, o, i).Waiting? || PhaseAt(sys.k, o, i) == TimedOut
  {
    hide Good, Inv;
    assert MaskOk(sys.k, o);
  }

  /** The wait returns the timeout if it had timed out before the `set` reached it, and
      otherwise the flags it asked for that are set when its thread is back. */
  lemma ReturnedFlags(states: seq<System>, acts: seq<Action>, idle: nat, o: ObjectId, flags: Mask, i: nat, m: nat)
    requires WokenRun(states, acts, idle, o, flags, i, m)
    ensures Occupied(states[m].k.sched.threads, i)
    ensures Returned(states[m], o) == if PhaseAt(states[0].k, o, i).Waiting?
                                      then Some(states[m].flags * states[0].calls[i].flags) else None
  {
    hide Good, Inv, Act, Allowed, ChosenNow, KApply;
    VerdictUntil(states, acts, idle, o, flags, i, m, m);
    LeaverHasVerdict(states[m].k, idle);
  }

  /** Flag `f` was cleared at waiter `i`'s turn in the pass or later, and not set since. */
  ghost predicate Lost(states: seq<System>, acts: seq<Action>, idle: nat, o: ObjectId, flags: Mask, i: nat, m: nat, f: nat)
    requires WokenRun(states, acts, idle, o, flags, i, m)
  {
    || ((exists j | i <= j < MAX_THREADS :: ServedClears(states[0], o, flags, j, f))
        && !SetSince(states, acts, idle, o, 1, m, f))
    || ClearedSince(states, acts, idle, o, 1, m, f)
  }

  /** What a woken wait returns, whatever happens between the wake-up and its return: exactly
      the flags that caused the wake-up, if and only if the wait was still asleep, none of
      these flags is lost, and no other flag it asked for is set in the meantime. */
  lemma WokenWaitReturnsCauseIff(states: seq<System>, acts: seq<Action>, idle: nat, o: ObjectId, flags: Mask, i: nat, m: nat)
    requires WokenRun(states, acts, idle, o, flags, i, m)
    ensures Occupied(states[m].k.sched.threads, i)
    ensures Returned(states[m], o) == Some(Cause(states[0], o, flags, i)) <==>
            && PhaseAt(states[0].k, o, i).Waiting?
            && (forall f | f in Cause(states[0], o, flags, i) :: !Lost(states, acts, idle, o, flags, i, m, f))
            && (forall f | f in states[0].calls[i].flags - Cause(states[0], o, flags, i) ::
                  !SetSince(states, acts, idle, o, 1, m, f))
  {
    hide Act, Allowed, EventInv, ChosenNow, SetSince, ClearedSince, ServedClears, Returned, Lost;
    ReturnedFlags(states, acts, idle, o, flags, i, m);
    var asked, cause := states[0].calls[i].flags, Cause(states[0], o, flags, i);
    forall f | f in asked
      ensures f in states[m].flags <==>
              if f in cause then !Lost(states, acts, idle, o, flags, i, m, f) else SetSince(states, acts, idle, o, 1, m, f)
    {
      AskedFlagAt(states, acts, idle, o, flags, i, m, f);
    }
    assert states[m].flags * asked == cause <==> forall f | f in asked :: f in states[m].flags <==> f in cause;
  }

  lemma AskedFlagAt(states: seq<System>, acts: seq<Action>, idle: nat, o: ObjectId, flags: Mask, i: nat, m: nat, f: nat)
    requires WokenRun(states, acts, idle, o, flags, i, m) && f in states[0].calls[i].flags
    ensures f in states[m].flags <==>
            if f in Cause(states[0], o, flags, i) then !Lost(states, acts, idle, o, flags, i, m, f)
            else SetSince(states, acts, idle, o, 1, m, f)
  {
    hide Act, Allowed, EventInv, ChosenNow, SetSince, ClearedSince, ServedClears, Cause;
    CauseAfterSet(states[0], idle, o, flags, i, f);
    ActKeepsEventInv(states[0], acts[0], idle, o);
    FlagAt(states, acts, idle, o, 1, m, f);
    NotBoth(states, acts, idle, o, 1, m, f);
  }

  /** The last action that touched a flag either set it or cleared it. */
  lemma {:induction false} NotBoth(states: seq<System>, acts: seq<Action>, idle: nat, o: ObjectId, a: nat, m: nat, f: nat)
    requires EventRun(states, acts, idle, o) && a <= m <= |acts|
    ensures !(SetSince(states, acts, idle, o, a, m, f) && ClearedSince(states, acts, idle, o, a, m, f))
  {
    hide Act, Allowed, SetSince, ClearedSince;
    if a == m {
      NothingSince(states, acts, idle, o, a, f);
    } else {
      NotBoth(states, acts, idle, o, a, m - 1, f);
      SinceStep(states, acts, idle, o, a, m - 1, f);
    }
  }

  /** In particular, while no other action touches the flags the wait asked for, it returns
      the cause if and only if no waiter served at its turn or later, itself included, clears
      some of it. */
  lemma UndisturbedWaitReturnsCauseIff(states: seq<System>, acts: seq<Action>, idle: nat, o: ObjectId, flags: Mask, i: nat, m: nat)
    requires WokenRun(states, acts, idle, o, flags, i, m) && PhaseAt(states[0].k, o, i).Waiting?
    requires forall n, f | 0 < n < m && f in states[0].calls[i].flags ::
               !SetsAt(states, acts, o, n, f) && !ClearsAt(states, acts, o, n, f)
    ensures Occupied(states[m].k.sched.threads, i)
    ensures Returned(states[m], o) == Some(Cause(states[0], o, flags, i)) <==>
            forall f, j | f in Cause(states[0], o, flags, i) && i <= j < MAX_THREADS :: !ServedClears(states[0], o, flags, j, f)
  {
    hide Act, Allowed, EventInv, ChosenNow, ServedClears, Returned;
    WokenWaitReturnsCauseIff(states, acts, idle, o, flags, i, m);
  }

  /** A woken clear-on-exit wait has cleared its own flags: it returns those set again since,
      and so nothing if and only if there are none. */
  lemma WokenClearWaitReturnsNothingIff(states: seq<System>, acts: seq<Action>, idle: nat, o: ObjectId, flags: Mask, i: nat, m: nat)
    requires WokenRun(states, acts, idle, o, flags, i, m)
    requires PhaseAt(states[0].k, o, i).Waiting? && states[0].calls[i].clearOnExit
    ensures Occupied(states[m].k.sched.threads, i)
    ensures Returned(states[m], o) == Some({}) <==>
            forall f | f in states[0].calls[i].flags :: !SetSince(states, acts, idle, o, 1, m, f)
  {
    hide Act, Allowed, EventInv, ChosenNow, SetSince, ClearedSince, Returned;
    ReturnedFlags(states, acts, idle, o, flags, i, m);
    var asked := states[0].calls[i].flags;
    forall f | f in asked
      ensures f in states[m].flags <==> SetSince(states, acts, idle, o, 1, m, f)
    {
      CauseAfterSet(states[0], idle, o, flags, i, f);
      assert ServedClears(states[0], o, flags, i, f);
      ActKeepsEventInv(states[0], acts[0], idle, o);
      FlagAt(states, acts, idle, o, 1, m, f);
    }
    if f :| f in asked && f in states[m].flags {
      assert f in states[m].flags * asked;
    } else {
      assert states[m].flags * asked == {};
    }
  }
}
