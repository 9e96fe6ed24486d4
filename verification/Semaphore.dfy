/** Counting semaphores: the object, the two steps of `take`, and exact accounting in
    every run, timeouts included. */
module Semaphore {
  import opened Common
  import opened Masks
  import opened SchedulerSpec
  import opened SchedulerInvariant
  import opened SchedulerRuns
  import opened Kernel
  import Scheduler

  // ---- The object ----

  datatype Sem = Sem(count: int, waiters: Mask)

  function TryTakeSpec(sem: Sem): (Sem, bool) {
    if sem.count > 0 then (sem.(count := sem.count - 1), true) else (sem, false)
  }

  /** First step of `take`: either a unit at once, or registered and blocked. */
  function TakeEnterSpec(sem: Sem, s: Sched, timeout: Option<nat>): Outcome<(Sem, Sched, bool)>
    requires Shape(s)
  {
    if sem.count > 0 then Done((sem.(count := sem.count - 1), s, true))
    else if s.current >= MAX_THREADS then Panic
    else
      match BlockCurrent(s, timeout)
      case Panic => Panic
      case Done(s') => Done((sem.(waiters := sem.waiters + {s.current}), s', false))
  }

  /** Second step of `take`, back on the processor: `Ok` or `Err(Timeout)`. */
  function TakeLeaveSpec(sem: Sem, error: int, id: nat): (Sem, bool) {
    if error != IPC_OK then (sem.(waiters := sem.waiters - {id}), false) else (sem, true)
  }

  function ReleaseSpec(sem: Sem, s: Sched): (Sem, Sched)
    requires Shape(s)
  {
    if sem.waiters != {} then
      var id := Lowest(sem.waiters);
      (sem.(waiters := sem.waiters - {id}), Unblock(s, id))
    else (sem.(count := sem.count + 1), s)
  }

  class Semaphore {
    var count: int
    var waiters: Mask

    ghost function State(): Sem
      reads this
    {
      Sem(count, waiters)
    }

    constructor (initial: int)
      ensures State() == Sem(initial, {})
    {
      count, waiters := initial, {};
    }

    method TryTake() returns (ok: bool)
      modifies this
      ensures (State(), ok) == TryTakeSpec(old(State()))
    {
      ok := count > 0;
      if ok {
        count := count - 1;
      }
    }

    method TakeEnter(sched: Scheduler.Scheduler, timeout: Option<nat>) returns (ok: bool, taken: bool)
      requires sched.Valid()
      modifies this, sched, sched.threads, sched.cursor
      ensures var r := TakeEnterSpec(old(State()), old(sched.State()), timeout);
              ok == r.Done? && (ok ==> (State(), sched.State(), taken) == r.value)
    {
      if count > 0 {
        count := count - 1;
        return true, true;
      }
      if sched.current >= MAX_THREADS {
        return false, false;
      }
      waiters := waiters + {sched.current};
      ok := sched.BlockCurrent(timeout);
      taken := false;
    }

    method TakeLeave(sched: Scheduler.Scheduler, id: nat) returns (ok: bool)
      requires sched.Valid() && Occupied(sched.State().threads, sched.current)
      modifies this
      ensures (State(), ok) == TakeLeaveSpec(old(State()), IpcError(sched.State()), id)
    {
      var error := sched.threads[sched.current].value.ipcError;
      if error != IPC_OK {
        waiters := waiters - {id};
        return false;
      }
      ok := true;
    }

    method Release(sched: Scheduler.Scheduler)
      requires sched.Valid()
      modifies this, sched`ready, sched.threads
      ensures (State(), sched.State()) == ReleaseSpec(old(State()), old(sched.State()))
    {
      if waiters != {} {
        var id := Lowest(waiters);
        waiters := waiters - {id};
        sched.Unblock(id);
      } else {
        count := count + 1;
      }
    }
  }

  // ---- A semaphore in a running system ----

  /** The kernel, the semaphore with identity `o` in it, and a ledger of what happened. */
  datatype System = System(
    k: Kernel,
    count: int,
    taken: nat,       // takes that returned success
    released: nat,    // calls of release
    lost: nat)        // releases that popped a waiter which had already timed out

  datatype Action =
    | TryTake
    | TakeEnter(timeout: Option<nat>)
    | TakeLeave
    | Release
    | Other(step: KStep)

  function SemOf(sys: System, o: ObjectId): Sem {
    Sem(sys.count, Waiters(sys.k, o))
  }

  ghost predicate Allowed(sys: System, act: Action, idle: nat, o: ObjectId)
    requires KShape(sys.k)
  {
    match act
    case TryTake => true
    case TakeEnter(_) => CanCall(sys.k, idle)
    case TakeLeave => CanLeave(sys.k, o)
    case Release => true
    case Other(step) => KLegal(sys.k, step, idle) && Elsewhere(sys.k, step, o)
  }

  /** Each action of the semaphore is its function applied to the shared state. */
  ghost function Act(sys: System, act: Action, o: ObjectId): Outcome<System>
    requires KShape(sys.k)
  {
    var k, sem := sys.k, SemOf(sys, o);
    match act
    case TryTake =>
      var (sem', ok) := TryTakeSpec(sem);
      Done(sys.(count := sem'.count, taken := sys.taken + Bump(ok)))
    case TakeEnter(timeout) =>
      (match TakeEnterSpec(sem, k.sched, timeout)
       case Panic => Panic
       case Done((sem', s', true)) => Done(sys.(count := sem'.count, taken := sys.taken + 1))
       case Done((sem', s', false)) =>
         Done(sys.(k := Kernel(s', k.pc[k.sched.current := Some(o)], k.waiters[o := sem'.waiters]), count := sem'.count)))
    case TakeLeave =>
      var id := k.sched.current;
      if !Occupied(k.sched.threads, id) then Panic
      else
        var (sem', ok) := TakeLeaveSpec(sem, IpcError(k.sched), id);
        Done(sys.(k := k.(pc := k.pc[id := None], waiters := k.waiters[o := sem'.waiters]),
                  count := sem'.count, taken := sys.taken + Bump(ok)))
    case Release =>
      var (sem', s') := ReleaseSpec(sem, k.sched);
      Done(sys.(k := k.(sched := s', waiters := k.waiters[o := sem'.waiters]),
                count := sem'.count,
                released := sys.released + 1,
                lost := sys.lost + Bump(sem.waiters != {} && !PhaseAt(k, o, Lowest(sem.waiters)).Waiting?)))
    case Other(step) =>
      (match KApply(k, step)
       case Panic => Panic
       case Done(k') => Done(sys.(k := k')))
  }

  /** The ledger balances, and nobody is registered while a unit is available. */
  ghost predicate SemInv(sys: System, idle: nat, o: ObjectId, initial: int) {
    && KInv(sys.k, idle)
    && o in sys.k.waiters
    && initial + sys.released == sys.count + sys.taken + |GrantedSet(sys.k, o)| + sys.lost
    && (Waiters(sys.k, o) != {} ==> sys.count <= 0)
  }

  /** The kernel step an action of the semaphore performs, if it touches the kernel. */
  function KernelStep(sys: System, act: Action, o: ObjectId): Option<KStep> {
    match act
    case TryTake => None
    case TakeEnter(timeout) => if sys.count > 0 then None else Some(Enter(o, timeout))
    case TakeLeave => Some(Leave)
    case Release => if Waiters(sys.k, o) == {} then None else Some(Wake(o, Lowest(Waiters(sys.k, o))))
    case Other(step) => Some(step)
  }

  /** Seen from the kernel, the semaphore follows the wait protocol. */
  lemma ActRefinesKernel(sys: System, act: Action, idle: nat, o: ObjectId)
    requires KInv(sys.k, idle) && o in sys.k.waiters && Allowed(sys, act, idle, o)
    ensures match KernelStep(sys, act, o)
            case None => Act(sys, act, o).Done? && Act(sys, act, o).value.k == sys.k
            case Some(step) =>
              && KLegal(sys.k, step, idle)
              && KApply(sys.k, step).Done? && Act(sys, act, o).Done?
              && Act(sys, act, o).value.k == KApply(sys.k, step).value
  {
    hide Good, Inv, BlockCurrent, Unblock, Apply;
    var step := KernelStep(sys, act, o);
    if step.Some? {
      StepKeepsKInv(sys.k, step.value, idle);
    }
    if act.TakeLeave? {
      CurrentOccupied(sys.k.sched, idle);
    }
    if act.TakeLeave? || act.Release? {
      assert sys.k.waiters[o := Waiters(sys.k, o)] == sys.k.waiters;
    }
  }

  /** Every action of the semaphore, and anything else that happens in the system, keeps
      the ledger balanced to the unit. */
  lemma ActKeepsSemInv(sys: System, act: Action, idle: nat, o: ObjectId, initial: int)
    requires SemInv(sys, idle, o, initial) && Allowed(sys, act, idle, o)
    ensures Act(sys, act, o).Done? && SemInv(Act(sys, act, o).value, idle, o, initial)
  {
    hide Good, Inv, KApply, Act, GrantedSet, Waiters, MaskOk;
    ActRefinesKernel(sys, act, idle, o);
    var step := KernelStep(sys, act, o);
    if step.Some? {
      StepKeepsKInv(sys.k, step.value, idle);
      LedgerMoves(sys, act, idle, o);
    } else {
      WithoutKernel(sys, act, o);
    }
    NobodyWaitsForAUnit(sys, act, idle, o);
  }

  /** Taking a unit that is there, and releasing one nobody waits for. */
  lemma WithoutKernel(sys: System, act: Action, o: ObjectId)
    requires KShape(sys.k) && o in sys.k.waiters && KernelStep(sys, act, o).None? && Act(sys, act, o).Done?
    requires Act(sys, act, o).value.k == sys.k
    ensures var sys' := Act(sys, act, o).value;
            sys'.taken + sys'.lost + sys'.count - sys'.released == sys.taken + sys.lost + sys.count - sys.released
  {
  }

  lemma NobodyWaitsForAUnit(sys: System, act: Action, idle: nat, o: ObjectId)
    requires KInv(sys.k, idle) && o in sys.k.waiters && Allowed(sys, act, idle, o)
    requires Waiters(sys.k, o) != {} ==> sys.count <= 0
    requires Act(sys, act, o).Done?
    ensures var sys' := Act(sys, act, o).value;
            o in sys'.k.waiters && (Waiters(sys'.k, o) != {} ==> sys'.count <= 0)
  {
    hide Good, Inv, KApply, BlockCurrent, Unblock;
    ActRefinesKernel(sys, act, idle, o);
    if act.Other? {
      StepKeepsKInv(sys.k, act.step, idle);
      StepMask(sys.k, act.step, o);
    }
  }

  /** What the action does to the granted set is what it does to the ledger. */
  lemma LedgerMoves(sys: System, act: Action, idle: nat, o: ObjectId)
    requires KInv(sys.k, idle) && o in sys.k.waiters && Allowed(sys, act, idle, o)
    requires KernelStep(sys, act, o).Some? && Act(sys, act, o).Done?
    requires KApply(sys.k, KernelStep(sys, act, o).value).Done?
    ensures Balanced(sys, Act(sys, act, o).value, KApply(sys.k, KernelStep(sys, act, o).value).value, o)
  {
    hide Balanced, Act, KApply, MaskOk;
    match act
    case TakeEnter(timeout) => LedgerEnter(sys, timeout, idle, o);
    case TakeLeave => LedgerLeave(sys, idle, o);
    case Release => LedgerRelease(sys, idle, o);
    case Other(step) => LedgerOther(sys, step, idle, o);
  }

  ghost predicate Balanced(sys: System, sys': System, k': Kernel, o: ObjectId)
    requires KShape(sys.k) && KShape(k')
  {
    |GrantedSet(k', o)| + sys'.taken + sys'.lost + sys'.count - sys'.released
    == |GrantedSet(sys.k, o)| + sys.taken + sys.lost + sys.count - sys.released
  }

  lemma LedgerEnter(sys: System, timeout: Option<nat>, idle: nat, o: ObjectId)
    requires KInv(sys.k, idle) && o in sys.k.waiters && Allowed(sys, TakeEnter(timeout), idle, o) && sys.count <= 0
    requires Act(sys, TakeEnter(timeout), o).Done? && KApply(sys.k, Enter(o, timeout)).Done?
    ensures Balanced(sys, Act(sys, TakeEnter(timeout), o).value, KApply(sys.k, Enter(o, timeout)).value, o)
  {
    hide Good, Inv, KApply, BlockCurrent, Unblock;
    GrantedSetStep(sys.k, Enter(o, timeout), idle, o);
  }

  lemma LedgerLeave(sys: System, idle: nat, o: ObjectId)
    requires KInv(sys.k, idle) && o in sys.k.waiters && Allowed(sys, TakeLeave, idle, o)
    requires Act(sys, TakeLeave, o).Done? && KApply(sys.k, Leave).Done?
    ensures Balanced(sys, Act(sys, TakeLeave, o).value, KApply(sys.k, Leave).value, o)
  {
    hide Good, Inv, KApply, BlockCurrent, Unblock;
    GrantedSetStep(sys.k, Leave, idle, o);
    LeaverHasVerdict(sys.k, idle);
  }

  lemma LedgerRelease(sys: System, idle: nat, o: ObjectId)
    requires KInv(sys.k, idle) && o in sys.k.waiters && Waiters(sys.k, o) != {}
    requires Act(sys, Release, o).Done? && KApply(sys.k, Wake(o, Lowest(Waiters(sys.k, o)))).Done?
    ensures Balanced(sys, Act(sys, Release, o).value, KApply(sys.k, Wake(o, Lowest(Waiters(sys.k, o)))).value, o)
  {
    hide Good, Inv, KInv, KApply, BlockCurrent, Unblock, LowestFrom, GrantedSet, PhaseAt, MaskOk;
    ReleaseGrants(sys.k, idle, o);
  }

  /** The waiter a release picks is granted if it still sleeps; it has no grant yet. */
  lemma ReleaseGrants(k: Kernel, idle: nat, o: ObjectId)
    requires KInv(k, idle) && Waiters(k, o) != {}
    ensures var id := Lowest(Waiters(k, o));
            && id < MAX_THREADS && KApply(k, Wake(o, id)).Done?
            && (PhaseAt(k, o, id).Waiting? || PhaseAt(k, o, id) == TimedOut)
            && |GrantedSet(KApply(k, Wake(o, id)).value, o)| == |GrantedSet(k, o)| + Bump(PhaseAt(k, o, id).Waiting?)
  {
    hide Good, Inv, KApply, LowestFrom;
    assert MaskOk(k, o);
    GrantedSetStep(k, Wake(o, Lowest(Waiters(k, o))), idle, o);
  }

  lemma LedgerOther(sys: System, step: KStep, idle: nat, o: ObjectId)
    requires KInv(sys.k, idle) && o in sys.k.waiters && Allowed(sys, Other(step), idle, o)
    requires Act(sys, Other(step), o).Done? && KApply(sys.k, step).Done?
    ensures Balanced(sys, Act(sys, Other(step), o).value, KApply(sys.k, step).value, o)
  {
    hide Good, Inv, KApply, BlockCurrent, Unblock;
    GrantedSetStep(sys.k, step, idle, o);
    ElsewhereFrame(sys.k, step, idle, o);
  }

  /** A take gets a unit at once exactly when the ledger has one left: then the count falls
      by one and nothing else moves. Otherwise `try_take` changes nothing, and `take` puts
      the caller to sleep, registered. */
  lemma TakeSucceedsIff(sys: System, timeout: Option<nat>, idle: nat, o: ObjectId, initial: int)
    requires SemInv(sys, idle, o, initial) && CanCall(sys.k, idle)
    ensures var left := initial + sys.released - sys.taken - sys.lost - |GrantedSet(sys.k, o)|;
            var (after, ok) := TryTakeSpec(SemOf(sys, o));
            && (ok <==> left > 0)
            && after == SemOf(sys, o).(count := if left > 0 then left - 1 else left)
    ensures Act(sys, TakeEnter(timeout), o).Done? && KShape(Act(sys, TakeEnter(timeout), o).value.k)
    ensures var left := initial + sys.released - sys.taken - sys.lost - |GrantedSet(sys.k, o)|;
            var id, sys' := sys.k.sched.current, Act(sys, TakeEnter(timeout), o).value;
            if left > 0 then sys' == sys.(count := left - 1, taken := sys.taken + 1)
            else sys'.count == left && id in Waiters(sys'.k, o) && PhaseAt(sys'.k, o, id) == Waiting(timeout.Some?)
  {
    hide Good, Inv, BlockCurrent, Unblock, KApply, GrantedSet;
    ActRefinesKernel(sys, TakeEnter(timeout), idle, o);
    if sys.count <= 0 {
      var step := Enter(o, timeout);
      StepKeepsKInv(sys.k, step, idle);
      StepMask(sys.k, step, o);
      assert SlotStep(sys.k, step, KApply(sys.k, step).value, sys.k.sched.current);
    }
  }

  /** A release adds a unit, to the count or to a granted take, except when the waiter it
      picks has timed out but not yet run: then the unit disappears. */
  lemma ReleaseLosesUnitIff(sys: System, idle: nat, o: ObjectId)
    requires KInv(sys.k, idle) && o in sys.k.waiters
    ensures Act(sys, Release, o).Done? && KShape(Act(sys, Release, o).value.k)
    ensures var sys' := Act(sys, Release, o).value;
            var lost := Waiters(sys.k, o) != {} && PhaseAt(sys.k, o, Lowest(Waiters(sys.k, o))) == TimedOut;
            sys'.count + |GrantedSet(sys'.k, o)| == sys.count + |GrantedSet(sys.k, o)| + Bump(!lost)
  {
    hide Good, Inv, KApply, Unblock, GrantedSet, PhaseAt, MaskOk, LowestFrom;
    ActRefinesKernel(sys, Release, idle, o);
    if Waiters(sys.k, o) != {} {
      ReleaseGrants(sys.k, idle, o);
    }
  }

  /** A release serves the lowest id: the waiter it takes off the mask, and grants if it
      still sleeps, is a most urgent one if and only if no registered thread has a better
      priority than the registered thread with the lowest id. */
  lemma ReleaseServesMostUrgentIff(sys: System, idle: nat, o: ObjectId)
    requires KInv(sys.k, idle) && o in sys.k.waiters && Waiters(sys.k, o) != {}
    ensures Act(sys, Release, o).Done? && KShape(Act(sys, Release, o).value.k)
    ensures var k', low := Act(sys, Release, o).value.k, Lowest(Waiters(sys.k, o));
            && (PhaseAt(sys.k, o, low).Waiting? ==> PhaseAt(k', o, low) == Granted)
            && ((exists i | i in Waiters(sys.k, o) - Waiters(k', o) :: MostUrgent(sys.k, o, i))
                <==> forall w | w in Waiters(sys.k, o) :: PriorityAt(sys.k, low) <= PriorityAt(sys.k, w))
  {
    hide Good, Inv, KApply, Unblock, LowestFrom, GrantedSet, PriorityAt;
    ActRefinesKernel(sys, Release, idle, o);
    var low := Lowest(Waiters(sys.k, o));
    StepKeepsKInv(sys.k, Wake(o, low), idle);
    StepMask(sys.k, Wake(o, low), o);
    assert SlotStep(sys.k, Wake(o, low), Act(sys, Release, o).value.k, low);
    assert Waiters(sys.k, o) - Waiters(Act(sys, Release, o).value.k, o) == {low};
  }

  // ---- Runs ----

  ghost predicate Initial(sys: System, idle: nat, o: ObjectId, initial: int) {
    KInv(sys.k, idle) && FreshObject(sys.k, o) && sys == System(sys.k, initial, 0, 0, 0)
  }

  ghost predicate SemRun(states: seq<System>, acts: seq<Action>, idle: nat, o: ObjectId) {
    && |states| == |acts| + 1
    && forall n | 0 <= n < |acts| ::
         KShape(states[n].k) && Allowed(states[n], acts[n], idle, o) && Act(states[n], acts[n], o) == Done(states[n + 1])
  }

  lemma ActKeepsUntimed(sys: System, act: Action, idle: nat, o: ObjectId)
    requires KInv(sys.k, idle) && o in sys.k.waiters && Allowed(sys, act, idle, o)
    requires NoTimedWaits(sys.k, o) && !(act.TakeEnter? && act.timeout.Some?)
    ensures Act(sys, act, o).Done? && KShape(Act(sys, act, o).value.k)
    ensures NoTimedWaits(Act(sys, act, o).value.k, o) && Act(sys, act, o).value.lost == sys.lost
  {
    hide Good, Inv, KApply, BlockCurrent, Unblock;
    ActRefinesKernel(sys, act, idle, o);
    assert MaskOk(sys.k, o);
    var step := KernelStep(sys, act, o);
    if step.Some? {
      UntimedStep(sys.k, step.value, idle, o);
    }
  }

  lemma ReleasesAreCounted(sys: System, act: Action, o: ObjectId)
    requires KShape(sys.k) && Act(sys, act, o).Done?
    ensures Act(sys, act, o).value.released == sys.released + Bump(act.Release?)
  {
    hide KApply, BlockCurrent, Unblock;
  }

  /** Nothing is taken that is not there. */
  lemma CountStaysNatural(sys: System, act: Action, o: ObjectId)
    requires KShape(sys.k) && Act(sys, act, o).Done? && sys.count >= 0
    ensures Act(sys, act, o).value.count >= 0
  {
    hide KApply, BlockCurrent, Unblock;
  }

  /** Exact accounting in every run: initial count plus releases is the count, plus the
      takes that returned or are about to return success, plus the lost units; without
      timed takes nothing is lost. A count that starts at zero or above never falls below
      it, and it rises by at most one an action, so it stays within an `i32` for the first
      `2^31 - 1 - initial` of them. */
  lemma {:induction false} RunAccounting(states: seq<System>, acts: seq<Action>, idle: nat, o: ObjectId, initial: int, n: nat)
    requires SemRun(states, acts, idle, o) && n <= |acts| && Initial(states[0], idle, o, initial)
    ensures SemInv(states[n], idle, o, initial)
    ensures states[n].count <= initial + states[n].released <= initial + n
    ensures initial >= 0 ==> states[n].count >= 0
    ensures (forall i | 0 <= i < n :: !(acts[i].TakeEnter? && acts[i].timeout.Some?)) ==>
              NoTimedWaits(states[n].k, o) && states[n].lost == 0
  {
    hide Good, Inv, KApply, Act;
    if n == 0 {
      assert GrantedSet(states[0].k, o) == {};
    } else {
      RunAccounting(states, acts, idle, o, initial, n - 1);
      ActKeepsSemInv(states[n - 1], acts[n - 1], idle, o, initial);
      ReleasesAreCounted(states[n - 1], acts[n - 1], o);
      if initial >= 0 {
        CountStaysNatural(states[n - 1], acts[n - 1], o);
      }
      if forall i | 0 <= i < n :: !(acts[i].TakeEnter? && acts[i].timeout.Some?) {
        ActKeepsUntimed(states[n - 1], acts[n - 1], idle, o);
      }
    }
  }
}
