/** Recursive mutexes with ownership: the object, the two steps of `lock`, and what every
    run keeps about holders, timeouts included. */
module Mutex {
  import opened Common
  import opened Masks
  import opened SchedulerSpec
  import opened SchedulerInvariant
  import opened SchedulerRuns
  import opened Kernel
  import Scheduler

  // ---- The object ----

  const NO_OWNER: nat := 0xFF

  datatype Mtx = Mtx(locked: bool, owner: nat, nest: nat, waiters: Mask)

  function TryLockSpec(m: Mtx, id: nat): (Mtx, bool) {
    if !m.locked then (m.(locked := true, owner := id, nest := 1), true)
    else if m.owner == id then (m.(nest := m.nest + 1), true)
    else (m, false)
  }

  function LockEnterSpec(m: Mtx, s: Sched, timeout: Option<nat>): Outcome<(Mtx, Sched, bool)>
    requires Shape(s)
  {
    var id := s.current;
    if !m.locked then Done((m.(locked := true, owner := id, nest := 1), s, true))
    else if m.owner == id then Done((m.(nest := m.nest + 1), s, true))
    else if id >= MAX_THREADS then Panic
    else
      match BlockCurrent(s, timeout)
      case Panic => Panic
      case Done(s') => Done((m.(waiters := m.waiters + {id}), s', false))
  }

  function LockLeaveSpec(m: Mtx, error: int, id: nat): (Mtx, bool) {
    if error != IPC_OK then (m.(waiters := m.waiters - {id}), false) else (m, true)
  }

  /** `unlock`: not the owner is an error; the last unlock hands the mutex to the lowest
      waiter or frees it. A zero `nest` would underflow. */
  function UnlockSpec(m: Mtx, s: Sched): Outcome<(Mtx, Sched, bool)>
    requires Shape(s)
  {
    if m.owner != s.current then Done((m, s, false))
    else if m.nest == 0 then Panic
    else if m.nest > 1 then Done((m.(nest := m.nest - 1), s, true))
    else if m.waiters != {} then
      var id := Lowest(m.waiters);
      Done((m.(owner := id, nest := 1, waiters := m.waiters - {id}), Unblock(s, id), true))
    else Done((m.(locked := false, owner := NO_OWNER, nest := 0), s, true))
  }

  class Mutex {
    var locked: bool
    var owner: nat
    var nest: nat
    var waiters: Mask

    ghost function State(): Mtx
      reads this
    {
      Mtx(locked, owner, nest, waiters)
    }

    constructor ()
      ensures State() == Mtx(false, NO_OWNER, 0, {})
    {
      locked, owner, nest, waiters := false, NO_OWNER, 0, {};
    }

    method TryLock(sched: Scheduler.Scheduler) returns (ok: bool)
      modifies this
      ensures (State(), ok) == TryLockSpec(old(State()), sched.current)
    {
      if !locked {
        locked, owner, nest := true, sched.current, 1;
        ok := true;
      } else if owner == sched.current {
        nest := nest + 1;
        ok := true;
      } else {
        ok := false;
      }
    }

    method LockEnter(sched: Scheduler.Scheduler, timeout: Option<nat>) returns (ok: bool, held: bool)
      requires sched.Valid()
      modifies this, sched, sched.threads, sched.cursor
      ensures var r := LockEnterSpec(old(State()), old(sched.State()), timeout);
              ok == r.Done? && (ok ==> (State(), sched.State(), held) == r.value)
    {
      var id := sched.current;
      if !locked {
        locked, owner, nest := true, id, 1;
        return true, true;
      }
      if owner == id {
        nest := nest + 1;
        return true, true;
      }
      if id >= MAX_THREADS {
        return false, false;
      }
      waiters := waiters + {id};
      ok := sched.BlockCurrent(timeout);
      held := false;
    }

    method LockLeave(sched: Scheduler.Scheduler, id: nat) returns (ok: bool)
      requires sched.Valid() && Occupied(sched.State().threads, sched.current)
      modifies this
      ensures (State(), ok) == LockLeaveSpec(old(State()), IpcError(sched.State()), id)
    {
      var error := sched.threads[sched.current].value.ipcError;
      if error != IPC_OK {
        waiters := waiters - {id};
        return false;
      }
      ok := true;
    }

    method Unlock(sched: Scheduler.Scheduler) returns (ok: bool, released: bool)
      requires sched.Valid()
      modifies this, sched`ready, sched.threads
      ensures var r := UnlockSpec(old(State()), old(sched.State()));
              ok == r.Done? && (ok ==> (State(), sched.State(), released) == r.value)
    {
      if owner != sched.current {
        return true, false;
      }
      if nest == 0 {
        return false, false;
      }
      nest := nest - 1;
      if nest > 0 {
        return true, true;
      }
      if waiters != {} {
        var id := Lowest(waiters);
        waiters := waiters - {id};
        owner := id;
        nest := 1;
        sched.Unblock(id);
      } else {
        locked, owner, nest := false, NO_OWNER, 0;
      }
      return true, true;
    }
  }

  // ---- A mutex in a running system ----

  /** `depth[i]`: locks of thread `i` that returned success minus its successful unlocks.
      `stray[i]`: hand-overs to thread `i` after its wait had already timed out. */
  datatype System = System(k: Kernel, locked: bool, owner: nat, nest: nat, depth: seq<int>, stray: seq<nat>)

  datatype Action =
    | TryLock
    | LockEnter(timeout: Option<nat>)
    | LockLeave
    | Unlock
    | Other(step: KStep)

  function MtxOf(sys: System, o: ObjectId): Mtx {
    Mtx(sys.locked, sys.owner, sys.nest, Waiters(sys.k, o))
  }

  ghost predicate Allowed(sys: System, act: Action, idle: nat, o: ObjectId)
    requires KShape(sys.k)
  {
    match act
    case LockLeave => CanLeave(sys.k, o)
    case Other(step) => KLegal(sys.k, step, idle) && Elsewhere(sys.k, step, o)
    case _ => CanCall(sys.k, idle)
  }

  ghost predicate SShape(sys: System) {
    KShape(sys.k) && |sys.depth| == MAX_THREADS && |sys.stray| == MAX_THREADS
  }

  function WithMtx(sys: System, k: Kernel, m: Mtx): System {
    sys.(k := k, locked := m.locked, owner := m.owner, nest := m.nest)
  }

  function Deepen(sys: System, id: nat, delta: int): System
    requires id < |sys.depth|
  {
    sys.(depth := sys.depth[id := sys.depth[id] + delta])
  }

  ghost function Act(sys: System, act: Action, o: ObjectId): Outcome<System>
    requires SShape(sys)
  {
    var k, m, id := sys.k, MtxOf(sys, o), sys.k.sched.current;
    if id >= MAX_THREADS && !act.Other? then Panic
    else
      match act
      case TryLock =>
        var (m', ok) := TryLockSpec(m, id);
        Done(Deepen(WithMtx(sys, k, m'), id, Bump(ok)))
      case LockEnter(timeout) =>
        (match LockEnterSpec(m, k.sched, timeout)
         case Panic => Panic
         case Done((m', s', true)) => Done(Deepen(WithMtx(sys, k, m'), id, 1))
         case Done((m', s', false)) =>
           Done(WithMtx(sys, Kernel(s', k.pc[id := Some(o)], k.waiters[o := m'.waiters]), m')))
      case LockLeave =>
        if !Occupied(k.sched.threads, id) then Panic
        else
          var (m', ok) := LockLeaveSpec(m, IpcError(k.sched), id);
          Done(Deepen(WithMtx(sys, k.(pc := k.pc[id := None], waiters := k.waiters[o := m'.waiters]), m'), id, Bump(ok)))
      case Unlock =>
        (match UnlockSpec(m, k.sched)
         case Panic => Panic
         case Done((m', s', ok)) =>
           var sys1 := Deepen(WithMtx(sys, k.(sched := s', waiters := k.waiters[o := m'.waiters]), m'), id, if ok then -1 else 0);
           if HandsOver(sys, o) && !PhaseAt(k, o, Lowest(m.waiters)).Waiting? then
             var heir := Lowest(m.waiters);
             Done(sys1.(stray := sys.stray[heir := sys.stray[heir] + 1]))
           else Done(sys1))
      case Other(step) =>
        (match KApply(k, step)
         case Panic => Panic
         case Done(k') => Done(sys.(k := k')))
  }

  /** The last unlock by the owner, with somebody registered. */
  predicate HandsOver(sys: System, o: ObjectId) {
    sys.owner == sys.k.sched.current && sys.nest == 1 && Waiters(sys.k, o) != {}
  }

  /** What thread `i` is owed: its lock depth, a granted lock it has not returned from yet,
      and stray hand-overs. */
  ghost function Claims(sys: System, o: ObjectId, i: nat): int
    requires SShape(sys) && i < MAX_THREADS
  {
    sys.depth[i] + sys.stray[i] + Bump(PhaseAt(sys.k, o, i) == Granted)
  }

  ghost predicate Accounted(sys: System, o: ObjectId)
    requires SShape(sys)
  {
    forall i | 0 <= i < MAX_THREADS ::
      && Claims(sys, o, i) == (if sys.owner == i then sys.nest else 0)
      && (PhaseAt(sys.k, o, i) == Granted ==> sys.owner == i)
  }

  ghost predicate FieldsAgree(sys: System, o: ObjectId) {
    && (sys.locked <==> sys.owner != NO_OWNER)
    && (sys.locked <==> sys.nest > 0)
    && (sys.owner < MAX_THREADS || sys.owner == NO_OWNER)
    && (Waiters(sys.k, o) != {} ==> sys.locked)
    && sys.owner !in Waiters(sys.k, o)
  }

  ghost predicate MtxInv(sys: System, idle: nat, o: ObjectId) {
    && SShape(sys)
    && KInv(sys.k, idle)
    && o in sys.k.waiters
    && FieldsAgree(sys, o)
    && Accounted(sys, o)
  }

  function KernelStep(sys: System, act: Action, o: ObjectId): Option<KStep> {
    match act
    case TryLock => None
    case LockEnter(timeout) =>
      if !sys.locked || sys.owner == sys.k.sched.current then None else Some(Enter(o, timeout))
    case LockLeave => Some(Leave)
    case Unlock => if HandsOver(sys, o) then Some(Wake(o, Lowest(Waiters(sys.k, o)))) else None
    case Other(step) => Some(step)
  }

  /** Seen from the kernel, the mutex follows the wait protocol. */
  lemma ActRefinesKernel(sys: System, act: Action, idle: nat, o: ObjectId)
    requires MtxInv(sys, idle, o) && Allowed(sys, act, idle, o)
    ensures Act(sys, act, o).Done? && SShape(Act(sys, act, o).value)
    ensures match KernelStep(sys, act, o)
            case None => Act(sys, act, o).value.k == sys.k
            case Some(step) =>
              && KLegal(sys.k, step, idle)
              && KApply(sys.k, step).Done?
              && Act(sys, act, o).value.k == KApply(sys.k, step).value
  {
    hide Good, Inv, BlockCurrent, Unblock, Apply, Accounted;
    var step := KernelStep(sys, act, o);
    if step.Some? {
      StepKeepsKInv(sys.k, step.value, idle);
    }
    if act.LockLeave? {
      CurrentOccupied(sys.k.sched, idle);
    }
    if act.LockLeave? || act.Unlock? {
      assert sys.k.waiters[o := Waiters(sys.k, o)] == sys.k.waiters;
    }
  }

  lemma ActKeepsFields(sys: System, act: Action, idle: nat, o: ObjectId)
    requires MtxInv(sys, idle, o) && Allowed(sys, act, idle, o)
    ensures Act(sys, act, o).Done? && FieldsAgree(Act(sys, act, o).value, o)
    ensures o in Act(sys, act, o).value.k.waiters
  {
    hide Good, Inv, BlockCurrent, Unblock, KApply, Accounted;
    ActRefinesKernel(sys, act, idle, o);
    var step := KernelStep(sys, act, o);
    assert MaskOk(sys.k, o);
    if step.Some? {
      StepMask(sys.k, step.value, o);
    }
    if act.Other? {
      ElsewhereFrame(sys.k, act.step, idle, o);
    }
  }

  /** How the action moves the phases other than by the kernel step's own rule. */
  lemma ActPhases(sys: System, act: Action, idle: nat, o: ObjectId, i: nat)
    requires MtxInv(sys, idle, o) && Allowed(sys, act, idle, o) && i < MAX_THREADS
    ensures Act(sys, act, o).Done? && KShape(Act(sys, act, o).value.k)
    ensures var now, next := PhaseAt(sys.k, o, i), PhaseAt(Act(sys, act, o).value.k, o, i);
            (next == Granted) ==
            if act == LockLeave && i == sys.k.sched.current then false
            else if act == Unlock && HandsOver(sys, o) && i == Lowest(Waiters(sys.k, o)) then now.Waiting?
            else now == Granted
  {
    hide Good, Inv, BlockCurrent, Unblock, KApply, Accounted, Act;
    ActRefinesKernel(sys, act, idle, o);
    assert MaskOk(sys.k, o);
    var step := KernelStep(sys, act, o);
    if step.Some? {
      StepKeepsKInv(sys.k, step.value, idle);
      assert SlotStep(sys.k, step.value, KApply(sys.k, step.value).value, i);
    }
    if act.Other? {
      ElsewhereFrame(sys.k, act.step, idle, o);
    }
  }

  lemma ActKeepsAccounts(sys: System, act: Action, idle: nat, o: ObjectId)
    requires MtxInv(sys, idle, o) && Allowed(sys, act, idle, o)
    ensures Act(sys, act, o).Done? && SShape(Act(sys, act, o).value) && Accounted(Act(sys, act, o).value, o)
  {
    hide Good, Inv, BlockCurrent, Unblock, KApply, KInv, Claims, PhaseAt, Act;
    ActRefinesKernel(sys, act, idle, o);
    var sys' := Act(sys, act, o).value;
    forall i | 0 <= i < MAX_THREADS
      ensures Claims(sys', o, i) == if sys'.owner == i then sys'.nest else 0
      ensures PhaseAt(sys'.k, o, i) == Granted ==> sys'.owner == i
    {
      ActKeepsAccount(sys, act, idle, o, i);
    }
  }

  lemma ActKeepsAccount(sys: System, act: Action, idle: nat, o: ObjectId, i: nat)
    requires MtxInv(sys, idle, o) && Allowed(sys, act, idle, o) && i < MAX_THREADS
    ensures Act(sys, act, o).Done? && SShape(Act(sys, act, o).value)
    ensures var sys' := Act(sys, act, o).value;
            && Claims(sys', o, i) == (if sys'.owner == i then sys'.nest else 0)
            && (PhaseAt(sys'.k, o, i) == Granted ==> sys'.owner == i)
  {
    hide Good, Inv, BlockCurrent, Unblock, KApply, KInv, LowestFrom, Act;
    ActRefinesKernel(sys, act, idle, o);
    assert Claims(sys, o, i) == if sys.owner == i then sys.nest else 0;
    ActPhases(sys, act, idle, o, i);
    ActMovesFields(sys, act, o, i);
    if !act.Other? {
      CallerPhase(sys, act, idle, o);
    }
  }

  /** What an action does to the owner, the nest count and one thread's account. */
  lemma ActMovesFields(sys: System, act: Action, o: ObjectId, i: nat)
    requires SShape(sys) && i < MAX_THREADS && Act(sys, act, o).Done?
    ensures var sys', id := Act(sys, act, o).value, sys.k.sched.current;
            var moved := sys'.depth[i] + sys'.stray[i] - sys.depth[i] - sys.stray[i];
            match act
            case LockLeave =>
              && (sys'.owner, sys'.nest) == (sys.owner, sys.nest)
              && moved == Bump(i == id && IpcError(sys.k.sched) == IPC_OK)
            case Unlock =>
              var heir := if HandsOver(sys, o) then Lowest(Waiters(sys.k, o)) else NO_OWNER;
              && (sys'.owner, sys'.nest) ==
                 (if sys.owner != id then (sys.owner, sys.nest)
                  else if sys.nest > 1 then (sys.owner, sys.nest - 1)
                  else if heir != NO_OWNER then (heir, 1)
                  else (NO_OWNER, 0))
              && moved == Bump(i == heir && !PhaseAt(sys.k, o, heir).Waiting?) - Bump(i == id && sys.owner == id)
            case Other(_) => (sys'.owner, sys'.nest) == (sys.owner, sys.nest) && moved == 0
            case _ =>
              if !sys.locked then (sys'.owner, sys'.nest) == (id, 1) && moved == Bump(i == id)
              else if sys.owner == id then (sys'.owner, sys'.nest) == (id, sys.nest + 1) && moved == Bump(i == id)
              else (sys'.owner, sys'.nest) == (sys.owner, sys.nest) && moved == 0
  {
    hide BlockCurrent, Unblock, KApply, LowestFrom, PhaseAt;
  }

  /** The caller is outside any wait, or leaves one with its verdict. */
  lemma CallerPhase(sys: System, act: Action, idle: nat, o: ObjectId)
    requires MtxInv(sys, idle, o) && Allowed(sys, act, idle, o) && !act.Other?
    ensures var id := sys.k.sched.current;
            && id < MAX_THREADS
            && (act != LockLeave ==> PhaseAt(sys.k, o, id) == Out)
            && (act == LockLeave ==> Occupied(sys.k.sched.threads, id))
            && (act == LockLeave ==> PhaseAt(sys.k, o, id) == (if IpcError(sys.k.sched) == IPC_OK then Granted else TimedOut))
            && (HandsOver(sys, o) ==> Lowest(Waiters(sys.k, o)) != id && Registrable(PhaseAt(sys.k, o, Lowest(Waiters(sys.k, o)))))
  {
    hide Good, Inv, Accounted;
    assert MaskOk(sys.k, o);
    if act == LockLeave {
      LeaverHasVerdict(sys.k, idle);
    }
  }

  /** Whatever happens, the accounts balance for every thread: lock depth, granted lock and
      stray hand-overs add up to `nest` for the owner and to zero for everybody else. */
  lemma ActKeepsMtxInv(sys: System, act: Action, idle: nat, o: ObjectId)
    requires MtxInv(sys, idle, o) && Allowed(sys, act, idle, o)
    ensures Act(sys, act, o).Done? && MtxInv(Act(sys, act, o).value, idle, o)
  {
    hide Good, Inv, KApply, Act, Accounted, FieldsAgree;
    ActRefinesKernel(sys, act, idle, o);
    ActKeepsFields(sys, act, idle, o);
    ActKeepsAccounts(sys, act, idle, o);
    var step := KernelStep(sys, act, o);
    if step.Some? {
      StepKeepsKInv(sys.k, step.value, idle);
    }
  }

  /** Mutual exclusion: a thread with more successful locks than unlocks is the recorded
      owner, so there is at most one. */
  lemma HolderIsOwner(sys: System, idle: nat, o: ObjectId, i: nat)
    requires MtxInv(sys, idle, o) && i < MAX_THREADS && sys.depth[i] > 0
    ensures sys.owner == i && sys.locked && sys.nest >= sys.depth[i]
    ensures forall j | 0 <= j < MAX_THREADS && j != i :: sys.depth[j] <= 0
  {
    assert Claims(sys, o, i) == if sys.owner == i then sys.nest else 0;
    forall j | 0 <= j < MAX_THREADS && j != i
      ensures sys.depth[j] <= 0
    {
      assert Claims(sys, o, j) == if sys.owner == j then sys.nest else 0;
    }
  }

  /** The last unlock makes somebody owner whose own `lock` reports a timeout exactly when
      the lowest waiter has timed out but not yet run. */
  lemma UnlockStraysIff(sys: System, idle: nat, o: ObjectId)
    requires MtxInv(sys, idle, o) && Allowed(sys, Unlock, idle, o) && HandsOver(sys, o)
    ensures Act(sys, Unlock, o).Done? && SShape(Act(sys, Unlock, o).value)
    ensures var sys', heir := Act(sys, Unlock, o).value, Lowest(Waiters(sys.k, o));
            && sys'.owner == heir && sys'.nest == 1
            && PhaseAt(sys'.k, o, heir) == (if PhaseAt(sys.k, o, heir) == TimedOut then TimedOut else Granted)
            && sys'.stray[heir] == sys.stray[heir] + Bump(PhaseAt(sys.k, o, heir) == TimedOut)
  {
    hide Good, Inv, KApply, Unblock, Accounted;
    ActRefinesKernel(sys, Unlock, idle, o);
    assert MaskOk(sys.k, o);
    var heir := Lowest(Waiters(sys.k, o));
    StepKeepsKInv(sys.k, Wake(o, heir), idle);
    assert SlotStep(sys.k, Wake(o, heir), KApply(sys.k, Wake(o, heir)).value, heir);
  }

  /** A hand-over likewise: the new owner is a most urgent waiter if and only if no registered
      thread has a better priority than the one with the lowest id. */
  lemma UnlockServesMostUrgentIff(sys: System, idle: nat, o: ObjectId)
    requires MtxInv(sys, idle, o) && Allowed(sys, Unlock, idle, o) && HandsOver(sys, o)
    ensures Act(sys, Unlock, o).Done? && SShape(Act(sys, Unlock, o).value)
    ensures MostUrgent(sys.k, o, Act(sys, Unlock, o).value.owner)
            <==> forall w | w in Waiters(sys.k, o) ::
                   PriorityAt(sys.k, Lowest(Waiters(sys.k, o))) <= PriorityAt(sys.k, w)
  {
    hide MtxInv, Act, PriorityAt, LowestFrom;
    UnlockStraysIff(sys, idle, o);
  }

  /** A lock succeeds at once exactly when no other thread has a claim on the mutex; it then
      adds one to the caller's claims. Otherwise `try_lock` changes nothing, and `lock` puts
      the caller to sleep, registered, with the mutex as it was. */
  lemma LockSucceedsIff(sys: System, timeout: Option<nat>, idle: nat, o: ObjectId)
    requires MtxInv(sys, idle, o) && CanCall(sys.k, idle)
    ensures Act(sys, TryLock, o).Done? && SShape(Act(sys, TryLock, o).value)
    ensures Act(sys, LockEnter(timeout), o).Done? && SShape(Act(sys, LockEnter(timeout), o).value)
    ensures var id, free := sys.k.sched.current, Unclaimed(sys, o);
            var tried, entered := Act(sys, TryLock, o).value, Act(sys, LockEnter(timeout), o).value;
            && (TryLockSpec(MtxOf(sys, o), id).1 <==> free)
            && if free then entered == tried && tried.owner == id && tried.k == sys.k && tried.nest == Claims(sys, o, id) + 1
               else
                 && tried == sys && MtxOf(entered, o).(waiters := {}) == MtxOf(sys, o).(waiters := {})
                 && id in Waiters(entered.k, o) && PhaseAt(entered.k, o, id) == Waiting(timeout.Some?)
  {
    hide Good, Inv, BlockCurrent, Unblock, KApply;
    var id := sys.k.sched.current;
    ActRefinesKernel(sys, TryLock, idle, o);
    ActRefinesKernel(sys, LockEnter(timeout), idle, o);
    UnclaimedIff(sys, idle, o);
    assert Claims(sys, o, id) == if sys.owner == id then sys.nest else 0;
    if sys.locked && sys.owner != id {
      var step := Enter(o, timeout);
      StepKeepsKInv(sys.k, step, idle);
      StepMask(sys.k, step, o);
      assert SlotStep(sys.k, step, KApply(sys.k, step).value, id);
    }
  }

  /** No thread but the caller has a claim on the mutex. */
  ghost predicate Unclaimed(sys: System, o: ObjectId)
    requires SShape(sys)
  {
    forall j | 0 <= j < MAX_THREADS && j != sys.k.sched.current :: Claims(sys, o, j) == 0
  }

  lemma UnclaimedIff(sys: System, idle: nat, o: ObjectId)
    requires MtxInv(sys, idle, o)
    ensures Unclaimed(sys, o) <==> !sys.locked || sys.owner == sys.k.sched.current
  {
    hide Good, Inv, Claims;
    if sys.locked {
      assert Claims(sys, o, sys.owner) == sys.nest;
    }
  }

  /** An unlock succeeds exactly when the caller has a claim. A successful lock followed by
      an unlock leaves the mutex and the scheduler as they were; an unlock by anybody else
      changes nothing. */
  lemma UnlockUndoesLock(sys: System, idle: nat, o: ObjectId)
    requires MtxInv(sys, idle, o) && CanCall(sys.k, idle)
    ensures var m, s, id := MtxOf(sys, o), sys.k.sched, sys.k.sched.current;
            var (locked, ok) := TryLockSpec(m, id);
            && (ok ==> UnlockSpec(locked, s) == Done((m, s, true)))
            && UnlockSpec(m, s).Done?
            && (UnlockSpec(m, s).value.2 <==> Claims(sys, o, id) > 0)
            && (!UnlockSpec(m, s).value.2 ==> UnlockSpec(m, s) == Done((m, s, false)))
  {
    hide Good, Inv, Unblock, Claims, LowestFrom;
    var id := sys.k.sched.current;
    assert Claims(sys, o, id) == if sys.owner == id then sys.nest else 0;
  }

  // ---- Runs ----

  ghost predicate Initial(sys: System, idle: nat, o: ObjectId) {
    && SShape(sys) && KInv(sys.k, idle) && FreshObject(sys.k, o)
    && !sys.locked && sys.owner == NO_OWNER && sys.nest == 0
    && (forall i | 0 <= i < MAX_THREADS :: sys.depth[i] == 0 && sys.stray[i] == 0)
  }

  ghost predicate MtxRun(states: seq<System>, acts: seq<Action>, idle: nat, o: ObjectId) {
    && |states| == |acts| + 1
    && forall n | 0 <= n < |acts| ::
         SShape(states[n]) && Allowed(states[n], acts[n], idle, o) && Act(states[n], acts[n], o) == Done(states[n + 1])
  }

  ghost predicate NoStrays(sys: System) {
    forall i | 0 <= i < |sys.stray| :: sys.stray[i] == 0
  }

  lemma ActKeepsUntimed(sys: System, act: Action, idle: nat, o: ObjectId)
    requires MtxInv(sys, idle, o) && Allowed(sys, act, idle, o)
    requires NoTimedWaits(sys.k, o) && NoStrays(sys) && !(act.LockEnter? && act.timeout.Some?)
    ensures Act(sys, act, o).Done? && SShape(Act(sys, act, o).value)
    ensures NoTimedWaits(Act(sys, act, o).value.k, o) && NoStrays(Act(sys, act, o).value)
  {
    hide Good, Inv, KApply, BlockCurrent, Unblock, Accounted;
    ActRefinesKernel(sys, act, idle, o);
    assert MaskOk(sys.k, o);
    var step := KernelStep(sys, act, o);
    if step.Some? {
      UntimedStep(sys.k, step.value, idle, o);
    }
  }

  /** In every run the invariant holds; in a run without timed locks, the owner's lock
      depth, plus one while a hand-over to it is still on its way, is exactly `nest`. The
      nest count is at most the number of actions, so it cannot wrap before 2^32 of them. */
  lemma {:induction false} RunSafety(states: seq<System>, acts: seq<Action>, idle: nat, o: ObjectId, n: nat)
    requires MtxRun(states, acts, idle, o) && n <= |acts| && Initial(states[0], idle, o)
    ensures MtxInv(states[n], idle, o) && states[n].nest <= n
    ensures (forall i | 0 <= i < n :: !(acts[i].LockEnter? && acts[i].timeout.Some?)) ==>
              NoTimedWaits(states[n].k, o) && NoStrays(states[n])
  {
    hide Good, Inv, KApply, Act;
    if n == 0 {
      assert forall i | 0 <= i < MAX_THREADS :: PhaseAt(states[0].k, o, i) == Out;
    } else {
      RunSafety(states, acts, idle, o, n - 1);
      ActKeepsMtxInv(states[n - 1], acts[n - 1], idle, o);
      ActMovesFields(states[n - 1], acts[n - 1], o, 0);
      if forall i | 0 <= i < n :: !(acts[i].LockEnter? && acts[i].timeout.Some?) {
        ActKeepsUntimed(states[n - 1], acts[n - 1], idle, o);
      }
    }
  }

  lemma UntimedNestIsDepth(sys: System, idle: nat, o: ObjectId)
    requires MtxInv(sys, idle, o) && NoStrays(sys) && sys.locked
    ensures sys.nest == sys.depth[sys.owner] + Bump(PhaseAt(sys.k, o, sys.owner) == Granted)
    ensures forall j | 0 <= j < MAX_THREADS && j != sys.owner :: sys.depth[j] == 0
  {
    assert Claims(sys, o, sys.owner) == sys.nest;
    forall j | 0 <= j < MAX_THREADS && j != sys.owner
      ensures sys.depth[j] == 0
    {
      assert Claims(sys, o, j) == 0;
    }
  }
}
