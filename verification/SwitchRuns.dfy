/** Runs of threads over the context-switch assembly: whatever is interleaved, a thread that
    is resumed goes on with the context it was saved with, and the thread resumed is the one
    the last hand-off names. */
module SwitchRuns {
  import opened ArmSpec
  import opened SchedulerSpec
  import opened SchedulerInvariant

  datatype Region = Region(lo: nat, hi: nat)

  /** Where the `sp` fields of the thread table, the stacks and the switch words are. */
  datatype Layout = Layout(slots: seq<nat>, stacks: seq<Region>, irqStack: Region, sw: SwitchWords)

  predicate In(x: nat, a: Region) {
    a.lo <= x < a.hi
  }

  predicate Disjoint(a: Region, b: Region) {
    a.hi <= b.lo || b.hi <= a.lo
  }

  predicate IsSwitchWord(sw: SwitchWords, x: nat) {
    x == sw.flag || x == sw.from || x == sw.to
  }

  ghost predicate OnNoStack(l: Layout, x: nat)
    requires |l.stacks| == MAX_THREADS
  {
    !In(x, l.irqStack) && forall i | 0 <= i < MAX_THREADS :: !In(x, l.stacks[i])
  }

  ghost predicate LayoutOk(l: Layout) {
    && |l.slots| == MAX_THREADS && |l.stacks| == MAX_THREADS
    && (forall i, k | 0 <= i < k < MAX_THREADS :: l.slots[i] != l.slots[k] && Disjoint(l.stacks[i], l.stacks[k]))
    && (forall i | 0 <= i < MAX_THREADS ::
          Disjoint(l.stacks[i], l.irqStack) && OnNoStack(l, l.slots[i]) && !IsSwitchWord(l.sw, l.slots[i]))
    && OnNoStack(l, l.sw.flag) && OnNoStack(l, l.sw.from) && OnNoStack(l, l.sw.to)
    && l.sw.flag != l.sw.from && l.sw.from != l.sw.to && l.sw.to != l.sw.flag
  }

  /** The machine, whose thread it runs, and for every thread the context last saved. */
  datatype World = World(m: Machine, cur: nat, saved: map<nat, Context>)

  /** Room for one frame below `sp` in thread `t`'s stack. */
  ghost predicate Room(l: Layout, t: nat, sp: nat)
    requires LayoutOk(l) && t < MAX_THREADS
  {
    l.stacks[t].lo + FRAME <= sp <= l.stacks[t].hi
  }

  /** Thread `t`'s context `c` is in memory, on its own stack. */
  ghost predicate Kept(l: Layout, mem: Memory, t: nat, c: Context)
    requires LayoutOk(l)
  {
    && t < MAX_THREADS && Saved(mem, l.slots[t]) == c
    && |c.r| == 13 && Mode(c.cpsr) == SVC_MODE && Room(l, t, c.sp)
  }

  ghost predicate WorldOk(l: Layout, w: World) {
    && LayoutOk(l)
    && w.cur < MAX_THREADS
    && |w.m.r| == 13 && Mode(w.m.cpsr) == SVC_MODE
    && Read(w.m.mem, l.sw.flag) != 1
    && l.irqStack.lo + IRQ_SAVE <= w.m.irq.sp <= l.irqStack.hi
    && forall t | t in w.saved && t != w.cur :: Kept(l, w.m.mem, t, w.saved[t])
  }

  /** `x` is no word that saved contexts or the switch depend on. The rest of the IRQ stack
      is the handlers' own. */
  ghost predicate Harmless(l: Layout, w: World, x: nat)
    requires LayoutOk(l)
  {
    && !IsSwitchWord(l.sw, x) && Outside(x, w.m.irq.sp, IRQ_SAVE)
    && (forall i | 0 <= i < MAX_THREADS :: x != l.slots[i])
    && forall t | t in w.saved && t != w.cur :: Outside(x, w.saved[t].sp, FRAME)
  }

  // ---- Events ----

  datatype Event =
    | Switch(h: Handoff)
    | Interrupted(writes: Memory, hs: seq<Handoff>)
    | Compute(next: Machine)
    | Spawn(t: nat, entry: nat, parameter: nat, exit: nat)

  /** `stack_init`: the frame of a thread that has not run yet, at the top of its stack
      rounded down to eight. */
  function StackTop(stack: Region): nat {
    stack.hi - stack.hi % 8
  }

  function InitialContext(stack: Region, entry: nat, parameter: nat, exit: nat): Context {
    Context([parameter, 0, 0, 0, 0, 0, 0, 0, 0, 0, 0, 0, 0], StackTop(stack), exit, entry, SVC_MODE)
  }

  function Requests(l: Layout, hs: seq<Handoff>): (qs: seq<Request>)
    requires |l.slots| == MAX_THREADS
    requires forall k | 0 <= k < |hs| :: hs[k].Interrupt? && hs[k].from < MAX_THREADS && hs[k].to < MAX_THREADS
    ensures |qs| == |hs|
    ensures forall k | 0 <= k < |hs| :: qs[k] == Request(l.slots[hs[k].from], l.slots[hs[k].to])
  {
    if hs == [] then []
    else Requests(l, hs[..|hs| - 1]) + [Request(l.slots[hs[|hs| - 1].from], l.slots[hs[|hs| - 1].to])]
  }

  ghost predicate Legal(l: Layout, w: World, e: Event)
    requires WorldOk(l, w)
  {
    match e
    case Switch(h) =>
      && h.Cooperative? && h.from == w.cur && h.to in w.saved && h.to != w.cur
      && Room(l, w.cur, w.m.svc.sp) && w.m.r[0] == l.slots[w.cur] && w.m.r[1] == l.slots[h.to]
    case Interrupted(writes, hs) =>
      && Room(l, w.cur, w.m.svc.sp)
      && (forall x | x in writes :: Harmless(l, w, x))
      && (hs != [] ==> hs[0].Interrupt? && hs[0].from == w.cur)
      && (forall k | 0 <= k < |hs| :: hs[k].Interrupt? && hs[k].from < MAX_THREADS && hs[k].to < MAX_THREADS
                                      && (hs[k].to in w.saved || hs[k].to == w.cur))
    case Compute(next) =>
      && |next.r| == 13 && Mode(next.cpsr) == SVC_MODE && next.irq.sp == w.m.irq.sp
      && forall x: nat | !Harmless(l, w, x) :: Read(next.mem, x) == Read(w.m.mem, x)
    case Spawn(t, _, _, _) =>
      t < MAX_THREADS && t !in w.saved && t != w.cur && Room(l, t, StackTop(l.stacks[t]))
  }

  ghost function Apply(l: Layout, w: World, e: Event): World
    requires WorldOk(l, w) && Legal(l, w, e)
  {
    match e
    case Switch(h) => World(SwitchSpec(w.m), h.to, w.saved[w.cur := CooperativeContext(w.m)])
    case Interrupted(writes, hs) =>
      var m := IrqSpec(w.m, writes, l.sw, Requests(l, hs));
      if hs == [] then w.(m := m) else World(m, hs[|hs| - 1].to, w.saved[w.cur := ContextOf(w.m)])
    case Compute(next) => w.(m := next)
    case Spawn(t, entry, parameter, exit) =>
      var c := InitialContext(l.stacks[t], entry, parameter, exit);
      World(w.m.(mem := Save(w.m.mem, c, l.slots[t])), w.cur, w.saved[t := c])
  }

  // ---- What every step keeps ----

  /** A kept context stands while its field and its frame do. */
  lemma KeptStands(l: Layout, mem: Memory, other: Memory, t: nat, c: Context)
    requires LayoutOk(l) && Kept(l, mem, t, c)
    requires Read(other, l.slots[t]) == Read(mem, l.slots[t])
    requires forall x | c.sp - FRAME <= x < c.sp :: Read(other, x) == Read(mem, x)
    ensures Kept(l, other, t, c)
  {
    hide Saved;
    SavedBase(mem, l.slots[t]);
    SavedAgrees(mem, other, l.slots[t]);
  }

  lemma SavedBase(mem: Memory, slot: nat)
    ensures Saved(mem, slot).sp == Read(mem, slot) + FRAME
  {
  }

  /** Saving one thread's context leaves every other kept context standing. */
  lemma SaveKeepsOthers(l: Layout, mem: Memory, cur: nat, c: Context, t: nat, d: Context)
    requires LayoutOk(l) && cur < MAX_THREADS && |c.r| == 13 && Room(l, cur, c.sp)
    requires t != cur && Kept(l, mem, t, d)
    ensures Kept(l, Save(mem, c, l.slots[cur]), t, d)
  {
    hide Saved, StoreWords, FrameWords;
    FrameParts(c);
    var i, k := if t < cur then t else cur, if t < cur then cur else t;
    assert l.slots[i] != l.slots[k] && Disjoint(l.stacks[i], l.stacks[k]);
    assert !In(l.slots[t], l.stacks[cur]) by { assert OnNoStack(l, l.slots[t]); }
    assert !In(l.slots[cur], l.stacks[t]) by { assert OnNoStack(l, l.slots[cur]); }
    KeptStands(l, mem, Save(mem, c, l.slots[cur]), t, d);
  }

  lemma OwnSaveIsKept(l: Layout, mem: Memory, cur: nat, c: Context)
    requires LayoutOk(l) && cur < MAX_THREADS && |c.r| == 13 && Room(l, cur, c.sp) && Mode(c.cpsr) == SVC_MODE
    ensures Kept(l, Save(mem, c, l.slots[cur]), cur, c)
  {
    hide Saved, Save;
    assert !In(l.slots[cur], l.stacks[cur]) by { assert OnNoStack(l, l.slots[cur]); }
    SaveRoundTrip(mem, c, l.slots[cur]);
  }

  /** Saving one context and resuming another: the shape of every switch. */
  lemma SwitchKeepsOk(l: Layout, w: World, mem: Memory, c: Context, irq: Bank, to: nat)
    requires WorldOk(l, w) && |c.r| == 13 && Mode(c.cpsr) == SVC_MODE && Room(l, w.cur, c.sp)
    requires Read(mem, l.sw.flag) != 1 && irq.sp == w.m.irq.sp
    requires forall t | t in w.saved && t != w.cur :: Kept(l, mem, t, w.saved[t])
    requires to in w.saved || to == w.cur
    ensures var saved := Save(mem, c, l.slots[w.cur]);
            var resumed := if to == w.cur then c else w.saved[to];
            var w' := World(Restore(w.m.(irq := irq, mem := saved), Saved(saved, l.slots[to])), to, w.saved[w.cur := c]);
            WorldOk(l, w') && ContextOf(w'.m) == resumed
  {
    hide Saved, Save;
    var saved := Save(mem, c, l.slots[w.cur]);
    OwnSaveIsKept(l, mem, w.cur, c);
    forall t | t in w.saved && t != w.cur
      ensures Kept(l, saved, t, w.saved[t])
    {
      SaveKeepsOthers(l, mem, w.cur, c, t, w.saved[t]);
    }
    FlagUntouched(l, mem, w.cur, c);
  }

  lemma FlagUntouched(l: Layout, mem: Memory, cur: nat, c: Context)
    requires LayoutOk(l) && cur < MAX_THREADS && |c.r| == 13 && Room(l, cur, c.sp)
    ensures Read(Save(mem, c, l.slots[cur]), l.sw.flag) == Read(mem, l.sw.flag)
    ensures Read(Save(mem, c, l.slots[cur]), l.sw.from) == Read(mem, l.sw.from)
    ensures Read(Save(mem, c, l.slots[cur]), l.sw.to) == Read(mem, l.sw.to)
  {
    hide StoreWords, FrameWords;
    FrameParts(c);
    assert !IsSwitchWord(l.sw, l.slots[cur]);
  }

  /** A cooperative switch: the thread switched to goes on exactly as it was saved; the one
      left is saved to return to its caller with interrupts enabled. */
  lemma SwitchResumes(l: Layout, w: World, h: Handoff)
    requires WorldOk(l, w) && Legal(l, w, Switch(h))
    ensures var w' := Apply(l, w, Switch(h));
            && WorldOk(l, w') && w'.cur == h.to
            && ContextOf(w'.m) == w.saved[h.to]
            && w'.m.irq == w.m.irq
  {
    hide Saved, Save, Kept;
    ClearIFacts(w.m.cpsr);
    SwitchKeepsOk(l, w, w.m.mem, CooperativeContext(w.m), w.m.irq, h.to);
  }

  // ---- Interrupts ----

  /** However many switches are asked for, the first names the thread to save and the last
      the thread to run. */
  lemma {:induction false} RequestsCollapse(mem: Memory, sw: SwitchWords, qs: seq<Request>)
    requires Read(mem, sw.flag) != 1 && sw.flag != sw.from && sw.from != sw.to && sw.to != sw.flag
    ensures var after := RequestAll(mem, sw, qs);
            if qs == [] then after == mem
            else Read(after, sw.flag) == 1 && Read(after, sw.from) == qs[0].from && Read(after, sw.to) == qs[|qs| - 1].to
    decreases |qs|
  {
    if qs != [] {
      RequestsCollapse(mem, sw, qs[..|qs| - 1]);
    }
  }

  /** Where the handlers may not write, memory is as it was. */
  lemma HandlersKeep(l: Layout, w: World, writes: Memory, qs: seq<Request>, x: nat)
    requires WorldOk(l, w) && forall y | y in writes :: Harmless(l, w, y)
    requires !In(x, l.irqStack) && !IsSwitchWord(l.sw, x) && !Harmless(l, w, x)
    ensures Read(AfterHandlers(w.m, writes, l.sw, qs), x) == Read(w.m.mem, x)
  {
    hide StoreWords, RequestAll, Harmless, Kept;
    var pushed := StoreWords(w.m.mem, w.m.irq.sp - IRQ_SAVE, w.m.r + [w.m.pc + WORD]);
    RequestsKeep(pushed + writes, l.sw, qs, x);
    assert x !in writes;
  }

  lemma HandlersKeepContexts(l: Layout, w: World, writes: Memory, qs: seq<Request>, t: nat)
    requires WorldOk(l, w) && forall y | y in writes :: Harmless(l, w, y)
    requires t in w.saved && t != w.cur
    ensures Kept(l, AfterHandlers(w.m, writes, l.sw, qs)[l.sw.flag := 0], t, w.saved[t])
    ensures Kept(l, AfterHandlers(w.m, writes, l.sw, qs), t, w.saved[t])
  {
    hide Saved, AfterHandlers;
    var c := w.saved[t];
    assert Kept(l, w.m.mem, t, c);
    var after := AfterHandlers(w.m, writes, l.sw, qs);
    assert Disjoint(l.stacks[t], l.irqStack) && OnNoStack(l, l.slots[t]) && !IsSwitchWord(l.sw, l.slots[t]);
    HandlersKeep(l, w, writes, qs, l.slots[t]);
    forall x | c.sp - FRAME <= x < c.sp
      ensures Read(after, x) == Read(w.m.mem, x) && x != l.sw.flag
    {
      assert In(x, l.stacks[t]);
      assert OnNoStack(l, l.sw.flag) && OnNoStack(l, l.sw.from) && OnNoStack(l, l.sw.to);
      HandlersKeep(l, w, writes, qs, x);
    }
    KeptStands(l, w.m.mem, after, t, c);
    KeptStands(l, w.m.mem, after[l.sw.flag := 0], t, c);
  }

  /** The switch words when the handlers are done. */
  lemma SwitchWordsAfter(l: Layout, w: World, writes: Memory, qs: seq<Request>)
    requires WorldOk(l, w) && forall y | y in writes :: Harmless(l, w, y)
    ensures var after := AfterHandlers(w.m, writes, l.sw, qs);
            if qs == [] then Read(after, l.sw.flag) != 1
            else Read(after, l.sw.flag) == 1 && Read(after, l.sw.from) == qs[0].from && Read(after, l.sw.to) == qs[|qs| - 1].to
  {
    hide StoreWords, RequestAll, Kept;
    var pushed := StoreWords(w.m.mem, w.m.irq.sp - IRQ_SAVE, w.m.r + [w.m.pc + WORD]);
    assert !In(l.sw.flag, l.irqStack);
    assert l.sw.flag !in writes;
    RequestsCollapse(pushed + writes, l.sw, qs);
  }

  /** A whole interrupt: without a switch, or with switches that lead back, the interrupted
      thread goes on exactly where it was; otherwise the last thread switched to goes on as
      it was saved, and the interrupted one is saved as it was. The IRQ stack is balanced. */
  lemma IrqResumes(l: Layout, w: World, writes: Memory, hs: seq<Handoff>)
    requires WorldOk(l, w) && Legal(l, w, Interrupted(writes, hs))
    ensures var w' := Apply(l, w, Interrupted(writes, hs));
            && WorldOk(l, w')
            && w'.cur == (if hs == [] then w.cur else hs[|hs| - 1].to)
            && ContextOf(w'.m) == (if w'.cur == w.cur then ContextOf(w.m) else w.saved[w'.cur])
            && w'.m.irq.sp == w.m.irq.sp
  {
    hide Saved, Save, Kept, AfterHandlers, Harmless;
    var qs := Requests(l, hs);
    var after := AfterHandlers(w.m, writes, l.sw, qs);
    SwitchWordsAfter(l, w, writes, qs);
    forall t | t in w.saved && t != w.cur
      ensures Kept(l, after, t, w.saved[t]) && Kept(l, after[l.sw.flag := 0], t, w.saved[t])
    {
      HandlersKeepContexts(l, w, writes, qs, t);
    }
    if hs != [] {
      var cleared := after[l.sw.flag := 0];
      var c := ContextOf(w.m);
      FlagUntouched(l, cleared, w.cur, c);
      assert qs[0] == Request(l.slots[w.cur], l.slots[hs[0].to]);
      SwitchKeepsOk(l, w, cleared, c, Bank(w.m.irq.sp, w.m.pc + WORD, w.m.cpsr), hs[|hs| - 1].to);
    }
  }

  // ---- Computing, and new threads ----

  lemma ComputeKeepsOk(l: Layout, w: World, next: Machine)
    requires WorldOk(l, w) && Legal(l, w, Compute(next))
    ensures WorldOk(l, Apply(l, w, Compute(next)))
  {
    hide Kept;
    forall t | t in w.saved && t != w.cur
      ensures Kept(l, next.mem, t, w.saved[t])
    {
      KeptInRange(l, w.m.mem, t, w.saved[t]);
      assert forall x | w.saved[t].sp - FRAME <= x < w.saved[t].sp :: !Harmless(l, w, x);
      assert !Harmless(l, w, l.slots[t]);
      KeptStands(l, w.m.mem, next.mem, t, w.saved[t]);
    }
    assert !Harmless(l, w, l.sw.flag);
  }

  lemma KeptInRange(l: Layout, mem: Memory, t: nat, c: Context)
    requires LayoutOk(l) && Kept(l, mem, t, c)
    ensures t < MAX_THREADS && c.sp >= FRAME
  {
  }

  /** A new thread's first context is kept like any other: its first switch starts it at its
      entry point with its parameter in r0 and the exit stub in lr. */
  lemma SpawnKeepsOk(l: Layout, w: World, t: nat, entry: nat, parameter: nat, exit: nat)
    requires WorldOk(l, w) && Legal(l, w, Spawn(t, entry, parameter, exit))
    ensures WorldOk(l, Apply(l, w, Spawn(t, entry, parameter, exit)))
  {
    hide Saved, Save, Kept;
    var c := InitialContext(l.stacks[t], entry, parameter, exit);
    OwnSaveIsKept(l, w.m.mem, t, c);
    FlagUntouched(l, w.m.mem, t, c);
    forall u | u in w.saved && u != w.cur
      ensures Kept(l, Save(w.m.mem, c, l.slots[t]), u, w.saved[u])
    {
      SaveKeepsOthers(l, w.m.mem, t, c, u, w.saved[u]);
    }
  }

  /** `stack_init`'s frame is inside the stack exactly when the stack, less its unaligned
      end, holds sixteen words. */
  lemma FirstFrameFitsIff(stack: Region)
    requires stack.lo <= stack.hi
    ensures StackTop(stack) % 8 == 0
    ensures stack.lo + FRAME <= StackTop(stack) <= stack.hi <==> stack.hi - stack.lo >= FRAME + stack.hi % 8
  {
  }

  // ---- Runs ----

  function Log(e: Event): seq<Handoff> {
    match e
    case Switch(h) => [h]
    case Interrupted(_, hs) => hs
    case Compute(_) => []
    case Spawn(_, _, _, _) => []
  }

  function Logs(es: seq<Event>): seq<Handoff> {
    if es == [] then [] else Log(es[0]) + Logs(es[1..])
  }

  ghost predicate LegalRun(l: Layout, w: World, es: seq<Event>)
    requires WorldOk(l, w)
    decreases |es|
  {
    es == [] || (Legal(l, w, es[0]) && (StepResumes(l, w, es[0]); LegalRun(l, Apply(l, w, es[0]), es[1..])))
  }

  ghost function Run(l: Layout, w: World, es: seq<Event>): World
    requires WorldOk(l, w) && LegalRun(l, w, es)
    decreases |es|
  {
    if es == [] then w else (StepResumes(l, w, es[0]); Run(l, Apply(l, w, es[0]), es[1..]))
  }

  /** Any event: the thread that runs next is the last one handed to, it runs with exactly
      the context saved for it, and no other thread's saved context changes. */
  lemma StepResumes(l: Layout, w: World, e: Event)
    requires WorldOk(l, w) && Legal(l, w, e)
    ensures var w' := Apply(l, w, e);
            && WorldOk(l, w')
            && w'.cur == (if Log(e) == [] then w.cur else Holder(Log(e)))
            && (w'.cur != w.cur ==> w'.cur in w.saved && ContextOf(w'.m) == w.saved[w'.cur])
            && (w'.cur == w.cur && Log(e) != [] ==> ContextOf(w'.m) == ContextOf(w.m))
            && (forall t | t in w.saved && t != w.cur :: t in w'.saved && w'.saved[t] == w.saved[t])
            && w'.m.irq.sp == w.m.irq.sp
  {
    hide WorldOk, SwitchSpec, IrqSpec;
    match e {
      case Switch(h) => SwitchResumes(l, w, h);
      case Interrupted(writes, hs) => IrqResumes(l, w, writes, hs);
      case Compute(next) => ComputeKeepsOk(l, w, next);
      case Spawn(t, entry, parameter, exit) => SpawnKeepsOk(l, w, t, entry, parameter, exit);
    }
  }

  /** Over a whole run the machine runs the thread the last hand-off named, however many
      hand-offs one interrupt made. */
  lemma {:induction false} RunFollowsHandoffs(l: Layout, w: World, es: seq<Event>, log: seq<Handoff>)
    requires WorldOk(l, w) && LegalRun(l, w, es) && Holder(log) == w.cur
    ensures Run(l, w, es).cur == Holder(log + Logs(es)) && WorldOk(l, Run(l, w, es))
    decreases |es|
  {
    hide WorldOk, Apply, Legal;
    if es == [] {
      assert log + Logs(es) == log;
    } else {
      StepResumes(l, w, es[0]);
      RunFollowsHandoffs(l, Apply(l, w, es[0]), es[1..], log + Log(es[0]));
      assert log + Log(es[0]) + Logs(es[1..]) == log + Logs(es);
    }
  }

  ghost predicate NeverRuns(l: Layout, w: World, es: seq<Event>, t: nat)
    requires WorldOk(l, w) && LegalRun(l, w, es)
    decreases |es|
  {
    t != w.cur && (es == [] || (StepResumes(l, w, es[0]); NeverRuns(l, Apply(l, w, es[0]), es[1..], t)))
  }

  /** A suspended thread's context survives any run of the others, and the event that next
      runs the thread restores it: r0-r12, sp, lr, pc and cpsr. */
  lemma {:induction false} ResumedAsSaved(l: Layout, w: World, es: seq<Event>, e: Event, t: nat)
    requires WorldOk(l, w) && LegalRun(l, w, es) && t in w.saved && NeverRuns(l, w, es, t)
    requires WorldOk(l, Run(l, w, es)) && Legal(l, Run(l, w, es), e)
    requires Apply(l, Run(l, w, es), e).cur == t
    ensures ContextOf(Apply(l, Run(l, w, es), e).m) == w.saved[t]
    decreases |es|
  {
    hide WorldOk, Apply, Legal;
    if es == [] {
      StepResumes(l, w, e);
    } else {
      StepResumes(l, w, es[0]);
      ResumedAsSaved(l, Apply(l, w, es[0]), es[1..], e, t);
    }
  }

  /** `context_switch_to` at scheduler start: the first thread begins with its own context. */
  lemma FirstThreadStarts(l: Layout, m: Machine, t: nat, saved: map<nat, Context>)
    requires LayoutOk(l) && |m.r| == 13 && Mode(m.cpsr) == SVC_MODE && Read(m.mem, l.sw.flag) != 1
    requires l.irqStack.lo + IRQ_SAVE <= m.irq.sp <= l.irqStack.hi
    requires t in saved && t < MAX_THREADS && forall u | u in saved :: Kept(l, m.mem, u, saved[u])
    requires m.r[0] == l.slots[t]
    ensures var m' := Restore(m, Saved(m.mem, m.r[0]));
            WorldOk(l, World(m', t, saved)) && ContextOf(m') == saved[t]
  {
    hide Saved;
    assert Kept(l, m.mem, t, saved[t]);
  }

  /** The machine is about to run a thread for the first time: at its entry point, with its
      parameter in r0 and nothing in the other registers, the exit stub as return address, the
      whole stack below sp, in SVC mode with interrupts enabled. */
  ghost predicate Begins(m: Machine, stack: Region, entry: nat, parameter: nat, exit: nat) {
    && m.pc == entry && m.svc.lr == exit && m.cpsr == 0x13
    && |m.r| == 13 && m.r[0] == parameter && (forall i | 1 <= i < 13 :: m.r[i] == 0)
    && m.svc.sp == stack.hi - stack.hi % 8
  }

  lemma InitialContextBegins(m: Machine, stack: Region, entry: nat, parameter: nat, exit: nat)
    requires ContextOf(m) == InitialContext(stack, entry, parameter, exit)
    ensures Begins(m, stack, entry, parameter, exit)
  {
  }

  /** The sixteen words `stack_init` leaves at the top of the stack, and where the table finds
      them. */
  lemma SpawnWritesFrame(l: Layout, w: World, t: nat, entry: nat, parameter: nat, exit: nat)
    requires WorldOk(l, w) && Legal(l, w, Spawn(t, entry, parameter, exit))
    ensures var mem, top := Apply(l, w, Spawn(t, entry, parameter, exit)).m.mem, l.stacks[t].hi - l.stacks[t].hi % 8;
            && top >= 64 && Read(mem, l.slots[t]) == top - 64
            && Read(mem, top - 64) == 0x13 && Read(mem, top - 60) == parameter
            && (forall k | 2 <= k < 14 :: Read(mem, top - 64 + 4 * k) == 0)
            && Read(mem, top - 8) == exit && Read(mem, top - 4) == entry
  {
    hide StoreWords, Save, Kept;
    var c := InitialContext(l.stacks[t], entry, parameter, exit);
    var mem, top := Apply(l, w, Spawn(t, entry, parameter, exit)).m.mem, StackTop(l.stacks[t]);
    FrameStored(l, w.m.mem, t, c);
    assert Read(mem, top - 64 + 4 * (0 + 1)) == c.r[0];
    forall k | 2 <= k < 14
      ensures Read(mem, top - 64 + 4 * k) == 0
    {
      assert Read(mem, top - 64 + 4 * ((k - 1) + 1)) == c.r[k - 1];
    }
  }

  lemma FrameStored(l: Layout, mem: Memory, t: nat, c: Context)
    requires LayoutOk(l) && t < MAX_THREADS && |c.r| == 13 && Room(l, t, c.sp)
    ensures var after := Save(mem, c, l.slots[t]);
            && Read(after, l.slots[t]) == c.sp - 64
            && Read(after, c.sp - 64) == c.cpsr && Read(after, c.sp - 8) == c.lr && Read(after, c.sp - 4) == c.pc
            && forall k | 0 <= k < 13 :: Read(after, c.sp - 64 + 4 * (k + 1)) == c.r[k]
  {
    hide StoreWords;
    assert !In(l.slots[t], l.stacks[t]) by { assert OnNoStack(l, l.slots[t]); }
    var ws := FrameWords(c);
    FrameParts(c);
    var stored := StoreWords(mem, c.sp - FRAME, ws);
    StoredWord(mem, c.sp - FRAME, ws, 0);
    StoredWord(mem, c.sp - FRAME, ws, 14);
    StoredWord(mem, c.sp - FRAME, ws, 15);
    forall k | 0 <= k < 13
      ensures Read(Save(mem, c, l.slots[t]), c.sp - 64 + 4 * (k + 1)) == c.r[k]
    {
      StoredWord(mem, c.sp - FRAME, ws, k + 1);
      assert In(c.sp - 64 + 4 * (k + 1), l.stacks[t]);
      assert ws[k + 1] == ws[1..14][k];
    }
    assert In(c.sp - 64, l.stacks[t]) && In(c.sp - 8, l.stacks[t]) && In(c.sp - 4, l.stacks[t]);
  }

  lemma SpawnedContext(l: Layout, w: World, t: nat, entry: nat, parameter: nat, exit: nat)
    requires WorldOk(l, w) && Legal(l, w, Spawn(t, entry, parameter, exit)) && t < |l.stacks|
    ensures var w1 := Apply(l, w, Spawn(t, entry, parameter, exit));
            t in w1.saved && w1.saved[t] == InitialContext(l.stacks[t], entry, parameter, exit)
  {
    hide WorldOk, Save;
  }

  lemma InLayout(l: Layout, w: World, t: nat)
    requires WorldOk(l, w) && t < MAX_THREADS
    ensures t < |l.stacks| && t < |l.slots|
  {
  }

  /** Whatever runs in between, the first event that runs a new thread starts it at its entry
      point, its parameter in r0, the exit stub in lr and its whole stack below sp. */
  lemma NewThreadStarts(l: Layout, w: World, w1: World, t: nat, entry: nat, parameter: nat, exit: nat, es: seq<Event>, e: Event)
    requires WorldOk(l, w) && Legal(l, w, Spawn(t, entry, parameter, exit))
    requires w1 == Apply(l, w, Spawn(t, entry, parameter, exit)) && WorldOk(l, w1)
    requires LegalRun(l, w1, es) && NeverRuns(l, w1, es, t)
    requires WorldOk(l, Run(l, w1, es)) && Legal(l, Run(l, w1, es), e) && Apply(l, Run(l, w1, es), e).cur == t
    ensures t < |l.stacks| && Begins(Apply(l, Run(l, w1, es), e).m, l.stacks[t], entry, parameter, exit)
  {
    hide WorldOk, LegalRun, NeverRuns, Run, Begins, Save, InitialContext;
    InLayout(l, w, t);
    SpawnedContext(l, w, t, entry, parameter, exit);
    ResumedAsSaved(l, w1, es, e, t);
    InitialContextBegins(Apply(l, Run(l, w1, es), e).m, l.stacks[t], entry, parameter, exit);
  }

  /** A cooperative switch, seen by the thread that leaves: when it next runs, `context_switch`
      has returned to its caller with every register and the stack as they were, and with
      interrupts enabled. */
  lemma SwitchReturns(l: Layout, w: World, w1: World, h: Handoff, es: seq<Event>, e: Event)
    requires WorldOk(l, w) && Legal(l, w, Switch(h)) && w1 == Apply(l, w, Switch(h)) && WorldOk(l, w1)
    requires LegalRun(l, w1, es) && NeverRuns(l, w1, es, w.cur)
    requires WorldOk(l, Run(l, w1, es)) && Legal(l, Run(l, w1, es), e) && Apply(l, Run(l, w1, es), e).cur == w.cur
    ensures var m := Apply(l, Run(l, w1, es), e).m;
            && m.pc == w.m.svc.lr && m.r == w.m.r && m.svc.sp == w.m.svc.sp && m.svc.lr == w.m.svc.lr
            && m.cpsr as int == w.m.cpsr - w.m.cpsr / 128 % 2 * 128
  {
    hide WorldOk, LegalRun, NeverRuns, ClearI;
    ClearIBit(w.m.cpsr);
    ResumedAsSaved(l, w1, es, e, w.cur);
  }

  /** An interrupt that switches, seen by the thread it interrupts: when it next runs, it goes
      on at the same instruction with nothing changed. */
  lemma InterruptReturns(l: Layout, w: World, w1: World, writes: Memory, hs: seq<Handoff>, es: seq<Event>, e: Event)
    requires WorldOk(l, w) && Legal(l, w, Interrupted(writes, hs)) && w1 == Apply(l, w, Interrupted(writes, hs))
    requires WorldOk(l, w1) && w1.cur != w.cur && LegalRun(l, w1, es) && NeverRuns(l, w1, es, w.cur)
    requires WorldOk(l, Run(l, w1, es)) && Legal(l, Run(l, w1, es), e) && Apply(l, Run(l, w1, es), e).cur == w.cur
    ensures var m := Apply(l, Run(l, w1, es), e).m;
            && m.pc == w.m.pc && m.r == w.m.r && m.svc.sp == w.m.svc.sp && m.svc.lr == w.m.svc.lr && m.cpsr == w.m.cpsr
  {
    hide WorldOk, LegalRun, NeverRuns, IrqSpec;
    ResumedAsSaved(l, w1, es, e, w.cur);
  }
}
