/** The context-switch assembly, instruction by instruction, on the machine of `ArmSpec`. */
module Arm {
  import opened ArmSpec

  /** A register list: r`lo` up to but not including r`hi`, then lr and pc if named. */
  datatype RegList = RegList(lo: nat, hi: nat, lr: bool, pc: bool)

  predicate ListOk(l: RegList) {
    l.lo <= l.hi <= 13
  }

  function Count(l: RegList): nat
    requires ListOk(l)
  {
    l.hi - l.lo + (if l.lr then 1 else 0) + (if l.pc then 1 else 0)
  }

  class Cpu {
    var r: seq<nat>
    var svc: Bank
    var irq: Bank
    var pc: nat
    var cpsr: nat
    var mem: Memory

    ghost predicate Valid()
      reads this
    {
      |r| == 13
    }

    function State(): Machine
      reads this
    {
      Machine(r, svc, irq, pc, cpsr, mem)
    }

    /** The bank the current mode sees. */
    function Current(): Bank
      reads this
    {
      if Mode(cpsr) == IRQ_MODE then irq else svc
    }

    method SetCurrent(b: Bank)
      modifies this`svc, this`irq
      ensures Current() == b
      ensures Mode(cpsr) == IRQ_MODE ==> svc == old(svc)
      ensures Mode(cpsr) != IRQ_MODE ==> irq == old(irq)
    {
      if Mode(cpsr) == IRQ_MODE {
        irq := b;
      } else {
        svc := b;
      }
    }

    function Values(l: RegList): seq<nat>
      reads this
      requires Valid() && ListOk(l)
    {
      r[l.lo..l.hi] + (if l.lr then [Current().lr] else []) + (if l.pc then [pc] else [])
    }

    /** `STMFD sp!, list` */
    method Push(l: RegList)
      requires Valid() && ListOk(l) && Current().sp >= WORD * Count(l)
      modifies this`svc, this`irq, this`mem
      ensures Current() == old(Current()).(sp := old(Current()).sp - WORD * Count(l))
      ensures mem == StoreWords(old(mem), Current().sp, old(Values(l)))
      ensures Mode(cpsr) == IRQ_MODE ==> svc == old(svc)
      ensures Mode(cpsr) != IRQ_MODE ==> irq == old(irq)
    {
      var b := Current();
      mem := StoreWords(mem, b.sp - WORD * Count(l), Values(l));
      SetCurrent(b.(sp := b.sp - WORD * Count(l)));
    }

    /** The registers of `list` take the words at `a`; a `^` with pc in the list restores
        cpsr from the current mode's spsr. */
    method LoadMultiple(a: nat, l: RegList, exception: bool)
      requires Valid() && ListOk(l)
      modifies this`r, this`svc, this`irq, this`pc, this`cpsr
      ensures Valid()
      ensures var ws := LoadWords(mem, a, Count(l));
              && r == old(r)[..l.lo] + ws[..l.hi - l.lo] + old(r)[l.hi..]
              && (l.pc ==> pc == ws[Count(l) - 1])
              && (!l.pc ==> pc == old(pc))
              && (if old(Mode(cpsr)) == IRQ_MODE
                  then svc == old(svc) && irq == old(irq).(lr := if l.lr then ws[l.hi - l.lo] else old(irq).lr)
                  else irq == old(irq) && svc == old(svc).(lr := if l.lr then ws[l.hi - l.lo] else old(svc).lr))
      ensures cpsr == if exception && l.pc then old(Current()).spsr else old(cpsr)
    {
      var ws := LoadWords(mem, a, Count(l));
      var b := Current();
      r := r[..l.lo] + ws[..l.hi - l.lo] + r[l.hi..];
      if l.lr {
        SetCurrent(b.(lr := ws[l.hi - l.lo]));
      }
      if l.pc {
        pc := ws[Count(l) - 1];
        if exception {
          cpsr := b.spsr;
        }
      }
    }

    /** `LDMFD sp!, list` */
    method Pop(l: RegList, exception: bool)
      requires Valid() && ListOk(l)
      modifies this`r, this`svc, this`irq, this`pc, this`cpsr
      ensures Valid()
      ensures var ws := LoadWords(mem, old(Current()).sp, Count(l));
              var sp := old(Current()).sp + WORD * Count(l);
              && r == old(r)[..l.lo] + ws[..l.hi - l.lo] + old(r)[l.hi..]
              && (l.pc ==> pc == ws[Count(l) - 1])
              && (!l.pc ==> pc == old(pc))
              && (if old(Mode(cpsr)) == IRQ_MODE
                  then svc == old(svc)
                       && irq == Bank(sp, if l.lr then ws[l.hi - l.lo] else old(irq).lr, old(irq).spsr)
                  else irq == old(irq)
                       && svc == Bank(sp, if l.lr then ws[l.hi - l.lo] else old(svc).lr, old(svc).spsr))
      ensures cpsr == if exception && l.pc then old(Current()).spsr else old(cpsr)
    {
      var a := Current().sp;
      SetCurrent(Current().(sp := a + WORD * Count(l)));
      LoadMultiple(a, l, exception);
    }

    method Set(d: nat, w: nat)
      requires Valid() && d < 13
      modifies this`r
      ensures Valid() && r == old(r)[d := w]
    {
      r := r[d := w];
    }

    /** `LDR sp, [a]` */
    method LoadSp(a: nat)
      modifies this`svc, this`irq
      ensures Current() == old(Current()).(sp := Read(mem, a))
      ensures Mode(cpsr) == IRQ_MODE ==> svc == old(svc)
      ensures Mode(cpsr) != IRQ_MODE ==> irq == old(irq)
    {
      SetCurrent(Current().(sp := Read(mem, a)));
    }

    method Store(a: nat, w: nat)
      modifies this`mem
      ensures mem == old(mem)[a := w]
    {
      mem := mem[a := w];
    }

    /** The last three instructions of all the switches, sp at a frame in SVC mode. */
    method RestoreFrame(slot: nat)
      requires Valid() && Mode(cpsr) == SVC_MODE && svc.sp == Read(mem, slot)
      modifies this`r, this`svc, this`irq, this`pc, this`cpsr
      ensures Valid() && mem == old(mem) && irq == old(irq)
      ensures State() == Restore(old(State()), Saved(mem, slot))
    {
      ghost var base := svc.sp;
      hide LoadWords;
      LoadSlice(mem, base, 0, 1, 16);
      LoadSlice(mem, base, 1, 15, 16);
      Pop(RegList(4, 5, false, false), false);
      svc := svc.(spsr := r[4]);
      Pop(RegList(0, 13, true, true), true);
    }

    /** `context_switch` */
    method ContextSwitch()
      requires Valid() && Mode(cpsr) == SVC_MODE && svc.sp >= FRAME
      modifies this
      ensures Valid() && State() == SwitchSpec(old(State()))
    {
      hide StoreWords, LoadWords, Saved, FrameWords, Mode;
      ghost var m := State();
      PushedFrame(m.mem, CooperativeContext(m));
      assert Values(RegList(0, 0, true, false)) == [m.svc.lr];
      Push(RegList(0, 0, true, false));
      assert Values(RegList(0, 13, true, false)) == m.r + [m.svc.lr];
      Push(RegList(0, 13, true, false));
      Set(4, cpsr);
      Set(4, ClearI(r[4]));
      assert Values(RegList(4, 5, false, false)) == [ClearI(m.cpsr)];
      Push(RegList(4, 5, false, false));
      Store(r[0], svc.sp);
      LoadSp(r[1]);
      RestoreFrame(r[1]);
    }

    /** `context_switch_to` */
    method ContextSwitchTo()
      requires Valid() && Mode(cpsr) == SVC_MODE
      modifies this
      ensures Valid() && State() == Restore(old(State()), Saved(old(mem), old(r[0])))
    {
      LoadSp(r[0]);
      RestoreFrame(r[0]);
    }

    /** `context_switch_interrupt` */
    method ContextSwitchInterrupt(sw: SwitchWords, q: Request)
      modifies this`mem
      ensures mem == RequestSpec(old(mem), sw, q)
    {
      if Read(mem, sw.flag) != 1 {
        Store(sw.flag, 1);
        Store(sw.from, q.from);
      }
      Store(sw.to, q.to);
    }

    /** Interrupt entry: the hardware's part, and the first instruction of `irq`. */
    method IrqEnter()
      requires Valid() && Mode(cpsr) == SVC_MODE && irq.sp >= IRQ_SAVE
      modifies this
      ensures Valid() && Mode(cpsr) == IRQ_MODE && r == old(r) && svc == old(svc)
      ensures irq == Bank(old(irq.sp) - IRQ_SAVE, old(pc) + WORD, old(cpsr))
      ensures mem == StoreWords(old(mem), irq.sp, old(r) + [old(pc) + WORD])
    {
      irq := Bank(irq.sp, pc + WORD, cpsr);
      cpsr := IrqEntryCpsr(cpsr);
      pc := 0x18;
      assert Values(RegList(0, 13, true, false)) == r + [irq.lr];
      Push(RegList(0, 13, true, false));
    }

    /** `trap_irq`: the handlers store `writes`, ask for the switches `qs` in turn, and may
        leave anything in r0-r3, r12 and lr. */
    method Handlers(writes: Memory, sw: SwitchWords, qs: seq<Request>, scratch: seq<nat>)
      requires Valid() && Mode(cpsr) == IRQ_MODE && |scratch| == 6
      modifies this`mem, this`r, this`irq
      ensures Valid() && irq.sp == old(irq.sp) && irq.spsr == old(irq.spsr)
      ensures mem == RequestAll(old(mem) + writes, sw, qs)
    {
      mem := mem + writes;
      ghost var start := mem;
      for k := 0 to |qs|
        invariant mem == RequestAll(start, sw, qs[..k]) && Valid() && irq == old(irq)
      {
        ContextSwitchInterrupt(sw, qs[k]);
        assert qs[..k + 1][..k] == qs[..k];
      }
      assert qs[..|qs|] == qs;
      r := scratch[..4] + r[4..12] + [scratch[4]];
      irq := irq.(lr := scratch[5]);
    }

    /** The exit without a switch. */
    method IrqReturn(ghost m: Machine)
      requires Valid() && Mode(cpsr) == IRQ_MODE && |m.r| == 13 && m.irq.sp >= IRQ_SAVE && svc == m.svc
      requires irq.sp == m.irq.sp - IRQ_SAVE && irq.spsr == m.cpsr
      requires LoadWords(mem, irq.sp, 14) == m.r + [m.pc + WORD]
      modifies this`r, this`svc, this`irq, this`pc, this`cpsr
      ensures Valid()
      ensures State() == m.(irq := Bank(m.irq.sp, m.pc + WORD, m.cpsr), mem := mem)
    {
      Pop(RegList(0, 13, true, false), false);
      pc := irq.lr - WORD;
      cpsr := irq.spsr;
    }

    /** `irq_context_switch`: the flag is cleared and the IRQ stack unwound, all but r0-r3
        back in registers ... */
    method IrqUnwind(ghost m: Machine, sw: SwitchWords)
      requires Valid() && Mode(cpsr) == IRQ_MODE && svc == m.svc && IrqApart(m, map[], sw)
      requires irq.sp == m.irq.sp - IRQ_SAVE && irq.spsr == m.cpsr
      requires LoadWords(mem, irq.sp, 14) == m.r + [m.pc + WORD]
      modifies this
      ensures Valid() && Mode(cpsr) == SVC_MODE && mem == old(mem)[sw.flag := 0]
      ensures irq == Bank(m.irq.sp, m.pc + WORD, m.cpsr) && svc == m.svc
      ensures r[0] == m.cpsr && r[1] == m.irq.sp - IRQ_SAVE && r[2] == m.pc && r[4..13] == m.r[4..13]
      ensures LoadWords(mem, m.irq.sp - IRQ_SAVE, 4) == m.r[0..4]
    {
      hide StoreWords, LoadWords, Read, Mode;
      Set(0, sw.flag);
      Set(1, 0);
      Store(r[0], r[1]);
      LoadsAgreeExcept(old(mem), mem, irq.sp, 14, sw.flag, 0);
      LoadSlice(mem, m.irq.sp - IRQ_SAVE, 4, 10, 14);
      LoadSlice(mem, m.irq.sp - IRQ_SAVE, 0, 4, 14);
      Set(1, irq.sp);
      irq := irq.(sp := irq.sp + 16);
      Pop(RegList(4, 13, true, false), false);
      assert r[4..13] == m.r[4..13];
      Set(0, irq.spsr);
      Set(2, irq.lr - WORD);
      cpsr := SvcControl(cpsr);
      assert r[4..13] == m.r[4..13];
    }

    /** ... then the interrupted thread's frame is built on its own stack ... */
    method IrqBuildFrame(ghost m: Machine)
      requires Valid() && Mode(cpsr) == SVC_MODE && svc == m.svc && IrqApartStacks(m)
      requires r[0] == m.cpsr && r[1] == m.irq.sp - IRQ_SAVE && r[2] == m.pc && r[4..13] == m.r[4..13]
      requires LoadWords(mem, m.irq.sp - IRQ_SAVE, 4) == m.r[0..4]
      modifies this`r, this`svc, this`irq, this`mem, this`pc, this`cpsr
      ensures Valid() && Mode(cpsr) == SVC_MODE
      ensures irq == old(irq) && svc == m.svc.(sp := m.svc.sp - FRAME)
      ensures mem == StoreWords(old(mem), m.svc.sp - FRAME, FrameWords(ContextOf(m)))
    {
      hide StoreWords, LoadWords, Read, Mode, FrameWords;
      PushedIrqFrame(mem, ContextOf(m));
      assert Values(RegList(2, 3, false, false)) == [m.pc];
      Push(RegList(2, 3, false, false));
      assert Values(RegList(4, 13, true, false)) == m.r[4..13] + [m.svc.lr];
      Push(RegList(4, 13, true, false));
      LoadsAgree(old(mem), mem, m.irq.sp - IRQ_SAVE, 4);
      LoadMultiple(r[1], RegList(1, 5, false, false), false);
      assert Values(RegList(1, 5, false, false)) == m.r[0..4];
      Push(RegList(1, 5, false, false));
      assert Values(RegList(0, 1, false, false)) == [m.cpsr];
      Push(RegList(0, 1, false, false));
    }

    /** ... then the stacks are swapped and the new thread restored. */
    method IrqSwitch(ghost m: Machine, sw: SwitchWords)
      requires Valid() && Mode(cpsr) == IRQ_MODE && svc == m.svc && IrqApart(m, map[], sw)
      requires irq.sp == m.irq.sp - IRQ_SAVE && irq.spsr == m.cpsr
      requires LoadWords(mem, irq.sp, 14) == m.r + [m.pc + WORD]
      modifies this
      ensures Valid()
      ensures var cleared := old(mem)[sw.flag := 0];
              var saved := Save(cleared, ContextOf(m), Read(cleared, sw.from));
              State() == Restore(m.(irq := Bank(m.irq.sp, m.pc + WORD, m.cpsr), mem := saved), Saved(saved, Read(saved, sw.to)))
    {
      hide StoreWords, LoadWords, Saved, Read, Mode, FrameWords;
      ghost var cleared := mem[sw.flag := 0];
      IrqUnwind(m, sw);
      IrqBuildFrame(m);
      FrameParts(ContextOf(m));
      Set(4, sw.from);
      Set(5, Read(mem, r[4]));
      assert r[5] == Read(cleared, sw.from);
      Store(r[5], svc.sp);
      ghost var saved := Save(cleared, ContextOf(m), Read(cleared, sw.from));
      assert mem == saved;
      Set(6, sw.to);
      Set(6, Read(mem, r[6]));
      LoadSp(r[6]);
      RestoreFrame(r[6]);
    }

    /** `irq`, from the interrupted thread to the thread resumed. */
    method Irq(writes: Memory, sw: SwitchWords, qs: seq<Request>, scratch: seq<nat>)
      requires Valid() && Mode(cpsr) == SVC_MODE && IrqApart(State(), writes, sw) && |scratch| == 6
      modifies this
      ensures Valid() && State() == IrqSpec(old(State()), writes, sw, qs)
    {
      hide StoreWords, LoadWords, Saved, Read, RequestAll, Save;
      ghost var m := State();
      IrqFrameStands(m, writes, sw, qs);
      IrqEnter();
      Handlers(writes, sw, qs, scratch);
      Set(0, sw.flag);
      Set(1, Read(mem, r[0]));
      if r[1] == 1 {
        IrqSwitch(m, sw);
      } else {
        IrqReturn(m);
      }
    }
  }

  /** The three pushes of `context_switch` build a frame. */
  lemma PushedFrame(mem: Memory, c: Context)
    requires |c.r| == 13 && c.sp >= FRAME
    ensures StoreWords(StoreWords(StoreWords(mem, c.sp - 4, [c.pc]), c.sp - 60, c.r + [c.lr]), c.sp - FRAME, [c.cpsr])
            == StoreWords(mem, c.sp - FRAME, FrameWords(c))
  {
    hide StoreWords;
    StoreAppend(mem, c.sp - 60, c.r + [c.lr], [c.pc]);
    StoreAppend(mem, c.sp - FRAME, [c.cpsr], c.r + [c.lr] + [c.pc]);
    assert [c.cpsr] + (c.r + [c.lr] + [c.pc]) == FrameWords(c);
  }

  lemma LoadsAgreeExcept(mem: Memory, other: Memory, a: nat, n: nat, x: nat, w: nat)
    requires x < a || x >= a + WORD * n
    requires other == mem[x := w]
    ensures LoadWords(mem, a, n) == LoadWords(other, a, n)
  {
  }

  /** ... and so do the four of the interrupt exit. */
  lemma PushedIrqFrame(mem: Memory, c: Context)
    requires |c.r| == 13 && c.sp >= FRAME
    ensures StoreWords(StoreWords(StoreWords(StoreWords(mem, c.sp - 4, [c.pc]), c.sp - 44, c.r[4..13] + [c.lr]),
                                  c.sp - 60, c.r[0..4]), c.sp - FRAME, [c.cpsr])
            == StoreWords(mem, c.sp - FRAME, FrameWords(c))
  {
    hide StoreWords;
    var upper := c.r[4..13] + [c.lr];
    StoreAppend(mem, c.sp - 44, upper, [c.pc]);
    StoreAppend(mem, c.sp - 60, c.r[0..4], upper + [c.pc]);
    StoreAppend(mem, c.sp - FRAME, [c.cpsr], c.r[0..4] + (upper + [c.pc]));
    assert [c.cpsr] + (c.r[0..4] + (upper + [c.pc])) == FrameWords(c);
  }
}
