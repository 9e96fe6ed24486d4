/** A small ARMv5 machine: thirteen general registers, the SVC and IRQ banks of sp, lr and
    spsr, and word memory; and what the context-switch assembly does to it.

    Instruction meaning follows ARM DDI 0100I, sections A2.6 and A4.1. Words are natural
    numbers; addresses are byte addresses of aligned words. */
module ArmSpec {
  import opened Arithmetic

  type Memory = map<nat, nat>

  const WORD: nat := 4
  const FRAME: nat := 64
  const IRQ_SAVE: nat := 56
  const SVC_MODE: nat := 0x13
  const IRQ_MODE: nat := 0x12
  const SVC_NO_IRQ: nat := 0xD3
  const I_BIT: nat := 0x80

  datatype Bank = Bank(sp: nat, lr: nat, spsr: nat)

  datatype Machine = Machine(r: seq<nat>, svc: Bank, irq: Bank, pc: nat, cpsr: nat, mem: Memory)

  function Mode(cpsr: nat): nat {
    cpsr % 32
  }

  /** `BIC rd, rn, #0x80` */
  function ClearI(w: nat): nat {
    if w / I_BIT % 2 == 1 then w - I_BIT else w
  }

  /** The status register on interrupt entry: IRQ mode, ARM state, IRQs off. */
  function IrqEntryCpsr(w: nat): (c: nat)
    ensures Mode(c) == IRQ_MODE
  {
    w - w % 256 + 0x92 + w / 64 % 2 * 64
  }

  /** `MSR cpsr_c, #0xd3` */
  function SvcControl(w: nat): (c: nat)
    ensures Mode(c) == SVC_MODE
  {
    w - w % 256 + SVC_NO_IRQ
  }

  lemma ClearIFacts(w: nat)
    ensures ClearI(w) / I_BIT % 2 == 0 && Mode(ClearI(w)) == Mode(w)
    ensures w / I_BIT % 2 == 0 ==> ClearI(w) == w
  {
    var q, r := w / I_BIT, w % I_BIT;
    if q % 2 == 1 {
      Halves(q);
      assert ClearI(w) == I_BIT * (q - 1) + r;
      DivisionIsUnique(ClearI(w), I_BIT, q - 1, r);
      DivisionIsUnique(ClearI(w), 32, 4 * (q - 1) + r / 32, r % 32);
      DivisionIsUnique(w, 32, 4 * q + r / 32, r % 32);
    }
  }

  lemma ClearIBit(w: nat)
    ensures w / 128 % 2 * 128 <= w && ClearI(w) == w - w / 128 % 2 * 128
  {
  }

  lemma Halves(q: nat)
    requires q % 2 == 1
    ensures (q - 1) % 2 == 0
  {
  }

  // ---- Memory ----

  function Read(mem: Memory, a: nat): nat {
    if a in mem then mem[a] else 0
  }

  function StoreWords(mem: Memory, a: nat, ws: seq<nat>): (r: Memory)
    ensures forall x: nat | x < a || x >= a + WORD * |ws| :: Read(r, x) == Read(mem, x)
    decreases |ws|
  {
    if ws == [] then mem else StoreWords(mem[a := ws[0]], a + WORD, ws[1..])
  }

  function LoadWords(mem: Memory, a: nat, n: nat): (ws: seq<nat>)
    ensures |ws| == n
    ensures forall i | 0 <= i < n :: ws[i] == Read(mem, a + WORD * i)
    decreases n
  {
    if n == 0 then [] else LoadWords(mem, a, n - 1) + [Read(mem, a + WORD * (n - 1))]
  }

  lemma {:induction false} StoredWord(mem: Memory, a: nat, ws: seq<nat>, i: nat)
    requires i < |ws|
    ensures Read(StoreWords(mem, a, ws), a + WORD * i) == ws[i]
    decreases |ws|
  {
    if i > 0 {
      StoredWord(mem[a := ws[0]], a + WORD, ws[1..], i - 1);
    }
  }

  lemma LoadsWhatWasStored(mem: Memory, a: nat, ws: seq<nat>)
    ensures LoadWords(StoreWords(mem, a, ws), a, |ws|) == ws
  {
    forall i | 0 <= i < |ws|
      ensures LoadWords(StoreWords(mem, a, ws), a, |ws|)[i] == ws[i]
    {
      StoredWord(mem, a, ws, i);
    }
  }

  /** Words read the same where memory is the same. */
  lemma LoadsAgree(mem: Memory, other: Memory, a: nat, n: nat)
    requires forall x | a <= x < a + WORD * n :: Read(mem, x) == Read(other, x)
    ensures LoadWords(mem, a, n) == LoadWords(other, a, n)
  {
  }

  lemma LoadSlice(mem: Memory, a: nat, i: nat, n: nat, total: nat)
    requires i + n <= total
    ensures LoadWords(mem, a + WORD * i, n) == LoadWords(mem, a, total)[i..i + n]
  {
  }

  lemma {:induction false} StoreAppend(mem: Memory, a: nat, lower: seq<nat>, upper: seq<nat>)
    ensures StoreWords(StoreWords(mem, a + WORD * |lower|, upper), a, lower) == StoreWords(mem, a, lower + upper)
    decreases |lower|
  {
    if lower == [] {
      assert lower + upper == upper;
    } else {
      var rest := lower[1..];
      assert (lower + upper)[1..] == rest + upper;
      StoreAppend(mem[a := lower[0]], a + WORD, rest, upper);
      StoreCommutes(mem, a, lower[0], a + WORD * |lower|, upper);
    }
  }

  lemma {:induction false} StoreCommutes(mem: Memory, x: nat, w: nat, a: nat, ws: seq<nat>)
    requires x < a
    ensures StoreWords(mem[x := w], a, ws) == StoreWords(mem, a, ws)[x := w]
    decreases |ws|
  {
    if ws != [] {
      assert mem[x := w][a := ws[0]] == mem[a := ws[0]][x := w];
      StoreCommutes(mem[a := ws[0]], x, w, a + WORD, ws[1..]);
    }
  }

  // ---- Frames ----

  /** What a thread runs with. */
  datatype Context = Context(r: seq<nat>, sp: nat, lr: nat, pc: nat, cpsr: nat)

  /** The 16-word frame, low address first. */
  function FrameWords(c: Context): seq<nat> {
    [c.cpsr] + c.r + [c.lr, c.pc]
  }

  lemma FrameParts(c: Context)
    requires |c.r| == 13
    ensures var ws := FrameWords(c);
            |ws| == 16 && ws[0] == c.cpsr && ws[1..14] == c.r && ws[14] == c.lr && ws[15] == c.pc
  {
  }

  /** The frame stored below the thread's stack pointer, and its address in the thread's
      `sp` field. */
  function Save(mem: Memory, c: Context, slot: nat): Memory
    requires c.sp >= FRAME
  {
    StoreWords(mem, c.sp - FRAME, FrameWords(c))[slot := c.sp - FRAME]
  }

  /** The context found through a thread's `sp` field. */
  function Saved(mem: Memory, slot: nat): Context {
    var base := Read(mem, slot);
    var ws := LoadWords(mem, base, 16);
    Context(ws[1..14], base + FRAME, ws[14], ws[15], ws[0])
  }

  lemma SaveRoundTrip(mem: Memory, c: Context, slot: nat)
    requires c.sp >= FRAME && |c.r| == 13 && (slot < c.sp - FRAME || slot >= c.sp)
    ensures Saved(Save(mem, c, slot), slot) == c
  {
    hide StoreWords, LoadWords, FrameWords;
    FrameParts(c);
    var stored := StoreWords(mem, c.sp - FRAME, FrameWords(c));
    LoadsWhatWasStored(mem, c.sp - FRAME, FrameWords(c));
    LoadsAgree(stored, Save(mem, c, slot), c.sp - FRAME, 16);
  }

  /** A saved context stands as long as its field and its frame are left alone. */
  lemma SavedAgrees(mem: Memory, other: Memory, slot: nat)
    requires Read(mem, slot) == Read(other, slot)
    requires forall x | Read(mem, slot) <= x < Read(mem, slot) + FRAME :: Read(mem, x) == Read(other, x)
    ensures Saved(mem, slot) == Saved(other, slot)
  {
  }

  // ---- The routines ----

  function ContextOf(m: Machine): Context {
    Context(m.r, m.svc.sp, m.svc.lr, m.pc, m.cpsr)
  }

  /** The machine runs `c`; the SVC bank's spsr is left holding its cpsr. */
  function Restore(m: Machine, c: Context): Machine {
    m.(r := c.r, svc := Bank(c.sp, c.lr, c.cpsr), pc := c.pc, cpsr := c.cpsr)
  }

  /** What `context_switch` saves for its caller: it will go on at the return address, with
      interrupts enabled. */
  function CooperativeContext(m: Machine): Context {
    ContextOf(m).(pc := m.svc.lr, cpsr := ClearI(m.cpsr))
  }

  /** `context_switch(from, to)`, the `sp` field addresses in r0 and r1. */
  function SwitchSpec(m: Machine): Machine
    requires |m.r| == 13 && m.svc.sp >= FRAME
  {
    var mem := Save(m.mem, CooperativeContext(m), m.r[0]);
    Restore(m.(mem := mem), Saved(mem, m.r[1]))
  }

  /** The words the interrupt-exit switch is asked through. */
  datatype SwitchWords = SwitchWords(flag: nat, from: nat, to: nat)

  datatype Request = Request(from: nat, to: nat)

  /** `context_switch_interrupt`: the first request sets both ends, later ones only the
      destination. */
  function RequestSpec(mem: Memory, sw: SwitchWords, q: Request): Memory {
    if Read(mem, sw.flag) == 1 then mem[sw.to := q.to]
    else mem[sw.flag := 1][sw.from := q.from][sw.to := q.to]
  }

  function RequestAll(mem: Memory, sw: SwitchWords, qs: seq<Request>): Memory {
    if qs == [] then mem else RequestSpec(RequestAll(mem, sw, qs[..|qs| - 1]), sw, qs[|qs| - 1])
  }

  /** Memory when the interrupt handlers have run: the interrupted registers are on the IRQ
      stack, `writes` is everything else the handlers stored. */
  function AfterHandlers(m: Machine, writes: Memory, sw: SwitchWords, qs: seq<Request>): Memory
    requires m.irq.sp >= IRQ_SAVE
  {
    RequestAll(StoreWords(m.mem, m.irq.sp - IRQ_SAVE, m.r + [m.pc + WORD]) + writes, sw, qs)
  }

  /** A whole interrupt: entry, handlers, and the exit that switches if asked to. */
  function IrqSpec(m: Machine, writes: Memory, sw: SwitchWords, qs: seq<Request>): Machine
    requires |m.r| == 13 && m.svc.sp >= FRAME && m.irq.sp >= IRQ_SAVE
  {
    var mem := AfterHandlers(m, writes, sw, qs);
    var m1 := m.(irq := Bank(m.irq.sp, m.pc + WORD, m.cpsr));
    if Read(mem, sw.flag) != 1 then m1.(mem := mem)
    else
      var cleared := mem[sw.flag := 0];
      var saved := Save(cleared, ContextOf(m), Read(cleared, sw.from));
      Restore(m1.(mem := saved), Saved(saved, Read(saved, sw.to)))
  }

  predicate Outside(a: nat, top: nat, size: nat) {
    a < top - size || a >= top
  }

  ghost predicate IrqApartStacks(m: Machine) {
    && |m.r| == 13 && m.svc.sp >= FRAME && m.irq.sp >= IRQ_SAVE
    && (m.svc.sp <= m.irq.sp - IRQ_SAVE || m.irq.sp <= m.svc.sp - FRAME)
  }

  /** The interrupted thread's frame, the IRQ stack's frame and the switch words do not
      overlap, and the handlers leave the IRQ frame and the switch words alone. */
  ghost predicate IrqApart(m: Machine, writes: Memory, sw: SwitchWords) {
    && IrqApartStacks(m)
    && Outside(sw.flag, m.irq.sp, IRQ_SAVE) && Outside(sw.from, m.irq.sp, IRQ_SAVE) && Outside(sw.to, m.irq.sp, IRQ_SAVE)
    && Outside(sw.flag, m.svc.sp, FRAME) && Outside(sw.from, m.svc.sp, FRAME) && Outside(sw.to, m.svc.sp, FRAME)
    && sw.flag != sw.from && sw.from != sw.to && sw.to != sw.flag
    && forall x | x in writes :: Outside(x, m.irq.sp, IRQ_SAVE) && x != sw.flag && x != sw.from && x != sw.to
  }

  lemma {:induction false} RequestsKeep(mem: Memory, sw: SwitchWords, qs: seq<Request>, a: nat)
    requires a != sw.flag && a != sw.from && a != sw.to
    ensures Read(RequestAll(mem, sw, qs), a) == Read(mem, a)
    decreases |qs|
  {
    if qs != [] {
      RequestsKeep(mem, sw, qs[..|qs| - 1], a);
    }
  }

  /** The interrupted registers are still on the IRQ stack when the handlers are done. */
  lemma IrqFrameStands(m: Machine, writes: Memory, sw: SwitchWords, qs: seq<Request>)
    requires IrqApart(m, writes, sw)
    ensures LoadWords(AfterHandlers(m, writes, sw, qs), m.irq.sp - IRQ_SAVE, 14) == m.r + [m.pc + WORD]
  {
    hide StoreWords, LoadWords, RequestAll;
    var ws := m.r + [m.pc + WORD];
    var base := m.irq.sp - IRQ_SAVE;
    var pushed := StoreWords(m.mem, base, ws);
    LoadsWhatWasStored(m.mem, base, ws);
    forall x | base <= x < base + WORD * 14
      ensures Read(pushed, x) == Read(AfterHandlers(m, writes, sw, qs), x)
    {
      RequestsKeep(pushed + writes, sw, qs, x);
      assert x !in writes;
    }
    LoadsAgree(pushed, AfterHandlers(m, writes, sw, qs), base, 14);
  }
}
