/** Whole transfers: what the bus must have carried when the driver reports success, and that
    every transfer ends. */
module TwiRuns {
  import opened Common
  import opened TwiSpec

  // ---- For any status at all ----

  /** Whatever the status: no index reaches the message length, at most the byte at the
      current index of the current message's own buffer changes. */
  lemma AnyStatusIsSafe(ch: Channel, state: Code, data: Byte, i: nat)
    requires ChannelOk(ch)
    ensures var r := CoreStep(ch, state, data).0;
            && ChannelOk(r)
            && |r.tx| == |ch.tx| && |r.rx| == |ch.rx|
            && (i < |ch.tx| && r.tx[i] != ch.tx[i] ==>
                  ch.idx < ch.num && ch.msgs[ch.idx].Some? && !ch.msgs[ch.idx].value.read
                  && i == ch.ptr < ch.msgs[ch.idx].value.len)
            && (i < |ch.rx| && r.rx[i] != ch.rx[i] ==>
                  ch.idx < ch.num && ch.msgs[ch.idx].Some? && ch.msgs[ch.idx].value.read
                  && i == ch.ptr < ch.msgs[ch.idx].value.len)
  {
    hide AddressByte;
  }

  /** Which status numbers let the transfer go on, and the code any other one ends it with:
      minus the number, except that 0xD8 counts as 0x20 and 0x00 as success. */
  lemma StatusDecides(ch: Channel, state: Code, data: Byte)
    requires ChannelOk(ch) && ch.status == Running && ch.idx < ch.num && ch.msgs[ch.idx].Some?
    ensures var r, len := CoreStep(ch, state, data).0, ch.msgs[ch.idx].value.len;
            var goesOn := state in {0x08, 0x10, 0x18, 0x28, 0x40, 0xD0}
                          || (state == 0x50 && ch.ptr < len) || (state == 0x58 && ch.ptr + 1 == len);
            && (r.status == Running || r.idx == 0 <==> goesOn || state == 0x00)
            && (!goesOn ==> r.status == Idle && r.woken)
            && (!goesOn && state != 0x00 ==> r.idx == 0x1_0000_0000 - if state == 0xD8 then 0x20 else state as int)
  {
    hide AddressByte;
  }

  /** The numbers the controller reports: after START or a repeated one, after an address to
      write or to read from, after a byte sent, after a byte received, and after a lost bus. */
  lemma ControllerReports(c: Controller, r: Reply)
    requires !c.flag && (r.answer == Ack || r.answer == Nack)
    ensures var d, acked := Respond(c, r), r.answer == Ack;
            && (c.sta ==> d.status == if c.bus == [] then 0x08 else 0x10)
            && (!c.sta && c.status in {0x08, 0x10} && c.data & 1 == 0 ==> d.status == if acked then 0x18 else 0x20)
            && (!c.sta && c.status in {0x08, 0x10} && c.data & 1 == 1 ==> d.status == if acked then 0x40 else 0x48)
            && (!c.sta && c.status in {0x18, 0x28} ==> d.status == if acked then 0x28 else 0x30)
            && (!c.sta && c.status in {0x40, 0x50} ==> d.status == if c.ack then 0x50 else 0x58)
            && (c.sta || c.status in {0x08, 0x10, 0x18, 0x28} ==> Respond(c, r.(answer := Lost)).status == 0x38)
  {
  }

  // ---- A transfer ----

  /** What `xfer` was asked for: bytes to write, if any, then bytes to read, if any. */
  datatype Job = Job(addr: Byte, w: seq<Byte>, rlen: nat)

  ghost predicate JobOk(job: Job) {
    |job.w| <= 256 && job.rlen <= ISIZE_MAX && (job.w != [] || job.rlen > 0)
  }

  function Messages(job: Job): (ms: seq<Msg>)
    ensures |ms| <= 2
  {
    (if job.w == [] then [] else [Msg(job.addr, false, |job.w|)])
    + (if job.rlen == 0 then [] else [Msg(job.addr, true, job.rlen)])
  }

  function Slots(ms: seq<Msg>): seq<Option<Msg>>
    requires |ms| <= 2
  {
    [if |ms| > 0 then Some(ms[0]) else None, if |ms| > 1 then Some(ms[1]) else None]
  }

  function SentEvents(w: seq<Byte>, n: nat): seq<BusEvent>
    requires n <= |w|
  {
    if n == 0 then [] else SentEvents(w, n - 1) + [Sent(w[n - 1], true)]
  }

  /** The first `n` of `len` bytes received: all but the last of the `len` acknowledged. */
  function ReceivedEvents(rx: seq<Byte>, n: nat, len: nat): seq<BusEvent>
    requires n <= |rx|
  {
    if n == 0 then [] else ReceivedEvents(rx, n - 1, len) + [Received(rx[n - 1], n < len)]
  }

  function AddressedTo(job: Job, read: bool): BusEvent {
    Address(job.addr & 0x7F, read, true)
  }

  /** START, address for writing, and the first `n` bytes written. */
  function WritePart(job: Job, n: nat): seq<BusEvent>
    requires n <= |job.w|
  {
    if job.w == [] then [] else [Start, AddressedTo(job, false)] + SentEvents(job.w, n)
  }

  function Opening(job: Job): BusEvent {
    if job.w == [] then Start else RepeatedStart
  }

  /** The whole transfer, STOP excepted. */
  function FullTrace(job: Job, rx: seq<Byte>): seq<BusEvent>
    requires job.rlen <= |rx|
  {
    WritePart(job, |job.w|)
    + if job.rlen == 0 then [] else [Opening(job), AddressedTo(job, true)] + ReceivedEvents(rx, job.rlen, job.rlen)
  }

  /** The bus before message `m` starts. */
  function Lead(job: Job, read: bool): seq<BusEvent> {
    if read then WritePart(job, |job.w|) else []
  }

  function OpenMsg(job: Job, read: bool): seq<BusEvent> {
    Lead(job, read) + [if read then Opening(job) else Start]
  }

  /** A running transfer between two bus actions: the bus carries exactly what has been done,
      and the controller is about to do the next thing. */
  ghost predicate Underway(s: System, job: Job) {
    && JobOk(job)
    && ChannelOk(s.ch)
    && s.ch.status == Running && !s.ch.woken
    && s.ctl.inten && !s.ctl.flag
    && s.ch.msgs == Slots(Messages(job)) && s.ch.num == |Messages(job)| && s.ch.idx < s.ch.num
    && |s.ch.rx| == job.rlen && |job.w| <= |s.ch.tx| && s.ch.tx[..|job.w|] == job.w
    && Doing(s, job, Messages(job)[s.ch.idx])
  }

  ghost predicate Doing(s: System, job: Job, m: Msg)
    requires |s.ch.rx| == job.rlen
  {
    match NextAction(s.ctl)
    case DoStart => s.ch.ptr == 0 && !s.ctl.ack && s.ctl.bus == Lead(job, m.read)
    case DoAddress =>
      s.ch.ptr == 0 && !s.ctl.ack && s.ctl.data == AddressByte(m) && s.ctl.bus == OpenMsg(job, m.read)
    case DoSend =>
      && !m.read && !s.ctl.ack && 1 <= s.ch.ptr <= |job.w| && s.ctl.data == job.w[s.ch.ptr - 1]
      && s.ctl.bus == WritePart(job, s.ch.ptr - 1)
    case DoReceive =>
      && m.read && s.ch.ptr < job.rlen && (s.ctl.ack <==> s.ch.ptr + 1 < job.rlen)
      && s.ctl.bus == OpenMsg(job, true) + [AddressedTo(job, true)] + ReceivedEvents(s.ch.rx, s.ch.ptr, job.rlen)
    case Nothing => false
  }

  /** The transfer has ended and said so: interrupts are off, the channel is idle. */
  ghost predicate Ended(s: System) {
    s.ch.woken && s.ch.status == Idle && !s.ctl.inten && s.ch.num == 0 && ChannelOk(s.ch)
  }

  ghost predicate Success(s: System) {
    Ended(s) && s.ch.idx == s.ch.num
  }

  /** Bus actions still to come, at most. */
  function Remaining(s: System): nat {
    if s.ch.idx >= |s.ch.msgs| || s.ch.status == Idle then 0
    else
      var done := match NextAction(s.ctl)
        case DoStart => 0
        case DoAddress => 1
        case DoSend => 1 + s.ch.ptr
        case DoReceive => 2 + s.ch.ptr
        case Nothing => 0;
      var all := Cost(s.ch.msgs[s.ch.idx]) + if s.ch.idx == 0 && |s.ch.msgs| > 1 then Cost(s.ch.msgs[1]) else 0;
      if all < done then 0 else all - done
  }

  function Cost(m: Option<Msg>): nat {
    if m.Some? then m.value.len + 2 else 0
  }

  lemma AddressByteDecodes(m: Msg)
    ensures AddressByte(m) & 1 == (if m.read then 1 else 0)
    ensures AddressByte(m) >> 1 == m.addr & 0x7F
  {
  }

  lemma OneOp(c: Controller, a: RegOp)
    ensures ApplyOps(c, [a]) == ApplyOp(c, a)
  {
  }

  lemma TwoOps(c: Controller, a: RegOp, b: RegOp)
    ensures ApplyOps(c, [a, b]) == ApplyOp(ApplyOp(c, a), b)
  {
    hide ApplyOp;
    assert [a, b][1..] == [b];
    OneOp(ApplyOp(c, a), b);
  }

  /** What one bus action does to a running transfer. */
  ghost predicate StepOutcome(s: System, t: System, job: Job, r: Reply) {
    if Underway(t, job) then Remaining(t) < Remaining(s) && t.ch.tx == s.ch.tx
    else
      && Ended(t)
      && |t.ch.rx| == job.rlen
      && (Success(t) ==> (r.answer != Fault <==> t.ctl.bus == FullTrace(job, t.ch.rx)))
      && (r.answer == Ack ==> Success(t))
      && (r.answer == Fault ==> Success(t))
  }

  /** The interrupt that follows a bus action, spelled out. */
  lemma Interrupted(s: System, r: Reply)
    requires ChannelOk(s.ch) && s.ctl.inten && !s.ctl.flag && NextAction(s.ctl) != Nothing
    ensures var c := Respond(s.ctl, r);
            var (ch, ops) := CoreStep(s.ch, c.status, c.data);
            BusStep(s, r) == System(ch, ApplyOps(c, ops).(inten := ch.status == Running))
  {
  }

  /** Whether the reply ends the transfer at this action. */
  ghost predicate Breaks(s: System, r: Reply) {
    match r.answer
    case Ack => false
    case Nack => NextAction(s.ctl) == DoAddress || NextAction(s.ctl) == DoSend
    case Lost => NextAction(s.ctl) != DoReceive
    case Fault => true
  }

  lemma {:induction false} SentLength(w: seq<Byte>, n: nat)
    requires n <= |w|
    ensures |SentEvents(w, n)| == n
  {
    if n > 0 {
      SentLength(w, n - 1);
    }
  }

  lemma {:induction false} ReceivedLength(rx: seq<Byte>, n: nat, len: nat)
    requires n <= |rx|
    ensures |ReceivedEvents(rx, n, len)| == n
  {
    if n > 0 {
      ReceivedLength(rx, n - 1, len);
    }
  }

  /** While a transfer runs, its bus trace is incomplete. */
  lemma BusIsShort(s: System, job: Job, rx: seq<Byte>)
    requires Underway(s, job) && |rx| == job.rlen
    ensures |s.ctl.bus| < |FullTrace(job, rx)|
  {
    hide AddressByte, SentEvents, ReceivedEvents, Slots, Messages;
    CurrentMessage(s, job);
    SentLength(job.w, |job.w|);
    ReceivedLength(rx, job.rlen, job.rlen);
    match NextAction(s.ctl) {
      case DoSend => SentLength(job.w, s.ch.ptr - 1);
      case DoReceive => ReceivedLength(s.ch.rx, s.ch.ptr, job.rlen);
      case DoStart =>
      case DoAddress =>
      case Nothing =>
    }
  }

  lemma FaultStep(s: System, job: Job, r: Reply)
    requires Underway(s, job) && r.answer == Fault
    ensures StepOutcome(s, BusStep(s, r), job, r)
  {
    hide AddressByte, BusStep, Isr, Slots, Messages, FullTrace;
    Interrupted(s, r);
    CurrentMessage(s, job);
    BusIsShort(s, job, s.ch.rx);
  }

  lemma RefusedStep(s: System, job: Job, r: Reply)
    requires Underway(s, job) && Breaks(s, r) && r.answer != Fault
    ensures StepOutcome(s, BusStep(s, r), job, r)
  {
    hide AddressByte, BusStep, Isr, Slots, Messages, FullTrace;
    Interrupted(s, r);
    CurrentMessage(s, job);
    assert Respond(s.ctl, r).status in {ARB_LOST, TX_AR_NAK, TX_AW_NAK, TXD_NAK};
  }

  lemma CurrentMessage(s: System, job: Job)
    requires Underway(s, job)
    ensures s.ch.idx < 2 && s.ch.msgs[s.ch.idx] == Some(Messages(job)[s.ch.idx])
    ensures Messages(job)[s.ch.idx].len == if Messages(job)[s.ch.idx].read then job.rlen else |job.w|
    ensures Messages(job)[s.ch.idx].read <==> s.ch.idx == 1 || job.w == []
    ensures s.ch.idx + 1 >= s.ch.num <==> Messages(job)[s.ch.idx].read || job.rlen == 0
    ensures Messages(job)[s.ch.idx].len > 0
  {
  }

  lemma StartStep(s: System, job: Job, r: Reply)
    requires Underway(s, job) && NextAction(s.ctl) == DoStart && !Breaks(s, r)
    ensures StepOutcome(s, BusStep(s, r), job, r)
  {
    hide NextMsg, SendOrNext, StoreByte, Complete, AddressByte, BusStep, Isr, Slots;
    var t := BusStep(s, r);
    Interrupted(s, r);
    CurrentMessage(s, job);
    var m := Messages(job)[s.ch.idx];
    assert s.ctl.bus == [] <==> s.ch.idx == 0;
    OneOp(Respond(s.ctl, r), PutByte(AddressByte(m)));
    assert t.ctl.bus == OpenMsg(job, m.read);
    assert Underway(t, job);
  }

  lemma AddressReadStep(s: System, job: Job, r: Reply)
    requires Underway(s, job) && NextAction(s.ctl) == DoAddress && !Breaks(s, r) && Messages(job)[s.ch.idx].read
    ensures r.answer == Ack ==> StepOutcome(s, BusStep(s, r), job, r)
  {
    hide AddressByte, BusStep, Slots;
    if r.answer == Ack {
      var t := BusStep(s, r);
      CurrentMessage(s, job);
      AddressReadNext(s, job, r);
      assert t.ctl.bus == OpenMsg(job, true) + [AddressedTo(job, true)] + ReceivedEvents(t.ch.rx, 0, job.rlen);
      assert Underway(t, job);
    }
  }

  lemma AddressReadNext(s: System, job: Job, r: Reply)
    requires Underway(s, job) && NextAction(s.ctl) == DoAddress && Messages(job)[s.ch.idx].read && r.answer == Ack
    ensures var t := BusStep(s, r);
            && t.ch == s.ch && t.ctl.inten && !t.ctl.flag && NextAction(t.ctl) == DoReceive
            && (t.ctl.ack <==> job.rlen > 1)
            && t.ctl.bus == s.ctl.bus + [AddressedTo(job, true)]
  {
    hide AddressByte, BusStep, Isr, Slots, SendOrNext, StoreByte, Complete, ReceivedEvents, WritePart;
    Interrupted(s, r);
    CurrentMessage(s, job);
    AddressByteDecodes(Messages(job)[s.ch.idx]);
    var c := Respond(s.ctl, r);
    assert c.status == TX_AR_ACK;
    TwoOps(c, AckOn, ClearFlag);
    OneOp(c, ClearFlag);
  }

  lemma AddressWriteStep(s: System, job: Job, r: Reply)
    requires Underway(s, job) && NextAction(s.ctl) == DoAddress && !Breaks(s, r) && !Messages(job)[s.ch.idx].read
    ensures r.answer == Ack ==> StepOutcome(s, BusStep(s, r), job, r)
  {
    hide NextMsg, StoreByte, Complete, AddressByte, BusStep, Isr, Slots;
    if r.answer == Ack {
      var t := BusStep(s, r);
      Interrupted(s, r);
      CurrentMessage(s, job);
      AddressByteDecodes(Messages(job)[s.ch.idx]);
      var c := Respond(s.ctl, r);
      assert c.status == TX_AW_ACK;
      assert s.ch.tx[0] == s.ch.tx[..|job.w|][0];
      OneOp(c, PutByte(job.w[0]));
      assert t.ctl.bus == WritePart(job, 0);
      assert Underway(t, job);
    }
  }

  lemma SendMoreStep(s: System, job: Job, r: Reply)
    requires Underway(s, job) && NextAction(s.ctl) == DoSend && r.answer == Ack && s.ch.ptr < |job.w|
    ensures StepOutcome(s, BusStep(s, r), job, r)
  {
    hide Messages, FullTrace, Lead, OpenMsg;
    hide NextMsg, StoreByte, Complete, AddressByte, BusStep, Isr, Slots;
    var t := BusStep(s, r);
    Interrupted(s, r);
    CurrentMessage(s, job);
    var c := Respond(s.ctl, r);
    assert c.bus == WritePart(job, s.ch.ptr);
    OneOp(c, PutByte(job.w[s.ch.ptr]));
    assert s.ch.tx[s.ch.ptr] == s.ch.tx[..|job.w|][s.ch.ptr];
    assert Underway(t, job);
  }

  lemma SendLastStep(s: System, job: Job, r: Reply)
    requires Underway(s, job) && NextAction(s.ctl) == DoSend && r.answer == Ack && s.ch.ptr == |job.w|
    ensures StepOutcome(s, BusStep(s, r), job, r)
  {
    hide StoreByte, AddressByte, BusStep, Isr;
    var t := BusStep(s, r);
    Interrupted(s, r);
    CurrentMessage(s, job);
    var c := Respond(s.ctl, r);
    assert c.bus == WritePart(job, s.ch.ptr);
    if job.rlen > 0 {
      TwoOps(c, SetStart, ClearFlag);
      assert Underway(t, job);
    } else {
      assert t.ctl.bus == FullTrace(job, t.ch.rx);
    }
  }

  lemma {:induction false} ReceivedIgnoresRest(rx: seq<Byte>, ry: seq<Byte>, n: nat, len: nat)
    requires n <= |rx| && n <= |ry| && rx[..n] == ry[..n]
    ensures ReceivedEvents(rx, n, len) == ReceivedEvents(ry, n, len)
  {
    if n > 0 {
      assert rx[..n][n - 1] == ry[..n][n - 1];
      assert rx[..n - 1] == rx[..n][..n - 1] == ry[..n][..n - 1] == ry[..n - 1];
      ReceivedIgnoresRest(rx, ry, n - 1, len);
    }
  }

  lemma ReceiveMoreStep(s: System, job: Job, r: Reply)
    requires Underway(s, job) && NextAction(s.ctl) == DoReceive && r.answer != Fault && s.ch.ptr + 1 < job.rlen
    ensures StepOutcome(s, BusStep(s, r), job, r)
  {
    hide AddressByte, BusStep, Slots, ReceivedEvents, WritePart;
    var t := BusStep(s, r);
    CurrentMessage(s, job);
    ReceiveMoreNext(s, job, r);
    ReceivedOneMore(s, job, r);
    assert Underway(t, job);
  }

  lemma ReceiveMoreNext(s: System, job: Job, r: Reply)
    requires Underway(s, job) && NextAction(s.ctl) == DoReceive && r.answer != Fault && s.ch.ptr + 1 < job.rlen
    ensures var t := BusStep(s, r);
            && t.ch == s.ch.(rx := s.ch.rx[s.ch.ptr := r.byte], ptr := s.ch.ptr + 1)
            && t.ctl.inten && !t.ctl.flag && NextAction(t.ctl) == DoReceive
            && (t.ctl.ack <==> s.ch.ptr + 2 < job.rlen)
            && t.ctl.bus == Respond(s.ctl, r).bus
  {
    hide AddressByte, BusStep, Isr, Slots, SendOrNext, NextMsg, Complete, ReceivedEvents, WritePart;
    Interrupted(s, r);
    CurrentMessage(s, job);
    var c := Respond(s.ctl, r);
    assert c.status == RXD_ACK && c.data == r.byte;
    TwoOps(c, AckOff, ClearFlag);
    OneOp(c, ClearFlag);
  }

  lemma ReceiveLastStep(s: System, job: Job, r: Reply)
    requires Underway(s, job) && NextAction(s.ctl) == DoReceive && r.answer != Fault && s.ch.ptr + 1 == job.rlen
    ensures StepOutcome(s, BusStep(s, r), job, r)
  {
    hide SendOrNext, AddressByte, BusStep, Isr, Slots, Messages, ReceivedEvents, WritePart;
    var t := BusStep(s, r);
    Interrupted(s, r);
    CurrentMessage(s, job);
    ReceivedOneMore(s, job, r);
    assert OpenMsg(job, true) + [AddressedTo(job, true)] == WritePart(job, |job.w|) + [Opening(job), AddressedTo(job, true)];
    assert t.ctl.bus == FullTrace(job, t.ch.rx);
  }

  lemma ReceivedOneMore(s: System, job: Job, r: Reply)
    requires Underway(s, job) && NextAction(s.ctl) == DoReceive && r.answer != Fault
    ensures Respond(s.ctl, r).bus == OpenMsg(job, true) + [AddressedTo(job, true)]
              + ReceivedEvents(s.ch.rx[s.ch.ptr := r.byte], s.ch.ptr + 1, job.rlen)
  {
    hide AddressByte, Slots, Messages, WritePart;
    ReceivedIgnoresRest(s.ch.rx, s.ch.rx[s.ch.ptr := r.byte], s.ch.ptr, job.rlen);
  }

  /** One bus action on a running transfer: it goes on, nearer its end; or it ends. It ends
      in success only with the whole transfer on the bus and every byte received stored in
      order, unless the status was 0x00; status 0x00 always ends it in success. */
  lemma StepIsSound(s: System, job: Job, r: Reply)
    requires Underway(s, job)
    ensures StepOutcome(s, BusStep(s, r), job, r)
  {
    hide StepOutcome, BusStep;
    if r.answer == Fault {
      FaultStep(s, job, r);
    } else if Breaks(s, r) {
      RefusedStep(s, job, r);
    } else {
      match NextAction(s.ctl) {
        case DoStart => StartStep(s, job, r);
        case DoAddress =>
          if Messages(job)[s.ch.idx].read {
            AddressReadStep(s, job, r);
          } else {
            AddressWriteStep(s, job, r);
          }
        case DoSend =>
          if s.ch.ptr < |job.w| {
            SendMoreStep(s, job, r);
          } else {
            SendLastStep(s, job, r);
          }
        case DoReceive =>
          if s.ch.ptr + 1 < job.rlen {
            ReceiveMoreStep(s, job, r);
          } else {
            ReceiveLastStep(s, job, r);
          }
        case Nothing => assert false;
      }
    }
  }

  // ---- Runs ----

  /** Bus actions and interrupts until the transfer ends or no more replies come. */
  function Wait(s: System, replies: seq<Reply>): System
    requires ChannelOk(s.ch)
    decreases |replies|
  {
    if replies == [] || s.ch.woken then s
    else
      AnyStatusIsSafe(s.ch, Respond(s.ctl, replies[0]).status, Respond(s.ctl, replies[0]).data, 0);
      Wait(BusStep(s, replies[0]), replies[1..])
  }

  /** How many of the replies the wait takes. */
  function Consumed(s: System, replies: seq<Reply>): (n: nat)
    requires ChannelOk(s.ch)
    ensures n <= |replies|
    decreases |replies|
  {
    if replies == [] || s.ch.woken then 0
    else
      AnyStatusIsSafe(s.ch, Respond(s.ctl, replies[0]).status, Respond(s.ctl, replies[0]).data, 0);
      1 + Consumed(BusStep(s, replies[0]), replies[1..])
  }

  ghost predicate NoFault(replies: seq<Reply>) {
    forall k | 0 <= k < |replies| :: replies[k].answer != Fault
  }

  ghost predicate AllAck(replies: seq<Reply>) {
    forall k | 0 <= k < |replies| :: replies[k].answer == Ack
  }

  /** A started transfer, whatever the other side answers: it is still running only if the
      answers ran out; when it ends in success, the whole transfer was on the bus if and only
      if no answer it took was status 0x00; and enough acknowledging answers bring it to
      success. */
  lemma {:induction false} WaitIsSound(s: System, job: Job, replies: seq<Reply>)
    requires Underway(s, job)
    ensures var u := Wait(s, replies);
            && (Underway(u, job) || Ended(u)) && |u.ch.rx| == job.rlen
            && (u.ch.woken <==> Ended(u))
            && (Success(u) ==> (u.ctl.bus == FullTrace(job, u.ch.rx) <==> NoFault(replies[..Consumed(s, replies)])))
            && (AllAck(replies) && |replies| >= Remaining(s) ==> Success(u))
    decreases |replies|
  {
    hide StepOutcome, BusStep, AddressByte, FullTrace, Slots, Messages, Doing;
    RemainingPositive(s, job);
    if replies != [] {
      var t := BusStep(s, replies[0]);
      StepIsSound(s, job, replies[0]);
      OutcomeFacts(s, t, job, replies[0]);
      if Underway(t, job) {
        FaultEndsAtOnceIfAny(s, job, replies[0]);
        WaitIsSound(t, job, replies[1..]);
        var n := Consumed(t, replies[1..]);
        assert replies[..1 + n] == [replies[0]] + replies[1..][..n];
        FaultFirst(replies[0], replies[1..][..n]);
      } else {
        assert Wait(s, replies) == Wait(t, replies[1..]) == t;
        assert replies[..1] == [replies[0]] + [];
        FaultFirst(replies[0], []);
      }
    }
  }

  lemma FaultFirst(r: Reply, rest: seq<Reply>)
    ensures NoFault([r] + rest) <==> r.answer != Fault && NoFault(rest)
  {
    if NoFault([r] + rest) {
      assert ([r] + rest)[0] == r;
      assert forall k | 0 <= k < |rest| :: rest[k] == ([r] + rest)[k + 1];
    }
  }

  lemma FaultEndsAtOnceIfAny(s: System, job: Job, r: Reply)
    requires Underway(s, job) && Underway(BusStep(s, r), job)
    ensures r.answer != Fault
  {
    hide BusStep;
    if r.answer == Fault {
      FaultEndsAtOnce(s, job, r);
    }
  }

  /** Status 0x00 ends a running transfer with nothing more on the bus. */
  lemma FaultEndsAtOnce(s: System, job: Job, r: Reply)
    requires Underway(s, job) && r.answer == Fault
    ensures var u := BusStep(s, r); ChannelOk(u.ch) && u.ch.woken && u.ch.idx == u.ch.num && u.ctl.bus == s.ctl.bus
  {
    hide Messages;
    CurrentMessage(s, job);
    Interrupted(s, r);
  }

  lemma RemainingPositive(s: System, job: Job)
    requires Underway(s, job)
    ensures Remaining(s) > 0
  {
  }

  lemma OutcomeFacts(s: System, t: System, job: Job, r: Reply)
    requires StepOutcome(s, t, job, r)
    ensures Underway(t, job) ==> Remaining(t) < Remaining(s)
    ensures !Underway(t, job) ==>
              && Ended(t) && |t.ch.rx| == job.rlen
              && (Success(t) ==> (r.answer != Fault <==> t.ctl.bus == FullTrace(job, t.ch.rx)))
              && (r.answer == Ack || r.answer == Fault ==> Success(t))
  {
  }

  /** Once a transfer has ended no interrupt can change what it reported. */
  lemma VerdictIsFinal(s: System, r: Reply)
    requires Ended(s)
    ensures BusStep(s, r).ch == s.ch && Ended(BusStep(s, r))
  {
  }

  // ---- `xfer` ----

  datatype I2cError = Fail | Busy | StartFail | StopFail | Timeout
  datatype XferResult = Ok(count: nat) | Err(error: I2cError)

  /** Everything outside the driver: the controller's status after its reset, whether START
      and STOP clear in time, and the other side's answers until the wait times out. */
  datatype Env = Env(ready: Code, startOk: bool, replies: seq<Reply>, stopOk: bool)

  const TX_SIZE: nat := 256

  function WriteBytes(reg: Option<Byte>, data: seq<Byte>): seq<Byte> {
    (if reg.Some? then [reg.value] else []) + data
  }

  function Reset(ch: Channel): Channel {
    ch.(msgs := [None, None], idx := 0, ptr := 0, num := 0, status := Idle)
  }

  /** The channel with the messages of a job, marked running, and START requested. */
  function Armed(job: Job, tx: seq<Byte>, rx: seq<Byte>, ready: Code): System
    requires |tx| == TX_SIZE && |job.w| <= TX_SIZE
  {
    System(
      Channel(Slots(Messages(job)), 0, 0, |Messages(job)|, Running, job.w + tx[|job.w|..], rx, false),
      Controller(false, true, true, false, 0, ready, []))
  }

  function Zeroes(n: nat): (r: seq<Byte>)
    ensures |r| == n
    ensures forall i | 0 <= i < n :: r[i] == 0
  {
    if n == 0 then [] else Zeroes(n - 1) + [0]
  }

  /** `xfer`: the result, the channel left behind, and what the bus carried. An empty `rx`
      or `data` stands for the absent ones. */
  function XferSpec(ch: Channel, addr: Byte, reg: Option<Byte>, data: seq<Byte>, rx: seq<Byte>, env: Env)
    : (XferResult, Channel, seq<BusEvent>)
    requires |rx| <= ISIZE_MAX
  {
    var job := Job(addr, WriteBytes(reg, data), |rx|);
    if ch.status != Idle || (env.ready != IDLE && env.ready != BUS_ERR) then (Err(Busy), ch, [])
    else if |job.w| > TX_SIZE then (Err(Fail), ch, [])
    else if job.w == [] && rx == [] then (Ok(0), ch, [])
    else
      var s := Armed(job, Zeroes(TX_SIZE), rx, env.ready);
      if !env.startOk then (Err(StartFail), Reset(s.ch), [])
      else
        var u := Wait(s, env.replies);
        if !u.ch.woken then (Err(Timeout), Reset(u.ch), u.ctl.bus)
        else if u.ch.idx != u.ch.num then (Err(Fail), Reset(u.ch), u.ctl.bus)
        else if !env.stopOk then (Err(StopFail), Reset(u.ch), u.ctl.bus)
        else (Ok(if rx != [] then |rx| else |job.w|), Reset(u.ch), u.ctl.bus + [Stop])
  }

  lemma ArmedIsUnderway(job: Job, rx: seq<Byte>, ready: Code)
    requires JobOk(job) && |rx| == job.rlen && (ready == IDLE || ready == BUS_ERR)
    ensures Underway(Armed(job, Zeroes(TX_SIZE), rx, ready), job)
    ensures Remaining(Armed(job, Zeroes(TX_SIZE), rx, ready)) <= |job.w| + job.rlen + 4
  {
  }

  /** The answers `xfer` takes before it returns. */
  function Taken(ch: Channel, addr: Byte, reg: Option<Byte>, data: seq<Byte>, rx: seq<Byte>, env: Env): seq<Reply>
    requires |rx| <= ISIZE_MAX
  {
    var job := Job(addr, WriteBytes(reg, data), |rx|);
    if |job.w| > TX_SIZE then [] else env.replies[..Consumed(Armed(job, Zeroes(TX_SIZE), rx, env.ready), env.replies)]
  }

  /** `Ok` means the bus carried the whole transfer if and only if none of the answers taken
      was status 0x00: START, the address for writing, the register address and every data
      byte; then, if bytes are read, a START (repeated if anything was written), the address
      for reading, exactly as many bytes as the buffer holds, each acknowledged but the last,
      and stored in order; then STOP. */
  lemma OkMeansFullTransferIff(ch: Channel, addr: Byte, reg: Option<Byte>, data: seq<Byte>, rx: seq<Byte>, env: Env)
    requires |rx| <= ISIZE_MAX && XferSpec(ch, addr, reg, data, rx, env).0.Ok?
    requires WriteBytes(reg, data) != [] || rx != []
    ensures var (result, after, bus) := XferSpec(ch, addr, reg, data, rx, env);
            var job := Job(addr, WriteBytes(reg, data), |rx|);
            && |after.rx| == |rx| && result.count == (if rx != [] then |rx| else |job.w|)
            && (bus == FullTrace(job, after.rx) + [Stop] <==> NoFault(Taken(ch, addr, reg, data, rx, env)))
  {
    hide WriteBytes, Armed, FullTrace, Ended, Consumed;
    var (result, after, bus) := XferSpec(ch, addr, reg, data, rx, env);
    var job := Job(addr, WriteBytes(reg, data), |rx|);
    var s := Armed(job, Zeroes(TX_SIZE), rx, env.ready);
    ArmedIsUnderway(job, rx, env.ready);
    WaitIsSound(s, job, env.replies);
    SameBeforeStop(Wait(s, env.replies).ctl.bus, FullTrace(job, after.rx));
  }

  lemma {:induction false} SentAt(w: seq<Byte>, n: nat, i: nat)
    requires i < n <= |w|
    ensures |SentEvents(w, n)| == n && SentEvents(w, n)[i] == Sent(w[i], true)
  {
    SentLength(w, n - 1);
    if i < n - 1 {
      SentAt(w, n - 1, i);
    }
  }

  lemma {:induction false} ReceivedAt(rx: seq<Byte>, n: nat, len: nat, i: nat)
    requires i < n <= |rx|
    ensures |ReceivedEvents(rx, n, len)| == n && ReceivedEvents(rx, n, len)[i] == Received(rx[i], i + 1 < len)
  {
    ReceivedLength(rx, n - 1, len);
    if i < n - 1 {
      ReceivedAt(rx, n - 1, len, i);
    }
  }

  /** The bus events that carry `n` bytes one way, START and address included. */
  function Events(n: nat): nat {
    if n == 0 then 0 else 2 + n
  }

  /** START, the address for writing, the register address, and the data in order. */
  ghost predicate Written(part: seq<BusEvent>, addr: Byte, reg: Option<Byte>, data: seq<Byte>) {
    var skip := if reg.Some? then 1 else 0;
    && |part| == Events(skip + |data|)
    && (part != [] ==> part[0] == Start && part[1] == Address(addr & 0x7F, false, true))
    && (reg.Some? ==> part[2] == Sent(reg.value, true))
    && forall i | 0 <= i < |data| :: part[2 + skip + i] == Sent(data[i], true)
  }

  /** START, the address for reading, and the answers in order, the last one refused. */
  ghost predicate Answered(part: seq<BusEvent>, addr: Byte, again: bool, rx: seq<Byte>) {
    && |part| == Events(|rx|)
    && (part != [] ==>
          part[0] == (if again then RepeatedStart else Start) && part[1] == Address(addr & 0x7F, true, true))
    && forall i | 0 <= i < |rx| :: part[2 + i] == Received(rx[i], i + 1 < |rx|)
  }

  /** The bus of a whole transfer, event by event. */
  ghost predicate OnTheBus(bus: seq<BusEvent>, addr: Byte, reg: Option<Byte>, data: seq<Byte>, rx: seq<Byte>) {
    var n := |data| + if reg.Some? then 1 else 0;
    && |bus| == Events(n) + Events(|rx|) + 1 && bus[|bus| - 1] == Stop
    && Written(bus[..Events(n)], addr, reg, data)
    && Answered(bus[Events(n)..|bus| - 1], addr, n > 0, rx)
  }

  lemma WritePartAt(job: Job, i: nat)
    requires i < |job.w|
    ensures var part := WritePart(job, |job.w|);
            && |part| == 2 + |job.w| && part[0] == Start && part[1] == Address(job.addr & 0x7F, false, true)
            && part[2 + i] == Sent(job.w[i], true)
  {
    hide SentEvents;
    SentAt(job.w, |job.w|, i);
  }

  function ReadPart(job: Job, rx: seq<Byte>): seq<BusEvent>
    requires job.rlen <= |rx|
  {
    if job.rlen == 0 then [] else [Opening(job), AddressedTo(job, true)] + ReceivedEvents(rx, job.rlen, job.rlen)
  }

  lemma ReadPartAt(job: Job, rx: seq<Byte>, i: nat)
    requires i < job.rlen == |rx|
    ensures var part := ReadPart(job, rx);
            && |part| == 2 + |rx| && part[0] == (if job.w == [] then Start else RepeatedStart)
            && part[1] == Address(job.addr & 0x7F, true, true) && part[2 + i] == Received(rx[i], i + 1 < |rx|)
  {
    hide ReceivedEvents;
    ReceivedAt(rx, |rx|, |rx|, i);
  }

  lemma WritePartIsWritten(addr: Byte, reg: Option<Byte>, data: seq<Byte>, rlen: nat)
    ensures var job := Job(addr, WriteBytes(reg, data), rlen); Written(WritePart(job, |job.w|), addr, reg, data)
  {
    hide WritePart;
    var job := Job(addr, WriteBytes(reg, data), rlen);
    WritePartLength(job);
    if job.w != [] {
      WritePartAt(job, 0);
    }
    var skip := if reg.Some? then 1 else 0;
    forall i | 0 <= i < |data|
      ensures WritePart(job, |job.w|)[2 + skip + i] == Sent(data[i], true)
    {
      WritePartAt(job, skip + i);
    }
  }

  lemma ReadPartIsAnswered(job: Job, rx: seq<Byte>)
    requires job.rlen == |rx|
    ensures Answered(ReadPart(job, rx), job.addr, job.w != [], rx)
  {
    hide ReadPart;
    ReadPartLength(job, rx);
    forall i | 0 <= i < |rx|
      ensures ReadPart(job, rx)[2 + i] == Received(rx[i], i + 1 < |rx|)
    {
      ReadPartAt(job, rx, i);
    }
    if rx != [] {
      ReadPartAt(job, rx, 0);
    }
  }

  lemma TraceParts(job: Job, rx: seq<Byte>)
    requires job.rlen <= |rx|
    ensures FullTrace(job, rx) == WritePart(job, |job.w|) + ReadPart(job, rx)
  {
  }

  lemma FullTraceOnTheBus(addr: Byte, reg: Option<Byte>, data: seq<Byte>, rx: seq<Byte>)
    ensures OnTheBus(FullTrace(Job(addr, WriteBytes(reg, data), |rx|), rx) + [Stop], addr, reg, data, rx)
  {
    hide WritePart, ReadPart, Written, Answered, ReceivedEvents;
    var job := Job(addr, WriteBytes(reg, data), |rx|);
    var w, r := WritePart(job, |job.w|), ReadPart(job, rx);
    var bus := FullTrace(job, rx) + [Stop];
    TraceParts(job, rx);
    WritePartLength(job);
    ReadPartLength(job, rx);
    WritePartIsWritten(addr, reg, data, |rx|);
    ReadPartIsAnswered(job, rx);
    assert bus[..|w|] == w && bus[|w|..|bus| - 1] == r;
  }

  lemma WritePartLength(job: Job)
    ensures |WritePart(job, |job.w|)| == Events(|job.w|)
  {
    if job.w != [] {
      WritePartAt(job, 0);
    }
  }

  lemma ReadPartLength(job: Job, rx: seq<Byte>)
    requires job.rlen == |rx|
    ensures |ReadPart(job, rx)| == Events(|rx|)
  {
    if rx != [] {
      ReadPartAt(job, rx, 0);
    }
  }

  /** `Ok` without a status 0x00, event by event: START, the address for writing, the register
      address first, then every data byte in order, and nothing else sent; START again, the
      address for reading, every byte received in the order it is stored, the last one alone
      not acknowledged; STOP. */
  lemma OkIsOnTheBus(ch: Channel, addr: Byte, reg: Option<Byte>, data: seq<Byte>, rx: seq<Byte>, env: Env)
    requires |rx| <= ISIZE_MAX && XferSpec(ch, addr, reg, data, rx, env).0.Ok?
    requires (reg.Some? || data != [] || rx != []) && NoFault(Taken(ch, addr, reg, data, rx, env))
    ensures var (result, after, bus) := XferSpec(ch, addr, reg, data, rx, env);
            && |after.rx| == |rx| && OnTheBus(bus, addr, reg, data, after.rx)
            && result.count == if rx != [] then |rx| else |data| + if reg.Some? then 1 else 0
  {
    hide XferSpec, Taken, FullTrace, OnTheBus;
    OkMeansFullTransferIff(ch, addr, reg, data, rx, env);
    FullTraceOnTheBus(addr, reg, data, XferSpec(ch, addr, reg, data, rx, env).1.rx);
  }

  /** The wait ends because the transfer has, or takes every answer; and a transfer that ends
      without success was refused by the last answer taken. */
  lemma {:induction false} WaitEndsIff(s: System, job: Job, replies: seq<Reply>)
    requires Underway(s, job)
    ensures !Wait(s, replies).ch.woken ==> Consumed(s, replies) == |replies|
    ensures Wait(s, replies).ch.woken && Wait(s, replies).ch.idx != Wait(s, replies).ch.num ==>
              Consumed(s, replies) > 0 && replies[Consumed(s, replies) - 1].answer in {Nack, Lost}
    decreases |replies|
  {
    hide StepOutcome, BusStep, AddressByte, FullTrace, Slots, Messages, Doing;
    if replies != [] {
      var t := BusStep(s, replies[0]);
      StepIsSound(s, job, replies[0]);
      OutcomeFacts(s, t, job, replies[0]);
      if Underway(t, job) {
        WaitEndsIff(t, job, replies[1..]);
      } else {
        assert Wait(s, replies) == Wait(t, replies[1..]) == t && Consumed(s, replies) == 1;
      }
    }
  }

  /** Which cause gives which result, in the order they are looked at: a busy channel or
      controller; more than 256 bytes to write; nothing to do; START not sent; answers that ran
      out; an answer that refused; STOP not sent. */
  lemma ResultSaysWhy(ch: Channel, addr: Byte, reg: Option<Byte>, data: seq<Byte>, rx: seq<Byte>, env: Env)
    requires |rx| <= ISIZE_MAX
    ensures var result, n := XferSpec(ch, addr, reg, data, rx, env).0, |data| + if reg.Some? then 1 else 0;
            var taken := Taken(ch, addr, reg, data, rx, env);
            if ch.status != Idle || (env.ready != 0xF8 && env.ready != 0) then result == Err(Busy)
            else if n > 256 then result == Err(Fail)
            else if n == 0 && rx == [] then result == Ok(0)
            else if !env.startOk then result == Err(StartFail)
            else if result == Err(Timeout) then taken == env.replies
            else if result == Err(Fail) then taken != [] && taken[|taken| - 1].answer in {Nack, Lost}
            else if !env.stopOk then result == Err(StopFail)
            else result == Ok(if rx != [] then |rx| else n)
  {
    hide Armed, Consumed, Wait, Reset, Zeroes, Underway, Remaining;
    var job := Job(addr, WriteBytes(reg, data), |rx|);
    if ch.status == Idle && (env.ready == IDLE || env.ready == BUS_ERR) && |job.w| <= TX_SIZE && JobOk(job) {
      ArmedIsUnderway(job, rx, env.ready);
      WaitEndsIff(Armed(job, Zeroes(TX_SIZE), rx, env.ready), job, env.replies);
    }
  }

  lemma SameBeforeStop(a: seq<BusEvent>, b: seq<BusEvent>)
    ensures a + [Stop] == b + [Stop] <==> a == b
  {
    if a + [Stop] == b + [Stop] {
      assert a == (a + [Stop])[..|a|] && |a + [Stop]| == |b + [Stop]|;
    }
  }

  /** With an idle channel and a ready controller, acknowledging answers for every action of
      the transfer bring `xfer` to `Ok`. */
  lemma AcknowledgedTransferIsOk(ch: Channel, addr: Byte, reg: Option<Byte>, data: seq<Byte>, rx: seq<Byte>, env: Env)
    requires |rx| <= ISIZE_MAX && ch.status == Idle && |WriteBytes(reg, data)| <= TX_SIZE
    requires env.ready == IDLE && env.startOk && env.stopOk && AllAck(env.replies)
    requires |env.replies| >= |WriteBytes(reg, data)| + |rx| + 4
    ensures XferSpec(ch, addr, reg, data, rx, env).0.Ok?
  {
    hide WriteBytes, Armed;
    var job := Job(addr, WriteBytes(reg, data), |rx|);
    if job.w != [] || rx != [] {
      ArmedIsUnderway(job, rx, env.ready);
      WaitIsSound(Armed(job, Zeroes(TX_SIZE), rx, env.ready), job, env.replies);
    }
  }

  /** A transfer whose START was never even answered, reported as a success: status 0x00 on
      the first interrupt ends it with code -0. */
  lemma ZeroStatusReadsAsSuccess(ch: Channel, addr: Byte, reg: Option<Byte>, data: seq<Byte>, rx: seq<Byte>, b: Byte)
    requires |rx| <= ISIZE_MAX && ch.status == Idle && |WriteBytes(reg, data)| <= TX_SIZE
    requires WriteBytes(reg, data) != [] || rx != []
    ensures var (result, _, bus) := XferSpec(ch, addr, reg, data, rx, Env(IDLE, true, [Reply(Fault, b)], true));
            result == Ok(if rx != [] then |rx| else |WriteBytes(reg, data)|) && bus == [Stop]
  {
    hide WriteBytes, Messages, Zeroes, BusStep, CoreStep;
    var job := Job(addr, WriteBytes(reg, data), |rx|);
    var s := Armed(job, Zeroes(TX_SIZE), rx, IDLE);
    var r := Reply(Fault, b);
    ArmedIsUnderway(job, rx, IDLE);
    FaultEndsAtOnce(s, job, r);
    assert [r][1..] == [];
    assert Wait(s, [r]) == Wait(BusStep(s, r), []) == BusStep(s, r);
  }
}
