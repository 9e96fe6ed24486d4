/** The TWI driver as it runs: channel fields, controller registers and buffers updated in
    place by the interrupt routine and by `xfer`. */
module Twi {
  import opened Common
  import opened TwiSpec
  import opened TwiRuns

  class TwiDriver {
    var msgs: seq<Option<Msg>>
    var idx: nat
    var ptr: nat
    var num: nat
    var status: XferStatus
    var woken: bool
    /** The write buffer of the transfer and the caller's read buffer. */
    var tx: array<Byte>
    var rx: array<Byte>
    /** The controller's registers and what it has put on the bus. */
    var ctl: Controller

    ghost function Chan(): Channel
      reads this, tx, rx
    {
      Channel(msgs, idx, ptr, num, status, tx[..], rx[..], woken)
    }

    ghost function Sys(): System
      reads this, tx, rx
    {
      System(Chan(), ctl)
    }

    ghost predicate Valid()
      reads this, tx, rx
    {
      tx != rx && ChannelOk(Chan())
    }

    constructor ()
      ensures Valid() && status == Idle && !woken && fresh(tx) && fresh(rx)
    {
      msgs, idx, ptr, num, status, woken := [None, None], 0, 0, 0, Idle, false;
      ctl := Controller(false, false, false, false, 0, IDLE, []);
      tx, rx := new Byte[0], new Byte[0];
    }

    method Do(op: RegOp)
      modifies this`ctl
      ensures ctl == ApplyOp(old(ctl), op)
    {
      match op
      case SetStart => ctl := ctl.(sta := true);
      case ClearFlag => ctl := ctl.(flag := false);
      case PutByte(b) => ctl := ctl.(data := b, flag := false);
      case AckOn => ctl := ctl.(ack := true);
      case AckOff => ctl := ctl.(ack := false);
    }

    /** `twi_xfer_complete` */
    method XferComplete(code: int)
      requires -USIZE_RANGE < code <= 0
      modifies this`msgs, this`idx, this`ptr, this`num, this`status, this`woken
      ensures Chan() == Complete(old(Chan()), code)
    {
      msgs := [None, None];
      num := 0;
      ptr := 0;
      status := Idle;
      idx := AsUsize(code);
      woken := true;
    }

    /** The end of a message, shared by three branches of `twi_core_process`. */
    method FinishMessage()
      modifies this`msgs, this`idx, this`ptr, this`num, this`status, this`woken, this`ctl
      ensures var (ch, ops) := NextMsg(old(Chan())); Sys() == System(ch, ApplyOps(old(ctl), ops))
    {
      TwoOps(ctl, SetStart, ClearFlag);
      idx := idx + 1;
      ptr := 0;
      if idx >= num {
        XferComplete(0);
      } else {
        Do(SetStart);
        Do(ClearFlag);
      }
    }

    method BufferByte(m: Msg) returns (b: Byte)
      requires ptr < m.len <= |BufferOf(Chan(), m.read)|
      ensures b == BufferOf(Chan(), m.read)[ptr]
    {
      if m.read {
        b := rx[ptr];
      } else {
        b := tx[ptr];
      }
    }

    method SendByteOrFinish(m: Msg)
      requires m.len <= |BufferOf(Chan(), m.read)|
      modifies this`msgs, this`idx, this`ptr, this`num, this`status, this`woken, this`ctl
      ensures var (ch, ops) := SendOrNext(old(Chan()), m); Sys() == System(ch, ApplyOps(old(ctl), ops))
    {
      if ptr < m.len {
        var b := BufferByte(m);
        OneOp(ctl, PutByte(b));
        Do(PutByte(b));
        ptr := ptr + 1;
      } else {
        FinishMessage();
      }
    }

    method Keep(m: Msg, b: Byte)
      requires tx != rx && ptr < m.len <= |BufferOf(Chan(), m.read)|
      modifies tx, rx
      ensures Chan() == StoreByte(old(Chan()), m, b)
    {
      if m.read {
        rx[ptr] := b;
      } else {
        tx[ptr] := b;
      }
      ghost var was := old(Chan());
      assert m.read ==> rx[..] == was.rx[was.ptr := b];
      assert !m.read ==> tx[..] == was.tx[was.ptr := b];
    }

    /** `twi_core_process` */
    method CoreProcess()
      requires Valid()
      modifies this`msgs, this`idx, this`ptr, this`num, this`status, this`woken, this`ctl, tx, rx
      ensures Valid()
      ensures var (ch, ops) := CoreStep(old(Chan()), old(ctl).status, old(ctl).data);
              Sys() == System(ch, ApplyOps(old(ctl), ops))
    {
      hide NextMsg, SendOrNext, StoreByte, Complete, AddressByte, ApplyOp;
      var state := ctl.status;
      var data := ctl.data;
      AnyStatusIsSafe(Chan(), state, data, 0);
      if idx >= num {
        XferComplete(-1);
        return;
      }
      match msgs[idx]
      case None => XferComplete(-1);
      case Some(m) =>
        if state == IDLE || state == BUS_ERR {
          XferComplete(-(state as int));
        } else if state == TX_STA || state == TX_RESTA {
          OneOp(ctl, PutByte(AddressByte(m)));
          Do(PutByte(AddressByte(m)));
        } else if state == TXD_ADDR2_NAK || state == TX_AW_NAK {
          XferComplete(-0x20);
        } else if state == TX_AW_ACK || state == TXD_ADDR2_ACK || state == TXD_ACK {
          SendByteOrFinish(m);
        } else if state == TXD_NAK {
          XferComplete(-0x30);
        } else if state == ARB_LOST {
          XferComplete(-0x38);
        } else if state == TX_AR_ACK {
          TwoOps(ctl, AckOn, ClearFlag);
          OneOp(ctl, ClearFlag);
          if m.len > 1 {
            Do(AckOn);
          }
          Do(ClearFlag);
        } else if state == TX_AR_NAK {
          XferComplete(-0x48);
        } else if state == RXD_ACK {
          ReceiveMore(m, data);
        } else if state == RXD_NAK {
          if ptr == LastIndex(m.len) {
            Keep(m, data);
            FinishMessage();
          } else {
            XferComplete(-0x58);
          }
        } else {
          XferComplete(-(state as int));
        }
    }

    method ReceiveMore(m: Msg, data: Byte)
      requires tx != rx && m.len <= |BufferOf(Chan(), m.read)|
      modifies this`msgs, this`idx, this`ptr, this`num, this`status, this`woken, this`ctl, tx, rx
      ensures var was := old(Chan());
              if was.ptr < m.len then
                && Chan() == StoreByte(was, m, data).(ptr := was.ptr + 1)
                && ctl == ApplyOps(old(ctl), if was.ptr + 2 == m.len then [AckOff, ClearFlag] else [ClearFlag])
              else Chan() == Complete(was, -0x50) && ctl == old(ctl)
    {
      TwoOps(ctl, AckOff, ClearFlag);
      OneOp(ctl, ClearFlag);
      if ptr < m.len {
        if ptr + 2 == m.len {
          Do(AckOff);
        }
        Do(ClearFlag);
        Keep(m, data);
        ptr := ptr + 1;
      } else {
        XferComplete(-0x50);
      }
    }

    /** `twi_isr` */
    method ServeInterrupt()
      requires Valid()
      modifies this`msgs, this`idx, this`ptr, this`num, this`status, this`woken, this`ctl, tx, rx
      ensures Valid() && Sys() == Isr(old(Sys()))
    {
      hide CoreStep, ChannelOk;
      if !ctl.flag || !ctl.inten {
        return;
      }
      ctl := ctl.(inten := false);
      ghost var entered := ctl;
      ghost var ch := Chan();
      CoreProcess();
      IntenUntouched(old(ctl), CoreStep(ch, entered.status, entered.data).1);
      if status == Running {
        ctl := ctl.(inten := true);
      }
    }

    /** The write buffer of a transfer: the register address, if any, and the data. */
    method BuildWriteBuffer(reg: Option<Byte>, data: seq<Byte>) returns (buf: array<Byte>)
      requires |WriteBytes(reg, data)| <= TX_SIZE
      ensures fresh(buf) && buf.Length == TX_SIZE
      ensures buf[..] == WriteBytes(reg, data) + Zeroes(TX_SIZE)[|WriteBytes(reg, data)|..]
      ensures var skip := if reg.Some? then 1 else 0;
              && skip + |data| <= 256 == buf.Length
              && (reg.Some? ==> buf[0] == reg.value)
              && (forall i | 0 <= i < |data| :: buf[skip + i] == data[i])
              && forall i | skip + |data| <= i < 256 :: buf[i] == 0
    {
      buf := new Byte[TX_SIZE](_ => 0);
      var at := 0;
      if reg.Some? {
        buf[0] := reg.value;
        at := 1;
      }
      ghost var w := WriteBytes(reg, data);
      for k := 0 to |data|
        invariant at + |data| == |w|
        invariant forall i | 0 <= i < at + k :: buf[i] == w[i]
        invariant forall i | at + k <= i < TX_SIZE :: buf[i] == 0
      {
        buf[at + k] := data[k];
      }
    }

    /** Messages built, channel marked running, interrupt enabled and START requested. */
    method Arm(addr: Byte, reg: Option<Byte>, data: seq<Byte>, rbuf: array<Byte>, ready: Code)
      requires |WriteBytes(reg, data)| <= TX_SIZE && rbuf.Length <= ISIZE_MAX
      requires WriteBytes(reg, data) != [] || rbuf.Length > 0
      requires ready == IDLE || ready == BUS_ERR
      modifies this
      ensures Valid() && rx == rbuf && fresh(tx)
      ensures Sys() == Armed(Job(addr, WriteBytes(reg, data), rbuf.Length), Zeroes(TX_SIZE), old(rbuf[..]), ready)
    {
      hide WriteBytes, ChannelOk, Slots, Messages, Underway, Remaining, Zeroes;
      var job := Job(addr, WriteBytes(reg, data), rbuf.Length);
      ArmedIsUnderway(job, rbuf[..], ready);
      tx := BuildWriteBuffer(reg, data);
      rx := rbuf;
      msgs := Slots(Messages(job));
      idx, ptr, num := 0, 0, |Messages(job)|;
      status := Running;
      woken := false;
      ctl := Controller(false, true, true, false, 0, ready, []);
    }

    /** The wait: the hardware and the interrupt routine take turns until the event is set
        or the time is up. */
    method WaitForEnd(replies: seq<Reply>)
      requires Valid()
      modifies this`msgs, this`idx, this`ptr, this`num, this`status, this`woken, this`ctl, tx, rx
      ensures Valid() && Sys() == Wait(old(Sys()), replies)
    {
      hide BusStep, ChannelOk;
      ghost var start := Sys();
      var k := 0;
      assert replies[0..] == replies;
      while k < |replies| && !woken
        invariant 0 <= k <= |replies| && Valid()
        invariant Wait(start, replies) == Wait(Sys(), replies[k..])
      {
        ghost var before := Sys();
        ctl := Respond(ctl, replies[k]);
        ServeInterrupt();
        BusStepIs(before, replies[k]);
        assert replies[k..][1..] == replies[k + 1..];
        k := k + 1;
      }
    }

    /** `xfer`; `env` is what the hardware and the other side do meanwhile. */
    method Xfer(addr: Byte, reg: Option<Byte>, data: seq<Byte>, rbuf: array<Byte>, env: Env)
      returns (result: XferResult, bus: seq<BusEvent>)
      requires Valid() && rbuf.Length <= ISIZE_MAX
      modifies this, rbuf
      ensures Valid()
      ensures (result, Chan(), bus) == XferSpec(old(Chan()), addr, reg, data, old(rbuf[..]), env)
      ensures result.Ok? && rbuf.Length > 0 ==> rx == rbuf
      ensures result != Err(Busy) && old(status) == Idle ==> status == Idle
    {
      hide WriteBytes, Wait, Armed, ChannelOk;
      bus := [];
      var job := Job(addr, WriteBytes(reg, data), rbuf.Length);
      if status != Idle {
        return Err(Busy), bus;
      }
      if env.ready != IDLE && env.ready != BUS_ERR {
        return Err(Busy), bus;
      }
      if |job.w| > TX_SIZE {
        return Err(Fail), bus;
      }
      if job.w == [] && rbuf.Length == 0 {
        return Ok(0), bus;
      }
      Arm(addr, reg, data, rbuf, env.ready);
      if !env.startOk {
        Clear();
        return Err(StartFail), bus;
      }
      WaitForEnd(env.replies);
      bus := ctl.bus;
      if !woken {
        Clear();
        return Err(Timeout), bus;
      }
      if idx != num {
        Clear();
        return Err(Fail), bus;
      }
      if !env.stopOk {
        Clear();
        return Err(StopFail), bus;
      }
      bus := bus + [Stop];
      Clear();
      result := Ok(if rbuf.Length > 0 then rbuf.Length else |job.w|);
    }

    /** `TwiChannel::reset` */
    method Clear()
      requires Valid()
      modifies this`msgs, this`idx, this`ptr, this`num, this`status
      ensures Valid() && Chan() == Reset(old(Chan()))
    {
      msgs := [None, None];
      idx := 0;
      ptr := 0;
      num := 0;
      status := Idle;
    }
  }

  lemma BusStepIs(s: System, r: Reply)
    requires ChannelOk(s.ch)
    ensures BusStep(s, r) == Isr(System(s.ch, Respond(s.ctl, r)))
  {
  }

  /** The register operations work the same whatever the interrupt enable bit. */
  lemma {:induction false} IntenUntouched(c: Controller, ops: seq<RegOp>)
    ensures ApplyOps(c.(inten := false), ops) == ApplyOps(c, ops).(inten := false)
    decreases |ops|
  {
    if ops != [] {
      IntenUntouched(ApplyOp(c, ops[0]), ops[1..]);
    }
  }
}
