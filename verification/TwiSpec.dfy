/** The TWI (I2C) interrupt state machine, and the controller it drives.

    A channel is the driver's state; a controller is the hardware's registers together with
    what the current transfer has put on the bus. The controller acts whenever its interrupt
    flag is clear, posts a status code and raises the flag; the interrupt routine answers
    with register operations that clear it again. */
module TwiSpec {
  import opened Common

  type Byte = bv8

  /** A status code. */
  type Code = c: nat | c < 256

  const USIZE_RANGE: int := 0x1_0000_0000
  const ISIZE_MAX: nat := 0x7FFF_FFFF

  // ---- The driver's channel ----

  datatype XferStatus = Idle | Running

  /** A message; its bytes are in the write buffer or the read buffer of the transfer. */
  datatype Msg = Msg(addr: Byte, read: bool, len: nat)

  datatype Channel = Channel(
    msgs: seq<Option<Msg>>,
    idx: nat,
    ptr: nat,
    num: nat,
    status: XferStatus,
    tx: seq<Byte>,
    rx: seq<Byte>,
    woken: bool)

  function BufferOf(ch: Channel, read: bool): seq<Byte> {
    if read then ch.rx else ch.tx
  }

  /** Two message slots, each no longer than the buffer behind it, and slices no longer than
      `isize::MAX`. */
  ghost predicate ChannelOk(ch: Channel) {
    && |ch.msgs| == 2
    && ch.num <= 2
    && ch.ptr <= ISIZE_MAX && |ch.tx| <= ISIZE_MAX && |ch.rx| <= ISIZE_MAX
    && forall k | 0 <= k < 2 && ch.msgs[k].Some? :: ch.msgs[k].value.len <= |BufferOf(ch, ch.msgs[k].value.read)|
  }

  // ---- The controller ----

  datatype BusEvent =
    | Start
    | RepeatedStart
    | Address(addr: Byte, read: bool, acked: bool)
    | Sent(byte: Byte, acked: bool)
    | Received(byte: Byte, acked: bool)
    | Stop

  datatype Controller = Controller(
    flag: bool,
    inten: bool,
    sta: bool,
    ack: bool,
    data: Byte,
    status: Code,
    bus: seq<BusEvent>)

  /** The other side's part in one bus action. A received byte comes with every reply. */
  datatype Answer = Ack | Nack | Lost | Fault
  datatype Reply = Reply(answer: Answer, byte: Byte)

  const BUS_ERR: Code := 0x00
  const TX_STA: Code := 0x08
  const TX_RESTA: Code := 0x10
  const TX_AW_ACK: Code := 0x18
  const TX_AW_NAK: Code := 0x20
  const TXD_ACK: Code := 0x28
  const TXD_NAK: Code := 0x30
  const ARB_LOST: Code := 0x38
  const TX_AR_ACK: Code := 0x40
  const TX_AR_NAK: Code := 0x48
  const RXD_ACK: Code := 0x50
  const RXD_NAK: Code := 0x58
  const TXD_ADDR2_ACK: Code := 0xD0
  const TXD_ADDR2_NAK: Code := 0xD8
  const IDLE: Code := 0xF8

  /** What the controller is about to do, by its registers. */
  datatype Action = DoStart | DoAddress | DoSend | DoReceive | Nothing

  function NextAction(c: Controller): Action {
    if c.sta then DoStart
    else if c.status == TX_STA || c.status == TX_RESTA then DoAddress
    else if c.status == TX_AW_ACK || c.status == TXD_ACK then DoSend
    else if c.status == TX_AR_ACK || c.status == RXD_ACK then DoReceive
    else Nothing
  }

  function Post(c: Controller, status: Code, events: seq<BusEvent>): (d: Controller)
    ensures d.flag && d.inten == c.inten
  {
    c.(flag := true, sta := false, status := status, bus := c.bus + events)
  }

  /** One bus action: the status codes legal for it, and the bus events it leaves. */
  function Respond(c: Controller, r: Reply): (d: Controller)
    ensures d.inten == c.inten
    ensures d.flag <==> c.flag || NextAction(c) != Nothing
  {
    var action := NextAction(c);
    if c.flag || action == Nothing then c
    else if r.answer == Fault then Post(c, BUS_ERR, [])
    else if r.answer == Lost && action != DoReceive then Post(c, ARB_LOST, [])
    else match action {
      case DoStart =>
        if c.bus == [] then Post(c, TX_STA, [Start]) else Post(c, TX_RESTA, [RepeatedStart])
      case DoAddress =>
        var read := c.data & 1 == 1;
        Post(c,
             if read then (if r.answer == Ack then TX_AR_ACK else TX_AR_NAK)
             else if r.answer == Ack then TX_AW_ACK else TX_AW_NAK,
             [Address(c.data >> 1, read, r.answer == Ack)])
      case DoSend =>
        Post(c, if r.answer == Ack then TXD_ACK else TXD_NAK, [Sent(c.data, r.answer == Ack)])
      case DoReceive =>
        Post(c.(data := r.byte), if c.ack then RXD_ACK else RXD_NAK, [Received(r.byte, c.ack)])
      case Nothing => c
    }
  }

  // ---- Register operations of the driver ----

  datatype RegOp = SetStart | ClearFlag | PutByte(byte: Byte) | AckOn | AckOff

  function ApplyOp(c: Controller, op: RegOp): Controller {
    match op
    case SetStart => c.(sta := true)
    case ClearFlag => c.(flag := false)
    case PutByte(b) => c.(data := b, flag := false)
    case AckOn => c.(ack := true)
    case AckOff => c.(ack := false)
  }

  function ApplyOps(c: Controller, ops: seq<RegOp>): Controller
    decreases |ops|
  {
    if ops == [] then c else ApplyOps(ApplyOp(c, ops[0]), ops[1..])
  }

  function AddressByte(m: Msg): Byte {
    ((m.addr & 0x7F) << 1) | (if m.read then 1 else 0)
  }

  // ---- The state machine ----

  /** `code as usize`: an `i32` sign-extended into a 32-bit word. */
  function AsUsize(code: int): nat
    requires -USIZE_RANGE < code <= 0
  {
    if code == 0 then 0 else USIZE_RANGE + code
  }

  function Complete(ch: Channel, code: int): Channel
    requires -USIZE_RANGE < code <= 0
  {
    ch.(msgs := [None, None], num := 0, ptr := 0, status := Idle, idx := AsUsize(code), woken := true)
  }

  /** The current message is done: complete the transfer, or start the next message. */
  function NextMsg(ch: Channel): (Channel, seq<RegOp>) {
    var next := ch.(idx := ch.idx + 1, ptr := 0);
    if next.idx >= next.num then (Complete(next, 0), []) else (next, [SetStart, ClearFlag])
  }

  function SendOrNext(ch: Channel, m: Msg): (Channel, seq<RegOp>)
    requires m.len <= |BufferOf(ch, m.read)|
  {
    if ch.ptr < m.len then (ch.(ptr := ch.ptr + 1), [PutByte(BufferOf(ch, m.read)[ch.ptr])]) else NextMsg(ch)
  }

  function StoreByte(ch: Channel, m: Msg, b: Byte): Channel
    requires ch.ptr < m.len <= |BufferOf(ch, m.read)|
  {
    if m.read then ch.(rx := ch.rx[ch.ptr := b]) else ch.(tx := ch.tx[ch.ptr := b])
  }

  /** `len.wrapping_sub(1)` */
  function LastIndex(len: nat): nat {
    if len == 0 then USIZE_RANGE - 1 else len - 1
  }

  /** `twi_core_process`: one interrupt with status `state` and data register `data`. Every
      buffer index it uses is below the message length, whatever the status. */
  function CoreStep(ch: Channel, state: Code, data: Byte): (Channel, seq<RegOp>)
    requires ChannelOk(ch)
  {
    if ch.idx >= ch.num || ch.msgs[ch.idx].None? then (Complete(ch, -1), [])
    else
      var m := ch.msgs[ch.idx].value;
      if state == IDLE || state == BUS_ERR then (Complete(ch, -(state as int)), [])
      else if state == TX_STA || state == TX_RESTA then (ch, [PutByte(AddressByte(m))])
      else if state == TXD_ADDR2_NAK || state == TX_AW_NAK then (Complete(ch, -0x20), [])
      else if state == TX_AW_ACK || state == TXD_ADDR2_ACK || state == TXD_ACK then SendOrNext(ch, m)
      else if state == TXD_NAK then (Complete(ch, -0x30), [])
      else if state == ARB_LOST then (Complete(ch, -0x38), [])
      else if state == TX_AR_ACK then (ch, if m.len > 1 then [AckOn, ClearFlag] else [ClearFlag])
      else if state == TX_AR_NAK then (Complete(ch, -0x48), [])
      else if state == RXD_ACK then
        if ch.ptr < m.len then
          (StoreByte(ch, m, data).(ptr := ch.ptr + 1), if ch.ptr + 2 == m.len then [AckOff, ClearFlag] else [ClearFlag])
        else (Complete(ch, -0x50), [])
      else if state == RXD_NAK then
        if ch.ptr == LastIndex(m.len) then NextMsg(StoreByte(ch, m, data))
        else (Complete(ch, -0x58), [])
      else (Complete(ch, -(state as int)), [])
  }

  // ---- Driver and controller together ----

  datatype System = System(ch: Channel, ctl: Controller)

  /** `twi_isr`: taken only while the interrupt is enabled, and left enabled only while the
      transfer is running. */
  function Isr(s: System): System
    requires ChannelOk(s.ch)
  {
    if !s.ctl.flag || !s.ctl.inten then s
    else
      var (ch, ops) := CoreStep(s.ch, s.ctl.status, s.ctl.data);
      System(ch, ApplyOps(s.ctl, ops).(inten := ch.status == Running))
  }

  /** One bus action and the interrupt it raises. */
  function BusStep(s: System, r: Reply): System
    requires ChannelOk(s.ch)
  {
    Isr(s.(ctl := Respond(s.ctl, r)))
  }
}
