/** The SPI controller's transfers: bursts of at most one FIFO through the chip on the bus,
    each of which may stall, and the transactions built from them. A stalled burst leaves
    bytes behind in the FIFOs; nothing ever empties them. */
module Spi {
  import opened Common
  import opened NorSpec

  const FIFO_SIZE: nat := 64

  /** Whether a burst completes, or stalls after some bytes until the driver gives up. */
  type Stall = Option<nat>

  /** The controller's FIFOs, the chip behind them, and what becomes of the bursts to come;
      none stalls beyond the end of the list. */
  datatype Port = Port(dev: Nor, txFifo: seq<Byte>, rxFifo: seq<Byte>, stalls: seq<Stall>)

  ghost predicate PortOk(p: Port) {
    |p.txFifo| <= FIFO_SIZE && |p.rxFifo| <= FIFO_SIZE
  }

  /** Both FIFOs are empty, as after complete transfers that began so. */
  ghost predicate CleanPort(p: Port) {
    p.txFifo == [] && p.rxFifo == []
  }

  ghost predicate NoStalls(stalls: seq<Stall>) {
    forall k | 0 <= k < |stalls| :: stalls[k] == None
  }

  function Fill(n: nat): (r: seq<Byte>)
    ensures |r| == n && forall i | 0 <= i < n :: r[i] == 0xFF
  {
    if n == 0 then [] else Fill(n - 1) + [0xFF]
  }

  function Max(a: nat, b: nat): nat {
    if a < b then b else a
  }

  function Min(a: nat, b: nat): nat {
    if a < b then a else b
  }

  /** `tx` extended with 0xFF to `len` bytes. */
  function Pad(tx: seq<Byte>, len: nat): (r: seq<Byte>)
    requires |tx| <= len
    ensures |r| == len
    ensures forall i | 0 <= i < len :: r[i] == if i < |tx| then tx[i] else 0xFF
  {
    tx + Fill(len - |tx|)
  }

  // ---- Bursts and transfers ----

  /** A full FIFO drops what is written to it. */
  function Loaded(fifo: seq<Byte>, part: seq<Byte>): seq<Byte> {
    (fifo + part)[..Min(|fifo| + |part|, FIFO_SIZE)]
  }

  /** Bytes a burst of `n` exchanges: it pauses when the RX FIFO is full, or stalls. */
  function Moved(p: Port, n: nat): (k: nat)
    requires PortOk(p)
    ensures k <= n && |p.rxFifo| + k <= FIFO_SIZE
  {
    var room := Min(n, FIFO_SIZE - |p.rxFifo|);
    if p.stalls != [] && p.stalls[0].Some? then Min(p.stalls[0].value, room) else room
  }

  /** Whether the exchange ends before the driver gives up on it. */
  predicate Finishes(p: Port, n: nat)
    requires PortOk(p)
  {
    (p.stalls == [] || p.stalls[0] == None) && Moved(p, n) == n
  }

  function Exchanged(p: Port, n: nat): Port
    requires PortOk(p) && n <= |p.txFifo|
  {
    var k := Moved(p, n);
    Port(Clock(p.dev, p.txFifo[..k]), p.txFifo[k..], p.rxFifo + Driven(p.dev, p.txFifo[..k]),
         if p.stalls == [] then [] else p.stalls[1..])
  }

  /** One burst: preload, exchange, drain as many bytes as were asked for. */
  function BurstSpec(p: Port, part: seq<Byte>): (r: (bool, Port, seq<Byte>))
    requires PortOk(p) && |part| <= FIFO_SIZE
    ensures PortOk(r.1)
    ensures |r.2| == if r.0 then |part| else 0
  {
    var p1 := p.(txFifo := Loaded(p.txFifo, part));
    var p2 := Exchanged(p1, |part|);
    if Finishes(p1, |part|) then (true, p2.(rxFifo := p2.rxFifo[|part|..]), p2.rxFifo[..|part|])
    else (false, p2, [])
  }

  /** `transfer` of the padded bytes `s`, up to the first burst that stalls, and the bytes
      drained. */
  function TransferSpec(p: Port, s: seq<Byte>): (r: (bool, Port, seq<Byte>))
    requires PortOk(p)
    ensures PortOk(r.1)
    ensures |r.2| <= |s| && (r.0 ==> |r.2| == |s|)
    decreases |s|
  {
    if s == [] then (true, p, [])
    else
      var n := Min(|s|, FIFO_SIZE);
      var (ok, p1, got) := BurstSpec(p, s[..n]);
      if !ok then (false, p1, [])
      else
        var (ok1, p2, rest) := TransferSpec(p1, s[n..]);
        (ok1, p2, got + rest)
  }

  /** Two transfers, the second if the first completes. */
  function ThenSpec(p: Port, s: seq<Byte>, t: seq<Byte>): (r: (bool, Port, seq<Byte>))
    requires PortOk(p)
    ensures PortOk(r.1)
  {
    var (ok, p1, _) := TransferSpec(p, s);
    if ok then TransferSpec(p1, t) else (false, p1, [])
  }

  function Selected(p: Port): Port {
    p.(dev := Select(p.dev))
  }

  function Deselected(p: Port): Port {
    p.(dev := Deselect(p.dev))
  }

  // ---- What a transfer amounts to ----

  /** From `d`, some of `s` has been clocked in. */
  ghost predicate Partly(d: Nor, s: seq<Byte>, e: Nor) {
    e == d.(got := e.got) && if d.selected then d.got <= e.got <= d.got + s else e.got == d.got
  }

  lemma PartlyPrefix(d: Nor, s: seq<Byte>, k: nat)
    requires k <= |s|
    ensures Partly(d, s, Clock(d, s[..k]))
  {
    assert d.got + s[..k] <= d.got + s;
  }

  lemma StillPartly(d: Nor, s: seq<Byte>, off: nat, e: Nor)
    requires off <= |s| && Partly(Clock(d, s[..off]), s[off..], e)
    ensures Partly(d, s, e)
  {
    assert s[..off] + s[off..] == s;
    assert d.got + s[..off] + s[off..] == d.got + s;
  }

  lemma PartlyMore(d: Nor, s: seq<Byte>, t: seq<Byte>, e: Nor)
    requires Partly(d, s, e)
    ensures Partly(d, s + t, e)
  {
    assert d.got + s <= d.got + (s + t);
  }

  lemma PartlyAfter(d: Nor, s: seq<Byte>, t: seq<Byte>, e: Nor)
    requires Partly(Clock(d, s), t, e)
    ensures Partly(d, s + t, e)
  {
    assert d.got + (s + t) == d.got + s + t;
  }

  lemma NothingClocked(d: Nor)
    ensures Clock(d, []) == d
  {
    assert d.got + [] == d.got;
  }

  /** The bytes drained, and after them those still in the RX FIFO, are those that were in it
      before, and after them what the chip drove: in order, none lost. */
  ghost predicate InOrder(p: Port, q: Port, sent: seq<Byte>, got: seq<Byte>) {
    q.dev == Clock(p.dev, sent) && got + q.rxFifo == p.rxFifo + Driven(p.dev, sent)
  }

  lemma NothingInOrder(p: Port)
    ensures InOrder(p, p, [], [])
  {
    NothingClocked(p.dev);
    assert [] + p.rxFifo == p.rxFifo + [];
  }

  lemma InOrderThen(p: Port, p1: Port, q: Port, sent: seq<Byte>, more: seq<Byte>, got: seq<Byte>, rest: seq<Byte>)
    requires InOrder(p, p1, sent, got) && InOrder(p1, q, more, rest)
    ensures InOrder(p, q, sent + more, got + rest)
  {
    hide Clock, Driven;
    DrivenConcat(p.dev, sent, more);
    assert got + rest + q.rxFifo == got + (rest + q.rxFifo);
    assert got + p1.rxFifo + Driven(p1.dev, more) == got + (p1.rxFifo + Driven(p1.dev, more));
    assert p.rxFifo + Driven(p.dev, sent) + Driven(p1.dev, more) == p.rxFifo + (Driven(p.dev, sent) + Driven(p1.dev, more));
  }

  lemma BurstInOrder(p: Port, part: seq<Byte>) returns (sent: seq<Byte>)
    requires PortOk(p) && |part| <= FIFO_SIZE
    ensures var (ok, q, got) := BurstSpec(p, part);
            && InOrder(p, q, sent, got)
            && sent + q.txFifo == Loaded(p.txFifo, part)
            && (ok ==> |sent| == |part|)
            && (ok ==> |q.rxFifo| == |p.rxFifo|)
  {
    hide Clock, Driven, Moved;
    var p1 := p.(txFifo := Loaded(p.txFifo, part));
    sent := p1.txFifo[..Moved(p1, |part|)];
    var p2 := Exchanged(p1, |part|);
    if Finishes(p1, |part|) {
      assert p2.rxFifo[..|part|] + p2.rxFifo[|part|..] == p2.rxFifo;
    } else {
      assert [] + p2.rxFifo == p2.rxFifo;
    }
  }

  /** What of `s` gets into a TX FIFO that holds `held` bytes: everything but the end of the
      first burst for which there is no room. */
  function Accepted(held: nat, s: seq<Byte>): (r: seq<Byte>)
    requires held <= FIFO_SIZE
    ensures |r| <= |s| <= held + |r|
    ensures r == s <==> held + Min(|s|, 64) <= 64
  {
    var n := Min(|s|, FIFO_SIZE);
    assert s[..n] + s[n..] == s;
    s[..Min(n, FIFO_SIZE - held)] + s[n..]
  }

  /** A transfer, whatever was in the FIFOs: of the first `tried` bytes of `s`, all of them if
      it completes, those accepted go out behind the ones the TX FIFO held, in order, or are
      still in it; and nothing that comes back is lost or reordered. A completed transfer
      leaves the RX FIFO as full as it found it. */
  lemma {:induction false} TransferInOrder(p: Port, s: seq<Byte>) returns (sent: seq<Byte>, tried: nat)
    requires PortOk(p)
    ensures var (ok, q, got) := TransferSpec(p, s);
            && InOrder(p, q, sent, got)
            && Min(|s|, FIFO_SIZE) <= tried <= |s|
            && sent + q.txFifo == p.txFifo + Accepted(|p.txFifo|, s[..tried])
            && (ok ==> tried == |s| && |sent| == |s| && |q.rxFifo| == |p.rxFifo|)
    decreases |s|
  {
    hide Clock, Driven, BurstSpec, Accepted, InOrder;
    sent, tried := [], 0;
    if s == [] {
      NothingInOrder(p);
      assert [] + p.txFifo == p.txFifo + [];
    } else {
      var n := Min(|s|, FIFO_SIZE);
      var (ok, p1, got) := BurstSpec(p, s[..n]);
      sent := BurstInOrder(p, s[..n]);
      tried := n;
      FirstBurstAccepted(p.txFifo, s, n);
      if ok {
        var (_, q, rest) := TransferSpec(p1, s[n..]);
        var more, later := TransferInOrder(p1, s[n..]);
        InOrderThen(p, p1, q, sent, more, got, rest);
        tried := n + later;
        FirstBurstAccepted(p.txFifo, s, tried);
        LaterBursts(p.txFifo, s, n, later, sent, p1.txFifo, more, q.txFifo);
        sent := sent + more;
      }
    }
  }

  lemma FirstBurstAccepted(held: seq<Byte>, s: seq<Byte>, tried: nat)
    requires |held| <= FIFO_SIZE && Min(|s|, FIFO_SIZE) <= tried <= |s|
    ensures var n := Min(|s|, FIFO_SIZE);
            held + Accepted(|held|, s[..tried]) == Loaded(held, s[..n]) + s[n..tried]
  {
    var n := Min(|s|, FIFO_SIZE);
    assert s[..tried][n..] == s[n..tried];
    assert s[..tried][..Min(n, FIFO_SIZE - |held|)] == s[..n][..Min(n, FIFO_SIZE - |held|)];
    assert Loaded(held, s[..n]) == held + s[..n][..Min(n, FIFO_SIZE - |held|)];
  }

  /** A first burst as long as the FIFO leaves it empty, so every later burst has room. */
  lemma LaterBursts(held: seq<Byte>, s: seq<Byte>, n: nat, later: nat, sent: seq<Byte>, left: seq<Byte>,
                    more: seq<Byte>, end: seq<Byte>)
    requires |held| <= FIFO_SIZE && n == Min(|s|, FIFO_SIZE) && later <= |s| - n && |sent| == n && |left| <= FIFO_SIZE
    requires sent + left == Loaded(held, s[..n])
    requires more + end == left + Accepted(|left|, s[n..][..later])
    ensures sent + more + end == Loaded(held, s[..n]) + s[n..n + later]
  {
    assert s[n..][..later] == s[n..n + later];
    assert sent + more + end == sent + (more + end);
    if n < FIFO_SIZE {
      assert s[n..] == [];
      assert Accepted(|left|, []) == [];
    } else {
      assert left == [];
    }
    assert Accepted(|left|, s[n..n + later]) == s[n..n + later];
    assert sent + (left + s[n..n + later]) == sent + left + s[n..n + later];
  }

  /** A completed transfer in closed form: the bytes left in either FIFO by an earlier stall
      come first, and as many of the new ones stay behind. */
  lemma LeftoversComeFirst(p: Port, s: seq<Byte>)
    requires PortOk(p) && TransferSpec(p, s).0
    ensures var (_, q, got) := TransferSpec(p, s);
            var queued := p.txFifo + Accepted(|p.txFifo|, s);
            && q.dev == Clock(p.dev, queued[..|s|]) && q.txFifo == queued[|s|..]
            && got == (p.rxFifo + Driven(p.dev, queued[..|s|]))[..|s|]
            && q.rxFifo == (p.rxFifo + Driven(p.dev, queued[..|s|]))[|s|..]
  {
    hide Clock, Driven, TransferSpec, Accepted;
    var sent, tried := TransferInOrder(p, s);
    var (_, q, got) := TransferSpec(p, s);
    assert s[..tried] == s;
    assert (sent + q.txFifo)[..|s|] == sent && (sent + q.txFifo)[|s|..] == q.txFifo;
    assert (got + q.rxFifo)[..|s|] == got && (got + q.rxFifo)[|s|..] == q.rxFifo;
  }

  /** With an empty TX FIFO what goes out is what was given. */
  lemma {:induction false} SentAsGiven(p: Port, s: seq<Byte>)
    requires PortOk(p) && p.txFifo == []
    ensures var (ok, q, _) := TransferSpec(p, s);
            if ok then q.txFifo == [] && q.dev == Clock(p.dev, s) else Partly(p.dev, s, q.dev)
    decreases |s|
  {
    hide Clock, Driven, BurstSpec, Partly;
    if s == [] {
      NothingClocked(p.dev);
    } else {
      var n := Min(|s|, FIFO_SIZE);
      var (ok, p1, _) := BurstSpec(p, s[..n]);
      BurstAsGiven(p, s[..n]);
      assert s[..n] + s[n..] == s;
      if ok {
        SentAsGiven(p1, s[n..]);
        DrivenConcat(p.dev, s[..n], s[n..]);
        if !TransferSpec(p1, s[n..]).0 {
          StillPartly(p.dev, s, n, TransferSpec(p1, s[n..]).1.dev);
        }
      } else {
        PartlyMore(p.dev, s[..n], s[n..], p1.dev);
      }
    }
  }

  lemma BurstAsGiven(p: Port, part: seq<Byte>)
    requires PortOk(p) && p.txFifo == [] && |part| <= FIFO_SIZE
    ensures var (ok, q, _) := BurstSpec(p, part);
            if ok then q.txFifo == [] && q.dev == Clock(p.dev, part) else Partly(p.dev, part, q.dev)
  {
    hide Clock, Driven, Partly;
    assert [] + part == part;
    var p1 := p.(txFifo := Loaded(p.txFifo, part));
    assert p1.txFifo == part;
    var k := Moved(p1, |part|);
    PartlyPrefix(p.dev, part, k);
    assert k == |part| ==> part[..k] == part;
  }

  /** Without stalls a transfer completes if and only if its longest burst fits into what
      room the RX FIFO has. */
  lemma {:induction false} UnstalledCompletesIff(p: Port, s: seq<Byte>)
    requires PortOk(p) && NoStalls(p.stalls)
    ensures TransferSpec(p, s).0 <==> s == [] || |p.rxFifo| + Min(|s|, 64) <= 64
    ensures NoStalls(TransferSpec(p, s).1.stalls)
    decreases |s|
  {
    hide Clock, Driven;
    if s != [] {
      UnstalledCompletesIff(BurstSpec(p, s[..Min(|s|, FIFO_SIZE)]).1, s[Min(|s|, FIFO_SIZE)..]);
    }
  }

  /** From empty FIFOs a completed transfer sends `s`, returns what the chip drives
      meanwhile, and leaves the FIFOs empty; a stalled one has sent a prefix. */
  lemma CleanTransfer(p: Port, s: seq<Byte>)
    requires CleanPort(p)
    ensures var (ok, q, got) := TransferSpec(p, s);
            && (if ok then CleanPort(q) && q.dev == Clock(p.dev, s) && got == Driven(p.dev, s) else Partly(p.dev, s, q.dev))
            && (NoStalls(p.stalls) ==> ok && NoStalls(q.stalls))
  {
    hide Clock, Driven, BurstSpec, Partly, TransferSpec;
    SentAsGiven(p, s);
    if TransferSpec(p, s).0 {
      LeftoversComeFirst(p, s);
      assert ([] + s)[..|s|] == s && ([] + s)[|s|..] == [];
      assert ([] + Driven(p.dev, s))[..|s|] == Driven(p.dev, s) && ([] + Driven(p.dev, s))[|s|..] == [];
    }
    if NoStalls(p.stalls) {
      UnstalledCompletesIff(p, s);
    }
  }

  /** ... and so do two in a row. */
  lemma CleanThen(p: Port, s: seq<Byte>, t: seq<Byte>)
    requires CleanPort(p)
    ensures var (ok, q, got) := ThenSpec(p, s, t);
            && (if ok then CleanPort(q) && q.dev == Clock(p.dev, s + t) && got == Driven(Clock(p.dev, s), t)
                else Partly(p.dev, s + t, q.dev))
            && (NoStalls(p.stalls) ==> ok && NoStalls(q.stalls))
  {
    hide Clock, Driven, TransferSpec, Partly;
    CleanTransfer(p, s);
    DrivenConcat(p.dev, s, t);
    var (ok, p1, _) := TransferSpec(p, s);
    if ok {
      CleanTransfer(p1, t);
      if !TransferSpec(p1, t).0 {
        PartlyAfter(p.dev, s, t, TransferSpec(p1, t).1.dev);
      }
    } else {
      PartlyMore(p.dev, s, t, p1.dev);
    }
  }

  /** A transaction with `s` that broke off somewhere. */
  ghost predicate CutShort(d: Nor, s: seq<Byte>, e: Nor) {
    exists k | 0 <= k <= |s| :: e == Transact(d, s[..k])
  }

  lemma PartlyIsCutShort(d: Nor, s: seq<Byte>, e: Nor)
    requires Partly(Select(d), s, e)
    ensures CutShort(d, s, Deselect(e))
  {
    hide Deselect;
    var k := |e.got|;
    assert [] + s == s;
    assert e.got == s[..k];
    assert [] + s[..k] == s[..k];
    assert e == Clock(Select(d), s[..k]);
  }

  lemma LoadedOneMore(fifo: seq<Byte>, s: seq<Byte>, off: nat, i: nat)
    requires |fifo| <= FIFO_SIZE && off + i < |s|
    ensures var now := Loaded(fifo, s[off..off + i]);
            Loaded(fifo, s[off..off + i + 1]) == if |now| < FIFO_SIZE then now + [s[off + i]] else now
  {
    assert fifo + s[off..off + i + 1] == fifo + s[off..off + i] + [s[off + i]];
  }

  // ---- The controller ----

  class SpiBus {
    var dev: Nor
    var txFifo: seq<Byte>
    var rxFifo: seq<Byte>
    var stalls: seq<Stall>

    ghost function State(): Port
      reads this
    {
      Port(dev, txFifo, rxFifo, stalls)
    }

    ghost predicate Valid()
      reads this
    {
      PortOk(State())
    }

    constructor (chip: Nor, future: seq<Stall>)
      ensures Valid() && State() == Port(chip, [], [], future)
    {
      dev, txFifo, rxFifo, stalls := chip, [], [], future;
    }

    method PutByte(b: Byte)
      modifies this`txFifo
      ensures txFifo == if |old(txFifo)| < FIFO_SIZE then old(txFifo) + [b] else old(txFifo)
    {
      if |txFifo| < FIFO_SIZE {
        txFifo := txFifo + [b];
      }
    }

    method GetByte() returns (b: Byte)
      requires rxFifo != []
      modifies this`rxFifo
      ensures [b] + rxFifo == old(rxFifo)
    {
      b := rxFifo[0];
      rxFifo := rxFifo[1..];
    }

    /** Start the exchange of `n` bytes and wait for it; false if the wait times out. */
    method Exchange(n: nat) returns (ok: bool)
      requires Valid() && n <= |txFifo|
      modifies this
      ensures Valid() && State() == Exchanged(old(State()), n) && ok == Finishes(old(State()), n)
    {
      ghost var p := State();
      var k := Min(n, FIFO_SIZE - |rxFifo|);
      ok := k == n;
      if stalls != [] {
        if stalls[0].Some? {
          ok := false;
          k := Min(stalls[0].value, k);
        }
        stalls := stalls[1..];
      }
      rxFifo := rxFifo + Driven(dev, txFifo[..k]);
      dev := Clock(dev, txFifo[..k]);
      txFifo := txFifo[k..];
    }

    /** Preload the TX FIFO with the bytes from `off` on, 0xFF past the end. */
    method Preload(tx: seq<Byte>, off: nat, n: nat, ghost len: nat)
      requires |txFifo| <= FIFO_SIZE && |tx| <= len && off + n <= len
      modifies this`txFifo
      ensures txFifo == Loaded(old(txFifo), Pad(tx, len)[off..off + n])
    {
      ghost var s := Pad(tx, len);
      ghost var before := txFifo;
      assert before + s[off..off] == before;
      for i := 0 to n
        invariant txFifo == Loaded(before, s[off..off + i])
      {
        LoadedOneMore(before, s, off, i);
        PutByte(if off + i < |tx| then tx[off + i] else 0xFF);
      }
    }

    /** Drain `n` bytes into `rx[lo + off ..]`, discarding those past `hi`. */
    method Drain(rx: array<Byte>, lo: nat, hi: nat, off: nat, n: nat)
      requires |rxFifo| >= n && lo <= hi <= rx.Length
      modifies this`rxFifo, rx
      ensures rxFifo == old(rxFifo)[n..]
      ensures forall j | 0 <= j < rx.Length ::
                rx[j] == if lo + off <= j < lo + off + n && j < hi then old(rxFifo)[j - lo - off] else old(rx[j])
    {
      ghost var bytes := rxFifo;
      for i := 0 to n
        invariant rxFifo == bytes[i..]
        invariant forall j | 0 <= j < rx.Length ::
                    rx[j] == if lo + off <= j < lo + off + i && j < hi then bytes[j - lo - off] else old(rx[j])
      {
        var b := GetByte();
        assert b == bytes[i];
        if lo + off + i < hi {
          rx[lo + off + i] := b;
        }
      }
    }

    /** One burst of `transfer`. */
    method Burst(tx: seq<Byte>, rx: array<Byte>, lo: nat, hi: nat, off: nat, n: nat, ghost len: nat) returns (ok: bool)
      requires Valid() && lo <= hi <= rx.Length && n <= FIFO_SIZE && |tx| <= len && off + n <= len
      modifies this, rx
      ensures Valid()
      ensures var (done, p, got) := BurstSpec(old(State()), Pad(tx, len)[off..off + n]);
              && ok == done && State() == p
              && forall j | 0 <= j < rx.Length ::
                   rx[j] == if ok && lo + off <= j < lo + off + n && j < hi then got[j - lo - off] else old(rx[j])
    {
      hide Driven, Clock, Pad, Moved;
      Preload(tx, off, n, len);
      ok := Exchange(n);
      if ok {
        Drain(rx, lo, hi, off, n);
      }
    }

    /** `transfer`: `tx`, padded with 0xFF, goes out while `rx[lo..hi]` is filled; the bytes
        received past it are dropped. */
    method Transfer(tx: seq<Byte>, rx: array<Byte>, lo: nat, hi: nat) returns (ok: bool)
      requires Valid() && lo <= hi <= rx.Length
      modifies this, rx
      ensures Valid()
      ensures var (done, p, got) := TransferSpec(old(State()), Pad(tx, Max(|tx|, hi - lo)));
              && ok == done && State() == p
              && forall j | 0 <= j < rx.Length :: rx[j] == if lo <= j < hi && j - lo < |got| then got[j - lo] else old(rx[j])
    {
      hide BurstSpec, TransferSpec, Pad;
      var len := Max(|tx|, hi - lo);
      ghost var s := Pad(tx, len);
      ghost var got: seq<Byte> := [];
      ghost var start := State();
      var off := 0;
      ResumeNothing(TransferSpec(start, s));
      assert s[0..] == s;
      while off < len
        invariant 0 <= off <= len && Valid() && |got| == off
        invariant TransferSpec(start, s) == Resumed(got, TransferSpec(State(), s[off..]))
        invariant forall j | 0 <= j < rx.Length :: rx[j] == if lo <= j < hi && j - lo < |got| then got[j - lo] else old(rx[j])
      {
        var n := Min(len - off, FIFO_SIZE);
        ghost var p := State();
        TransferUnfolds(p, s[off..]);
        assert s[off..][..n] == s[off..off + n] && s[off..][n..] == s[off + n..];
        var done := Burst(tx, rx, lo, hi, off, n, len);
        ghost var drained := BurstSpec(p, s[off..off + n]).2;
        if !done {
          assert got + [] == got;
          return false;
        }
        ResumeTwice(got, drained, TransferSpec(State(), s[off + n..]));
        got := got + drained;
        off := off + n;
      }
      TransferEnds(State());
      assert s[off..] == [] && got + [] == got;
      ok := true;
    }

    /** `send`: in 64-byte chunks, whatever comes back thrown away. */
    method Send(tx: seq<Byte>) returns (ok: bool)
      requires Valid()
      modifies this
      ensures Valid() && ok == TransferSpec(old(State()), tx).0 && State() == TransferSpec(old(State()), tx).1
    {
      hide BurstSpec, TransferSpec;
      var scratch := new Byte[64];
      ghost var start := State();
      var off := 0;
      assert tx[0..] == tx;
      while off < |tx|
        invariant 0 <= off <= |tx| && Valid() && fresh(scratch)
        invariant TransferSpec(start, tx).0 == TransferSpec(State(), tx[off..]).0
        invariant TransferSpec(start, tx).1 == TransferSpec(State(), tx[off..]).1
      {
        var chunk := Min(|tx| - off, 64);
        var part := tx[off..off + chunk];
        ghost var p := State();
        assert Pad(part, chunk) == part;
        OneBurst(p, part);
        TransferUnfolds(p, tx[off..]);
        assert tx[off..][..chunk] == part && tx[off..][chunk..] == tx[off + chunk..];
        var done := Transfer(part, scratch, 0, chunk);
        if !done {
          return false;
        }
        off := off + chunk;
      }
      TransferEnds(State());
      assert tx[off..] == [];
      ok := true;
    }

    /** `receive`: 0xFF goes out, in 64-byte chunks. */
    method Receive(rx: array<Byte>) returns (ok: bool)
      requires Valid()
      modifies this, rx
      ensures Valid()
      ensures var (done, p, got) := TransferSpec(old(State()), Fill(rx.Length));
              && ok == done && State() == p
              && forall j | 0 <= j < rx.Length :: rx[j] == if j < |got| then got[j] else old(rx[j])
    {
      hide BurstSpec, TransferSpec;
      ghost var s := Fill(rx.Length);
      ghost var got: seq<Byte> := [];
      ghost var start := State();
      var off := 0;
      ResumeNothing(TransferSpec(start, s));
      assert s[0..] == s;
      while off < rx.Length
        invariant 0 <= off <= rx.Length && Valid() && |got| == off
        invariant TransferSpec(start, s) == Resumed(got, TransferSpec(State(), s[off..]))
        invariant forall j | 0 <= j < rx.Length :: rx[j] == if j < |got| then got[j] else old(rx[j])
      {
        var chunk := Min(rx.Length - off, 64);
        ghost var part := s[off..off + chunk];
        ghost var p := State();
        assert Pad([0xFF], chunk) == part;
        OneBurst(p, part);
        TransferUnfolds(p, s[off..]);
        assert s[off..][..chunk] == part && s[off..][chunk..] == s[off + chunk..];
        var done := Transfer([0xFF], rx, off, off + chunk);
        ghost var drained := BurstSpec(p, part).2;
        if !done {
          assert got + [] == got;
          return false;
        }
        ResumeTwice(got, drained, TransferSpec(State(), s[off + chunk..]));
        got := got + drained;
        off := off + chunk;
      }
      TransferEnds(State());
      assert s[off..] == [] && got + [] == got;
      ok := true;
    }

    method AssertCs()
      modifies this`dev
      ensures State() == Selected(old(State()))
    {
      dev := Select(dev);
    }

    method DeassertCs()
      modifies this`dev
      ensures State() == Deselected(old(State())) && !dev.selected
    {
      dev := Deselect(dev);
    }

    /** `xfer` */
    method Xfer(tx: seq<Byte>, rx: array<Byte>) returns (ok: bool)
      requires Valid()
      modifies this, rx
      ensures Valid() && !dev.selected
      ensures var (done, p, got) := TransferSpec(Selected(old(State())), Pad(tx, Max(|tx|, rx.Length)));
              && ok == done && State() == Deselected(p)
              && forall j | 0 <= j < rx.Length :: rx[j] == if j < |got| then got[j] else old(rx[j])
    {
      hide TransferSpec, Select, Deselect;
      AssertCs();
      ok := Transfer(tx, rx, 0, rx.Length);
      DeassertCs();
    }

    /** `xfer_send` */
    method XferSend(tx: seq<Byte>) returns (ok: bool)
      requires Valid()
      modifies this
      ensures Valid() && !dev.selected
      ensures var (done, p, _) := TransferSpec(Selected(old(State())), tx);
              ok == done && State() == Deselected(p)
    {
      hide TransferSpec, Select, Deselect;
      AssertCs();
      ok := Send(tx);
      DeassertCs();
    }

    /** `xfer_cmd_send`: both parts in one transaction. */
    method XferCmdSend(cmd: seq<Byte>, data: seq<Byte>) returns (ok: bool)
      requires Valid()
      modifies this
      ensures Valid() && !dev.selected
      ensures var (done, p, _) := ThenSpec(Selected(old(State())), cmd, data);
              ok == done && State() == Deselected(p)
    {
      hide TransferSpec, Select, Deselect;
      AssertCs();
      ok := Send(cmd);
      if ok {
        ok := Send(data);
      }
      DeassertCs();
    }

    /** `xfer_cmd_read`: the command out, then the answer in, in one transaction. */
    method XferCmdRead(cmd: seq<Byte>, rx: array<Byte>) returns (ok: bool)
      requires Valid()
      modifies this, rx
      ensures Valid() && !dev.selected
      ensures var (done, p, got) := ThenSpec(Selected(old(State())), cmd, Fill(rx.Length));
              && ok == done && State() == Deselected(p)
              && forall j | 0 <= j < rx.Length :: rx[j] == if j < |got| then got[j] else old(rx[j])
    {
      hide TransferSpec, Select, Deselect;
      AssertCs();
      var none := new Byte[0];
      assert Pad(cmd, |cmd|) == cmd;
      ok := Transfer(cmd, none, 0, 0);
      if ok {
        ok := Receive(rx);
      }
      DeassertCs();
    }
  }

  /** A result continued: `got` was drained before. */
  function Resumed(got: seq<Byte>, r: (bool, Port, seq<Byte>)): (bool, Port, seq<Byte>) {
    (r.0, r.1, got + r.2)
  }

  lemma ResumeNothing(r: (bool, Port, seq<Byte>))
    ensures Resumed([], r) == r
  {
    assert [] + r.2 == r.2;
  }

  lemma ResumeTwice(a: seq<Byte>, b: seq<Byte>, r: (bool, Port, seq<Byte>))
    ensures Resumed(a, Resumed(b, r)) == Resumed(a + b, r)
  {
    assert a + (b + r.2) == a + b + r.2;
  }

  lemma TransferEnds(p: Port)
    requires PortOk(p)
    ensures TransferSpec(p, []) == (true, p, [])
  {
  }

  lemma TransferUnfolds(p: Port, s: seq<Byte>)
    requires PortOk(p) && s != []
    ensures var n := Min(|s|, FIFO_SIZE);
            var (ok, p1, got) := BurstSpec(p, s[..n]);
            TransferSpec(p, s) == if ok then Resumed(got, TransferSpec(p1, s[n..])) else (false, p1, [])
  {
  }

  /** A chunk no longer than the FIFO is one burst. */
  lemma OneBurst(p: Port, part: seq<Byte>)
    requires PortOk(p) && 0 < |part| <= FIFO_SIZE
    ensures TransferSpec(p, part) == BurstSpec(p, part)
  {
    hide BurstSpec;
    var (ok, p1, got) := BurstSpec(p, part);
    TransferUnfolds(p, part);
    assert part[..|part|] == part && part[|part|..] == [];
    TransferEnds(p1);
    assert got + [] == got;
    assert !ok ==> got == [];
  }

  // ---- Transactions through clean FIFOs ----

  /** From empty FIFOs a completed transaction is exactly one with `s`; a stalled one is cut
      short. */
  lemma CleanXfer(p: Port, s: seq<Byte>)
    requires CleanPort(p)
    ensures var (ok, q, got) := TransferSpec(Selected(p), s);
            && (if ok then
                  && CleanPort(Deselected(q)) && Deselected(q).dev == Transact(p.dev, s)
                  && got == Driven(Select(p.dev), s)
                else CutShort(p.dev, s, Deselected(q).dev))
            && (NoStalls(p.stalls) ==> ok && NoStalls(q.stalls))
  {
    hide Clock, Driven, TransferSpec, Partly, Deselect;
    CleanTransfer(Selected(p), s);
    var (ok, q, _) := TransferSpec(Selected(p), s);
    if !ok {
      PartlyIsCutShort(p.dev, s, q.dev);
    }
  }

  lemma CleanXferThen(p: Port, s: seq<Byte>, t: seq<Byte>)
    requires CleanPort(p)
    ensures var (ok, q, got) := ThenSpec(Selected(p), s, t);
            && (if ok then
                  && CleanPort(Deselected(q)) && Deselected(q).dev == Transact(p.dev, s + t)
                  && got == Driven(Clock(Select(p.dev), s), t)
                else CutShort(p.dev, s + t, Deselected(q).dev))
            && (NoStalls(p.stalls) ==> ok && NoStalls(q.stalls))
  {
    hide Clock, Driven, ThenSpec, Partly, Deselect;
    CleanThen(Selected(p), s, t);
    var (ok, q, _) := ThenSpec(Selected(p), s, t);
    if !ok {
      PartlyIsCutShort(p.dev, s + t, q.dev);
    }
  }

  /** A burst of one byte that stalls before or after exchanging it. */
  lemma OneByteStalls(p: Port, x: Byte, k: nat)
    requires CleanPort(p) && p.stalls == [Some(k)] && k <= 1
    ensures TransferSpec(p, [x]) == (false, Port(Clock(p.dev, [x][..k]), [x][k..], Driven(p.dev, [x][..k]), []), [])
  {
    hide Clock, Driven, TransferSpec;
    OneBurst(p, [x]);
    var p1 := p.(txFifo := [x]);
    assert Loaded(p.txFifo, [x]) == [x];
    assert Moved(p1, 1) == k && !Finishes(p1, 1);
    assert p.stalls[1..] == [];
    assert [] + Driven(p.dev, [x][..k]) == Driven(p.dev, [x][..k]);
    assert BurstSpec(p, [x]) == (false, Exchanged(p1, 1), []);
  }

  /** A transfer that finds room in both FIFOs and does not stall. */
  lemma ShortTransfer(p: Port, s: seq<Byte>)
    requires PortOk(p) && NoStalls(p.stalls) && |p.txFifo| + |s| <= FIFO_SIZE && |p.rxFifo| + |s| <= FIFO_SIZE
    ensures var (ok, q, got) := TransferSpec(p, s);
            && ok && q.dev == Clock(p.dev, (p.txFifo + s)[..|s|]) && q.txFifo == (p.txFifo + s)[|s|..]
            && got == (p.rxFifo + Driven(p.dev, (p.txFifo + s)[..|s|]))[..|s|]
  {
    hide Clock, Driven, TransferSpec, Accepted;
    UnstalledCompletesIff(p, s);
    LeftoversComeFirst(p, s);
  }

  /** The stall comes after the byte: the next short transfer completes, and the first byte
      it returns is the old one. */
  lemma StalledByteComesFirst(p: Port, x: Byte, s: seq<Byte>)
    requires CleanPort(p) && p.stalls == [Some(1)] && |s| < FIFO_SIZE
    ensures var (ok, q, _) := TransferSpec(p, [x]);
            && !ok && TransferSpec(q, s).0
            && TransferSpec(q, s).2 == (Driven(p.dev, [x]) + Driven(q.dev, s))[..|s|]
  {
    hide Clock, Driven, TransferSpec, Accepted, Moved;
    OneByteStalls(p, x, 1);
    assert [x][..1] == [x] && [x][1..] == [];
    var q := TransferSpec(p, [x]).1;
    assert q.txFifo == [] && q.rxFifo == Driven(p.dev, [x]);
    NoneBefore(s);
    ShortTransfer(q, s);
  }

  lemma NoneBefore(s: seq<Byte>)
    ensures ([] + s)[..|s|] == s
  {
  }

  /** The stall comes before the byte: the next short transfer completes all the same, but
      what it sends is the old byte and all of its own bytes except the last. */
  lemma UnsentByteGoesFirst(p: Port, x: Byte, s: seq<Byte>)
    requires CleanPort(p) && p.stalls == [Some(0)] && 0 < |s| < FIFO_SIZE
    ensures var (ok, q, _) := TransferSpec(p, [x]);
            && !ok && TransferSpec(q, s).0
            && TransferSpec(q, s).1.dev == Clock(p.dev, [x] + s[..|s| - 1])
            && TransferSpec(q, s).1.txFifo == [s[|s| - 1]]
  {
    hide Clock, Driven, TransferSpec, Accepted, Moved;
    OneByteStalls(p, x, 0);
    NothingClocked(p.dev);
    assert [x][..0] == [] && [x][0..] == [x];
    ShortTransfer(TransferSpec(p, [x]).1, s);
    OneBehind(x, s);
  }

  lemma OneBehind(x: Byte, s: seq<Byte>)
    requires s != []
    ensures ([x] + s)[..|s|] == [x] + s[..|s| - 1] && ([x] + s)[|s|..] == [s[|s| - 1]]
  {
  }

  /** So a command after such a stall reports success while the chip was given the command
      before it. */
  lemma LateCommandSucceeds(p: Port, x: Byte, a: Byte)
    requires CleanPort(p) && Resting(p.dev) && p.stalls == [Some(0)]
    ensures var (failed, q, _) := TransferSpec(Selected(p), [x]);
            var (ok, r, _) := TransferSpec(Selected(Deselected(q)), [a]);
            !failed && ok && Deselected(q).dev == Transact(p.dev, []) && Deselected(r).dev == Transact(Transact(p.dev, []), [x])
  {
    hide Driven, TransferSpec, Deselect, Select;
    OneByteStalls(Selected(p), x, 0);
    NothingClocked(Select(p.dev));
    assert [x][..0] == [] && [x][0..] == [x];
    var q := Selected(Deselected(TransferSpec(Selected(p), [x]).1));
    ShortTransfer(q, [a]);
    assert ([x] + [a])[..1] == [x];
  }
}
