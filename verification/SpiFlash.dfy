/** The SPI NOR flash driver: programs page by page, and what it leaves on the chip is the
    flat write the caller asked for. */
module SpiFlash {
  import opened NorSpec
  import opened Spi

  datatype FlashResult = Done | SpiError | TooLarge

  /** The cells hold some prefix of the data on top of what they held. */
  ghost predicate WrotePrefix(mem: Cells, addr: nat, data: seq<Byte>, after: Cells) {
    exists k | 0 <= k <= |data| :: after == AndWrite(mem, addr, data[..k])
  }

  /** The same, for one page program: the address wraps inside its page. */
  ghost predicate WrotePagePrefix(mem: Cells, addr: nat, data: seq<Byte>, after: Cells) {
    exists k | 0 <= k <= |data| :: after == PageWrite(mem, addr, data[..k])
  }

  lemma AnswerLength(p: Port, cmd: seq<Byte>, fill: seq<Byte>)
    requires PortOk(p)
    ensures var (ok, _, got) := ThenSpec(p, cmd, fill); ok ==> |got| == |fill|
  {
  }

  class Flash {
    const spi: SpiBus

    /** Empty FIFOs, and between transactions. */
    ghost predicate Quiet()
      reads this, spi
    {
      CleanPort(spi.State()) && Resting(spi.dev)
    }

    ghost predicate Ready()
      reads this, spi
    {
      Quiet() && spi.dev.busy == 0
    }

    constructor (bus: SpiBus)
      ensures spi == bus
    {
      spi := bus;
    }

    /** `write_enable`: one transaction, whatever the FIFOs hold; from a ready chip and empty
        FIFOs it sets the latch. */
    method WriteEnable() returns (ok: bool)
      requires spi.Valid()
      modifies spi
      ensures spi.Valid() && !spi.dev.selected
      ensures var (done, p, _) := TransferSpec(Selected(old(spi.State())), [0x06]);
              ok == done && spi.State() == Deselected(p)
      ensures old(Ready()) && ok ==> Ready() && spi.dev == old(spi.dev).(wel := true)
      ensures old(Ready()) && !ok ==> spi.dev.mem == old(spi.dev.mem)
      ensures old(Ready()) && NoStalls(old(spi.stalls)) ==> ok && NoStalls(spi.stalls)
    {
      hide Transact, TransferSpec, ThenSpec, Deselect;
      ghost var was := spi.State();
      ok := spi.XferSend([WRITE_ENABLE]);
      if old(Ready()) {
        CleanXfer(was, [WRITE_ENABLE]);
        if ok {
          EnableTransaction(was.dev);
        } else {
          CutEnable(was.dev, spi.dev);
        }
      }
    }

    /** `read_status`: the second byte of one transaction, whatever the FIFOs hold; from empty
        FIFOs that is the chip's status. */
    method ReadStatus() returns (ok: bool, sr: Byte)
      requires spi.Valid()
      modifies spi
      ensures spi.Valid() && !spi.dev.selected
      ensures var (done, p, got) := TransferSpec(Selected(old(spi.State())), [0x05, 0]);
              ok == done && spi.State() == Deselected(p) && (ok ==> sr == got[1])
      ensures old(Quiet()) && ok ==>
                CleanPort(spi.State()) && sr == StatusByte(old(spi.dev)) && (sr % 2 == 1 <==> old(spi.dev.busy) > 0)
                && spi.dev == old(spi.dev).(busy := if old(spi.dev.busy) == 0 then 0 else old(spi.dev.busy) - 1)
      ensures old(Quiet()) && !ok ==> spi.dev.mem == old(spi.dev.mem)
      ensures old(Quiet()) && NoStalls(old(spi.stalls)) ==> ok && NoStalls(spi.stalls)
    {
      hide Transact, TransferSpec, ThenSpec, Deselect, Driven;
      ghost var was := spi.State();
      var rx := new Byte[2];
      assert Pad([READ_STATUS, 0], 2) == [READ_STATUS, 0];
      ok := spi.Xfer([READ_STATUS, 0], rx);
      sr := rx[1];
      if old(Quiet()) {
        CleanXfer(was, [READ_STATUS, 0]);
        if ok {
          StatusTransaction(was.dev);
        } else {
          CutStatus(was.dev, spi.dev);
        }
      }
    }

    /** `wait_busy`: polls until the operation in progress is done. */
    method WaitBusy() returns (ok: bool)
      requires Quiet()
      modifies spi
      ensures ok ==> Ready() && spi.dev == old(spi.dev).(busy := 0)
      ensures !ok ==> spi.dev.mem == old(spi.dev.mem) && !spi.dev.selected
      ensures NoStalls(old(spi.stalls)) ==> ok && NoStalls(spi.stalls)
    {
      ghost var d := spi.dev;
      ok := true;
      var busy := true;
      while busy
        invariant Quiet() && spi.dev == d.(busy := spi.dev.busy)
        invariant !busy ==> spi.dev.busy == 0
        invariant NoStalls(old(spi.stalls)) ==> NoStalls(spi.stalls)
        decreases busy, spi.dev.busy
      {
        var sr: Byte;
        ok, sr := ReadStatus();
        if !ok {
          return;
        }
        busy := sr % 2 == 1;
      }
    }

    /** `page_program`; past the end of the page the address wraps to its start. */
    method PageProgram(addr: nat, data: seq<Byte>) returns (r: FlashResult)
      requires Ready()
      modifies spi
      ensures r == TooLarge <==> |data| > 256
      ensures r == TooLarge ==> spi.dev == old(spi.dev) && Ready()
      ensures r == Done ==>
                Ready() && spi.dev == old(spi.dev).(mem := PageWrite(old(spi.dev.mem), addr, data), wel := data == [])
      ensures r == SpiError ==> WrotePagePrefix(old(spi.dev.mem), addr, data, spi.dev.mem) && !spi.dev.selected
      ensures NoStalls(old(spi.stalls)) ==> r != SpiError && NoStalls(spi.stalls)
    {
      hide Transact, TransferSpec, ThenSpec, Deselect, PageWrite, Command;
      if |data| > PAGE {
        return TooLarge;
      }
      ghost var d := spi.dev;
      NothingProgrammed(d.mem, addr, data);
      var ok := WriteEnable();
      if !ok {
        return SpiError;
      }
      ghost var enabled := spi.dev;
      CleanXferThen(spi.State(), Command(PAGE_PROGRAM, addr), data);
      ok := spi.XferCmdSend(Command(PAGE_PROGRAM, addr), data);
      ProgramOutcome(enabled, addr, data, spi.dev);
      if !ok {
        return SpiError;
      }
      ok := WaitBusy();
      r := if ok then Done else SpiError;
    }

    /** `write`: chunks that end at page boundaries. */
    method Write(addr: nat, data: seq<Byte>) returns (r: FlashResult)
      requires Ready() && addr + |data| <= 0x1_0000_0000
      modifies spi
      ensures r != TooLarge
      ensures r == Done ==> Ready() && spi.dev.mem == AndWrite(old(spi.dev.mem), addr, data)
      ensures r == SpiError ==> WrotePrefix(old(spi.dev.mem), addr, data, spi.dev.mem) && !spi.dev.selected
      ensures NoStalls(old(spi.stalls)) ==> r == Done && NoStalls(spi.stalls)
    {
      hide AndWrite, PageWrite;
      ghost var mem := spi.dev.mem;
      var offset := 0;
      NothingWritten(mem, addr, data);
      while offset < |data|
        invariant 0 <= offset <= |data| && Ready()
        invariant spi.dev.mem == AndWrite(mem, addr, data[..offset])
        invariant NoStalls(old(spi.stalls)) ==> NoStalls(spi.stalls)
      {
        var pageAddr := addr + offset;
        var pageRemain := PAGE - pageAddr % PAGE;
        var chunk := if pageRemain < |data| - offset then pageRemain else |data| - offset;
        PageWriteIsFlat(spi.dev.mem, pageAddr, data[offset..offset + chunk]);
        ghost var before := spi.dev.mem;
        r := PageProgram(pageAddr, data[offset..offset + chunk]);
        if r != Done {
          PagePrefixIsFlat(before, pageAddr, data[offset..offset + chunk], spi.dev.mem);
          PrefixAfter(mem, addr, data, offset, chunk, spi.dev.mem);
          return;
        }
        AndWriteConcat(mem, addr, data[..offset], data[offset..offset + chunk]);
        assert data[..offset + chunk] == data[..offset] + data[offset..offset + chunk];
        offset := offset + chunk;
      }
      assert data[..offset] == data;
      r := Done;
    }

    /** `read`: command and answer in one transaction, whatever the FIFOs hold; from a ready
        chip and empty FIFOs the answer is the cells. */
    method Read(addr: nat, buf: array<Byte>) returns (r: FlashResult)
      requires spi.Valid()
      modifies spi, buf
      ensures spi.Valid() && !spi.dev.selected && r != TooLarge
      ensures var (done, p, got) := ThenSpec(Selected(old(spi.State())), Command(0x03, addr), Fill(buf.Length));
              (r == Done <==> done) && spi.State() == Deselected(p) && (r == Done ==> buf[..] == got)
      ensures old(Ready()) && r == Done ==>
                Ready() && spi.dev == old(spi.dev) && buf[..] == ReadBytes(old(spi.dev.mem), addr, buf.Length)
      ensures old(Ready()) && r == SpiError ==> spi.dev.mem == old(spi.dev.mem)
      ensures old(Ready()) && NoStalls(old(spi.stalls)) ==> r == Done && NoStalls(spi.stalls)
    {
      hide Transact, TransferSpec, ThenSpec, Deselect, Driven, Clock, ReadBytes, Command;
      ghost var was := spi.State();
      ghost var fill := Fill(buf.Length);
      AnswerLength(Selected(was), Command(READ_DATA, addr), fill);
      var ok := spi.XferCmdRead(Command(READ_DATA, addr), buf);
      r := if ok then Done else SpiError;
      if old(Ready()) {
        CleanXferThen(was, Command(READ_DATA, addr), fill);
        if ok {
          ReadTransaction(was.dev, addr, fill);
          ReadChangesNothing(was.dev, addr, fill);
        } else {
          CutRead(was.dev, addr, fill, spi.dev);
        }
      }
    }

    /** `sector_erase_4k`, `block_erase_32k` and `block_erase_64k`, by their command. */
    method Erase(cmd: Byte, addr: nat) returns (r: FlashResult)
      requires Ready() && EraseSize(cmd) > 0
      modifies spi
      ensures r != TooLarge
      ensures r == Done ==> Ready() && spi.dev.mem == EraseBlock(old(spi.dev.mem), addr % CAPACITY, EraseSize(cmd))
      ensures r == SpiError ==> !spi.dev.selected
      ensures NoStalls(old(spi.stalls)) ==> r == Done && NoStalls(spi.stalls)
    {
      hide Transact, TransferSpec, ThenSpec, Deselect, Command, EraseBlock;
      var ok := WriteEnable();
      if !ok {
        return SpiError;
      }
      ghost var d := spi.dev;
      CleanXfer(spi.State(), Command(cmd, addr));
      ok := spi.XferSend(Command(cmd, addr));
      if !ok {
        return SpiError;
      }
      EraseTransaction(d, cmd, addr);
      ok := WaitBusy();
      r := if ok then Done else SpiError;
    }
  }

  lemma CutEnable(d: Nor, e: Nor)
    requires Resting(d) && d.busy == 0 && CutShort(d, [WRITE_ENABLE], e)
    ensures e.mem == d.mem
  {
  }

  lemma CutStatus(d: Nor, e: Nor)
    requires Resting(d) && CutShort(d, [READ_STATUS, 0], e)
    ensures e.mem == d.mem
  {
  }

  lemma CutRead(d: Nor, addr: nat, fill: seq<Byte>, e: Nor)
    requires Resting(d) && d.busy == 0 && CutShort(d, Command(READ_DATA, addr) + fill, e)
    ensures e.mem == d.mem
  {
  }

  lemma NothingWritten(mem: Cells, addr: nat, data: seq<Byte>)
    ensures AndWrite(mem, addr, data[..0]) == mem && WrotePrefix(mem, addr, data, mem)
  {
  }

  lemma NothingProgrammed(mem: Cells, addr: nat, data: seq<Byte>)
    ensures PageWrite(mem, addr, data[..0]) == mem && WrotePagePrefix(mem, addr, data, mem)
  {
    assert data[..0] == [];
  }

  /** However a page-program transaction ends, a prefix of the data is on the chip. */
  lemma ProgramOutcome(d: Nor, addr: nat, data: seq<Byte>, e: Nor)
    requires Resting(d) && d.busy == 0 && d.wel
    ensures e == Transact(d, Command(PAGE_PROGRAM, addr) + data) ==>
              && e == (if data == [] then d else d.(mem := PageWrite(d.mem, addr, data), wel := false, busy := d.latency))
              && e.mem == PageWrite(d.mem, addr, data) && WrotePagePrefix(d.mem, addr, data, e.mem)
    ensures CutShort(d, Command(PAGE_PROGRAM, addr) + data, e) ==> WrotePagePrefix(d.mem, addr, data, e.mem)
  {
    hide Transact, TransferSpec, ThenSpec, Deselect, Command, PageWrite;
    var s := Command(PAGE_PROGRAM, addr) + data;
    NothingProgrammed(d.mem, addr, data);
    if e == Transact(d, s) {
      ProgramTransaction(d, addr, data, |s|);
      assert s[..|s|] == s;
      assert data[..|data|] == data;
      assert data == [] ==> data[..0] == data;
    }
    if CutShort(d, s, e) {
      var k :| 0 <= k <= |s| && e == Transact(d, s[..k]);
      ProgramTransaction(d, addr, data, k);
    }
  }

  lemma PagePrefixIsFlat(mem: Cells, addr: nat, data: seq<Byte>, after: Cells)
    requires addr % PAGE + |data| <= PAGE && WrotePagePrefix(mem, addr, data, after)
    ensures WrotePrefix(mem, addr, data, after)
  {
    hide AndWrite, PageWrite;
    var k :| 0 <= k <= |data| && after == PageWrite(mem, addr, data[..k]);
    PageWriteIsFlat(mem, addr, data[..k]);
  }

  lemma PrefixAfter(mem: Cells, addr: nat, data: seq<Byte>, offset: nat, chunk: nat, after: Cells)
    requires offset + chunk <= |data|
    requires WrotePrefix(AndWrite(mem, addr, data[..offset]), addr + offset, data[offset..offset + chunk], after)
    ensures WrotePrefix(mem, addr, data, after)
  {
    hide AndWrite;
    var part := data[offset..offset + chunk];
    var k :| 0 <= k <= chunk && after == AndWrite(AndWrite(mem, addr, data[..offset]), addr + offset, part[..k]);
    AndWriteConcat(mem, addr, data[..offset], part[..k]);
    assert data[..offset] + part[..k] == data[..offset + k];
  }
}
