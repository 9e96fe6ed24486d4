/** A NOR flash chip on an SPI bus: what it answers byte by byte while it is selected, and
    what it does when it is deselected. Programming can only clear bits, and stays inside
    one 256-byte page; addresses are 24 bits. */
module NorSpec {
  import opened Arithmetic

  type Byte = b: nat | b < 256

  const PAGE: nat := 256
  const CAPACITY: nat := 0x100_0000
  const ERASED: Byte := 0xFF

  const WRITE_ENABLE: Byte := 0x06
  const READ_STATUS: Byte := 0x05
  const READ_DATA: Byte := 0x03
  const PAGE_PROGRAM: Byte := 0x02
  const SECTOR_ERASE_4K: Byte := 0x20
  const BLOCK_ERASE_32K: Byte := 0x52
  const BLOCK_ERASE_64K: Byte := 0xD8

  type Cells = s: seq<Byte> | |s| == CAPACITY witness seq(CAPACITY, i => 0)

  /** `got` is what has been clocked in since the chip was selected; `busy` counts the
      transactions until the operation in progress is done, `latency` how many one takes. */
  datatype Nor = Nor(mem: Cells, wel: bool, busy: nat, latency: nat, selected: bool, got: seq<Byte>)

  // ---- Bytes ----

  function And(a: nat, b: nat): (r: nat)
    ensures r <= a && r <= b
  {
    if a == 0 || b == 0 then 0
    else 2 * And(a / 2, b / 2) + if a % 2 == 1 && b % 2 == 1 then 1 else 0
  }

  lemma {:induction false} AndBits(a: nat, b: nat, k: nat)
    ensures Bit(And(a, b), k) <==> Bit(a, k) && Bit(b, k)
  {
    if a == 0 || b == 0 {
      NoBits(k);
    } else if k > 0 {
      AndBits(a / 2, b / 2, k - 1);
    }
  }

  function Ones(k: nat): nat {
    if k == 0 then 0 else 2 * Ones(k - 1) + 1
  }

  lemma {:induction false} AndOnes(b: nat, k: nat)
    requires b <= Ones(k)
    ensures And(Ones(k), b) == b
  {
    if b > 0 {
      AndOnes(b / 2, k - 1);
    }
  }

  lemma AndErased(b: Byte)
    ensures And(ERASED, b) == b
  {
    assert Ones(4) == 15;
    assert Ones(8) == 255;
    AndOnes(b, 8);
  }

  function AddressBytes(addr: nat): (r: seq<Byte>)
    ensures |r| == 3
  {
    [addr / 0x1_0000 % 256, addr / 0x100 % 256, addr % 256]
  }

  function AddressOf(a: seq<Byte>): nat
    requires |a| >= 3
  {
    (a[0] as nat) * 0x1_0000 + (a[1] as nat) * 0x100 + a[2] as nat
  }

  /** On the wire: the command, then the low 24 bits of the address, high byte first. */
  lemma CommandBytes(cmd: Byte, addr: nat)
    ensures var tx := Command(cmd, addr);
            |tx| == 4 && tx[0] == cmd && ((tx[1] as nat) * 256 + tx[2] as nat) * 256 + tx[3] as nat == addr % 0x100_0000
  {
    AddressRoundTrip(addr, []);
    assert AddressBytes(addr) + [] == AddressBytes(addr);
  }

  /** The driver sends the low 24 bits of an address. */
  lemma AddressRoundTrip(addr: nat, rest: seq<Byte>)
    ensures AddressOf(AddressBytes(addr) + rest) == addr % 0x100_0000
  {
    var q0 := addr / 0x100;
    var q1 := q0 / 0x100;
    var q2 := q1 / 0x100;
    DivTwice(addr);
    var low := q1 % 0x100 * 0x1_0000 + q0 % 0x100 * 0x100 + addr % 0x100;
    assert addr == CAPACITY * q2 + low;
    DivisionIsUnique(addr, CAPACITY, q2, low);
  }

  lemma DivTwice(n: nat)
    ensures n / 0x1_0000 == n / 0x100 / 0x100
  {
  }

  // ---- The cells ----

  /** The flat effect: each byte clears bits at its own address, modulo 2^24. */
  function AndWrite(mem: Cells, addr: nat, data: seq<Byte>): Cells
    decreases |data|
  {
    if data == [] then mem
    else
      var a := addr % CAPACITY;
      AndWrite(mem[a := And(mem[a], data[0])], addr + 1, data[1..])
  }

  /** What one page program does: the address wraps inside its page. */
  function ProgramPage(mem: Cells, base: nat, off: nat, data: seq<Byte>): Cells
    requires base + PAGE <= CAPACITY
    decreases |data|
  {
    if data == [] then mem
    else
      var a := base + off % PAGE;
      ProgramPage(mem[a := And(mem[a], data[0])], base, off + 1, data[1..])
  }

  function EraseBlock(mem: Cells, addr: nat, size: nat): Cells
    requires addr < CAPACITY && size > 0
  {
    var base := addr - addr % size;
    seq(CAPACITY, i requires 0 <= i < CAPACITY => if base <= i < base + size then ERASED else mem[i])
  }

  function ReadBytes(mem: Cells, addr: nat, n: nat): (r: seq<Byte>)
    ensures |r| == n
    ensures forall i | 0 <= i < n :: r[i] == mem[(addr + i) % CAPACITY]
  {
    if n == 0 then [] else ReadBytes(mem, addr, n - 1) + [mem[(addr + n - 1) % CAPACITY]]
  }

  // ---- The bus ----

  function StatusByte(d: Nor): Byte {
    (if d.busy > 0 then 1 else 0) + if d.wel then 2 else 0
  }

  /** The byte the chip drives next. */
  function Miso(d: Nor): Byte {
    if d.got == [] then 0xFF
    else if d.got[0] == READ_STATUS then StatusByte(d)
    else if d.got[0] == READ_DATA && |d.got| >= 4 && d.busy == 0
    then d.mem[(AddressOf(d.got[1..]) + |d.got| - 4) % CAPACITY]
    else 0xFF
  }

  function Clock(d: Nor, tx: seq<Byte>): Nor {
    if d.selected then d.(got := d.got + tx) else d
  }

  /** What the chip drives while `tx` is clocked in. */
  function Driven(d: Nor, tx: seq<Byte>): (r: seq<Byte>)
    ensures |r| == |tx|
    decreases |tx|
  {
    if tx == [] then []
    else Driven(d, tx[..|tx| - 1]) + [if d.selected then Miso(Clock(d, tx[..|tx| - 1])) else 0xFF]
  }

  function Select(d: Nor): Nor {
    d.(selected := true, got := [])
  }

  function EraseSize(cmd: Byte): nat {
    if cmd == SECTOR_ERASE_4K then 0x1000
    else if cmd == BLOCK_ERASE_32K then 0x8000
    else if cmd == BLOCK_ERASE_64K then 0x1_0000
    else 0
  }

  /** Deselecting executes the command clocked in, unless the chip is busy. */
  function Deselect(d: Nor): Nor {
    var e := d.(selected := false, got := [], busy := if d.busy == 0 then 0 else d.busy - 1);
    if !d.selected || d.got == [] || d.busy > 0 then e
    else if d.got[0] == WRITE_ENABLE && |d.got| == 1 then e.(wel := true)
    else if d.got[0] == PAGE_PROGRAM && |d.got| > 4 && d.wel then
      var a := AddressOf(d.got[1..4]) % CAPACITY;
      PageEnd(a);
      e.(mem := ProgramPage(d.mem, a - a % PAGE, a % PAGE, d.got[4..]), wel := false, busy := d.latency)
    else if EraseSize(d.got[0]) > 0 && |d.got| == 4 && d.wel then
      e.(mem := EraseBlock(d.mem, AddressOf(d.got[1..]) % CAPACITY, EraseSize(d.got[0])), wel := false, busy := d.latency)
    else e
  }

  lemma PageEnd(a: nat)
    requires a < CAPACITY
    ensures a - a % PAGE + PAGE <= CAPACITY
  {
  }

  /** One transaction: selected, `tx` clocked, deselected. */
  function Transact(d: Nor, tx: seq<Byte>): Nor {
    Deselect(Clock(Select(d), tx))
  }

  /** Between transactions. */
  ghost predicate Resting(d: Nor) {
    !d.selected && d.got == []
  }

  // ---- Facts ----

  lemma {:induction false} DrivenAt(d: Nor, tx: seq<Byte>, i: nat)
    requires i < |tx|
    ensures Driven(d, tx)[i] == if d.selected then Miso(Clock(d, tx[..i])) else 0xFF
    decreases |tx|
  {
    if i < |tx| - 1 {
      DrivenAt(d, tx[..|tx| - 1], i);
      assert tx[..|tx| - 1][..i] == tx[..i];
    }
  }

  /** Chunking does not matter. */
  lemma {:induction false} DrivenConcat(d: Nor, a: seq<Byte>, b: seq<Byte>)
    ensures Driven(d, a + b) == Driven(d, a) + Driven(Clock(d, a), b)
    ensures Clock(d, a + b) == Clock(Clock(d, a), b)
    decreases |b|
  {
    hide Miso;
    if b == [] {
      assert a + b == a;
      assert d.got + a + b == d.got + a;
    } else {
      var b1 := b[..|b| - 1];
      DrivenConcat(d, a, b1);
      assert (a + b)[..|a + b| - 1] == a + b1;
      assert d.got + a + b1 == d.got + (a + b1);
      assert d.got + (a + b) == d.got + a + b;
    }
  }

  // ---- Writing, flat ----

  lemma {:induction false} AndWriteConcat(mem: Cells, addr: nat, a: seq<Byte>, b: seq<Byte>)
    ensures AndWrite(mem, addr, a + b) == AndWrite(AndWrite(mem, addr, a), addr + |a|, b)
    decreases |a|
  {
    if a == [] {
      assert a + b == b;
    } else {
      var x := addr % CAPACITY;
      AndWriteConcat(mem[x := And(mem[x], a[0])], addr + 1, a[1..], b);
      assert (a + b)[1..] == a[1..] + b;
    }
  }

  /** A program that stays inside its page is a flat write. */
  lemma {:induction false} ProgramIsFlat(mem: Cells, addr: nat, base: nat, off: nat, data: seq<Byte>)
    requires base + PAGE <= CAPACITY && off + |data| <= PAGE
    requires data != [] ==> base + off == addr % CAPACITY
    ensures ProgramPage(mem, base, off, data) == AndWrite(mem, addr, data)
    decreases |data|
  {
    if data != [] {
      var a := addr % CAPACITY;
      if |data| > 1 {
        NextAddress(addr);
      }
      ProgramIsFlat(mem[a := And(mem[a], data[0])], addr + 1, base, off + 1, data[1..]);
    }
  }

  lemma NextAddress(addr: nat)
    ensures addr % CAPACITY + 1 < CAPACITY ==> (addr + 1) % CAPACITY == addr % CAPACITY + 1
  {
    var q := addr / CAPACITY;
    if addr % CAPACITY + 1 < CAPACITY {
      DivisionIsUnique(addr + 1, CAPACITY, q, addr % CAPACITY + 1);
    }
  }

  lemma PageOffset(addr: nat)
    ensures addr % CAPACITY % PAGE == addr % PAGE
  {
    var q, r := addr / CAPACITY, addr % CAPACITY;
    assert addr == PAGE * (0x1_0000 * q + r / PAGE) + r % PAGE;
    DivisionIsUnique(addr, PAGE, 0x1_0000 * q + r / PAGE, r % PAGE);
  }

  /** The cell byte `i` of a write at `addr` goes to. */
  function Cell(addr: nat, i: nat): (x: nat)
    ensures x < CAPACITY
  {
    (addr + i) % CAPACITY
  }

  lemma DistinctAddresses(a: nat, i: nat, k: nat)
    requires i < k < i + CAPACITY
    ensures (a + i) % CAPACITY != (a + k) % CAPACITY
  {
  }

  lemma {:induction false} AndWriteElsewhere(mem: Cells, addr: nat, data: seq<Byte>, x: nat)
    requires x < CAPACITY && forall i: nat | i < |data| :: Cell(addr, i) != x
    ensures AndWrite(mem, addr, data)[x] == mem[x]
    decreases |data|
  {
    if data != [] {
      var a := addr % CAPACITY;
      assert Cell(addr, 0) != x;
      var next := addr + 1;
      forall i: nat | i < |data[1..]|
        ensures Cell(next, i) != x
      {
        assert Cell(addr, i + 1) != x;
      }
      AndWriteElsewhere(mem[a := And(mem[a], data[0])], addr + 1, data[1..], x);
    }
  }

  lemma {:induction false} AndWriteAt(mem: Cells, addr: nat, data: seq<Byte>, i: nat)
    requires i < |data| <= CAPACITY
    ensures AndWrite(mem, addr, data)[(addr + i) % CAPACITY] == And(mem[(addr + i) % CAPACITY], data[i])
    decreases |data|
  {
    var a := addr % CAPACITY;
    var mem1 := mem[a := And(mem[a], data[0])];
    if i == 0 {
      var next := addr + 1;
      forall k: nat | k < |data[1..]|
        ensures Cell(next, k) != a
      {
        DistinctAddresses(addr, 0, k + 1);
      }
      AndWriteElsewhere(mem1, addr + 1, data[1..], a);
    } else {
      DistinctAddresses(addr, 0, i);
      AndWriteAt(mem1, addr + 1, data[1..], i - 1);
    }
  }

  /** Every cell the range covers is erased. */
  ghost predicate ErasedRange(mem: Cells, addr: nat, n: nat) {
    forall i: nat | i < n :: mem[Cell(addr, i)] == ERASED
  }

  /** Data written to an erased range reads back. */
  lemma ErasedWriteReadsBack(mem: Cells, addr: nat, data: seq<Byte>)
    requires |data| <= CAPACITY && ErasedRange(mem, addr, |data|)
    ensures ReadBytes(AndWrite(mem, addr, data), addr, |data|) == data
  {
    var r := ReadBytes(AndWrite(mem, addr, data), addr, |data|);
    forall i | 0 <= i < |data|
      ensures r[i] == data[i]
    {
      AndWriteAt(mem, addr, data, i);
      assert mem[Cell(addr, i)] == ERASED;
      AndErased(data[i]);
    }
  }

  /** Erasing a block erases every range inside it. */
  lemma EraseErases(mem: Cells, a: nat, size: nat, addr: nat, n: nat)
    requires a < CAPACITY && size > 0
    requires a - a % size <= addr && addr + n <= a - a % size + size && addr + n <= CAPACITY
    ensures ErasedRange(EraseBlock(mem, a, size), addr, n)
  {
  }

  /** What the three erase commands erase: the 4, 32 or 64 KiB block the address lies in, and
      not a cell outside it. No other command erases. */
  lemma EraseIsAligned(mem: Cells, cmd: Byte, addr: nat, i: nat)
    requires i < CAPACITY
    ensures EraseSize(cmd) > 0 <==> cmd == 0x20 || cmd == 0x52 || cmd == 0xD8
    ensures var size := if cmd == 0x20 then 4096 else if cmd == 0x52 then 32768 else 65536;
            EraseSize(cmd) > 0 ==>
              EraseBlock(mem, addr % 0x100_0000, EraseSize(cmd))[i]
              == if i / size == addr % 0x100_0000 / size then 0xFF else mem[i]
  {
    if EraseSize(cmd) > 0 {
      SameBlock(addr % CAPACITY, EraseSize(cmd), i);
    }
  }

  lemma SameBlock(a: nat, size: nat, i: nat)
    requires size > 0
    ensures a - a % size <= i < a - a % size + size <==> i / size == a / size
  {
    var base := a - a % size;
    assert base == size * (a / size);
    if base <= i < base + size {
      DivisionIsUnique(i, size, a / size, i - base);
    }
    if i / size == a / size {
      assert i == size * (i / size) + i % size;
    }
  }

  /** Erase a block, write inside it, read: the data comes back. */
  lemma EraseWriteRead(mem: Cells, a: nat, size: nat, addr: nat, data: seq<Byte>)
    requires a < CAPACITY && size > 0
    requires a - a % size <= addr && addr + |data| <= a - a % size + size && addr + |data| <= CAPACITY
    ensures ReadBytes(AndWrite(EraseBlock(mem, a, size), addr, data), addr, |data|) == data
  {
    hide EraseBlock, AndWrite;
    EraseErases(mem, a, size, addr, |data|);
    ErasedWriteReadsBack(EraseBlock(mem, a, size), addr, data);
  }

  // ---- Commands ----

  function Command(cmd: Byte, addr: nat): (r: seq<Byte>)
    ensures |r| == 4
  {
    [cmd] + AddressBytes(addr)
  }

  lemma EnableTransaction(d: Nor)
    requires Resting(d) && d.busy == 0
    ensures Transact(d, [0x06]) == d.(wel := true)
  {
  }

  /** What a page program at `addr` does, wrapping inside the page. */
  function PageWrite(mem: Cells, addr: nat, data: seq<Byte>): Cells {
    var a := addr % CAPACITY;
    PageEnd(a);
    ProgramPage(mem, a - a % PAGE, a % PAGE, data)
  }

  /** Inside one page that is the flat write. */
  lemma PageWriteIsFlat(mem: Cells, addr: nat, data: seq<Byte>)
    requires addr % PAGE + |data| <= PAGE
    ensures PageWrite(mem, addr, data) == AndWrite(mem, addr, data)
  {
    hide ProgramPage, AndWrite;
    var a := addr % CAPACITY;
    PageOffset(addr);
    PageEnd(a);
    ProgramIsFlat(mem, addr, a - a % PAGE, a % PAGE, data);
  }

  /** A page program cut short after `k` bytes: nothing without a data byte, otherwise the
      data that got through. */
  lemma ProgramTransaction(d: Nor, addr: nat, data: seq<Byte>, k: nat)
    requires Resting(d) && d.busy == 0 && d.wel && k <= 4 + |data|
    ensures Transact(d, (Command(0x02, addr) + data)[..k])
            == if k <= 4 then d
               else d.(mem := PageWrite(d.mem, addr, data[..k - 4]), wel := false, busy := d.latency)
  {
    hide PageWrite, AddressBytes, AddressOf, Deselect;
    var tx := (Command(PAGE_PROGRAM, addr) + data)[..k];
    var e := Clock(Select(d), tx);
    assert e.got == tx;
    if k > 0 {
      assert tx[0] == PAGE_PROGRAM;
    }
    if k > 4 {
      CommandSlices(addr, data, k);
      AddressRoundTrip(addr, []);
      DeselectProgram(e, addr);
    } else {
      DeselectShort(e);
    }
  }

  lemma DeselectProgram(e: Nor, addr: nat)
    requires e.selected && e.busy == 0 && e.wel && |e.got| > 4 && e.got[0] == PAGE_PROGRAM
    requires AddressOf(e.got[1..4]) == addr % CAPACITY
    ensures Deselect(e) == e.(selected := false, got := [], mem := PageWrite(e.mem, addr, e.got[4..]), wel := false, busy := e.latency)
  {
    hide ProgramPage, AddressOf;
    SumRemainder(addr, 0);
  }

  lemma DeselectShort(e: Nor)
    requires e.busy == 0 && |e.got| <= 4 && (e.got != [] ==> e.got[0] == PAGE_PROGRAM)
    ensures Deselect(e) == e.(selected := false, got := [])
  {
  }

  lemma CommandSlices(addr: nat, data: seq<Byte>, k: nat)
    requires 4 < k <= 4 + |data|
    ensures var tx := (Command(PAGE_PROGRAM, addr) + data)[..k];
            tx[1..4] == AddressBytes(addr) + [] && tx[4..] == data[..k - 4]
  {
    hide AddressBytes;
    var bytes := AddressBytes(addr);
    Slices(PAGE_PROGRAM, bytes, data, k);
    assert bytes + [] == bytes;
  }

  lemma Slices(cmd: Byte, bytes: seq<Byte>, data: seq<Byte>, k: nat)
    requires |bytes| == 3 && 4 < k <= 4 + |data|
    ensures ([cmd] + bytes + data)[..k][1..4] == bytes
    ensures ([cmd] + bytes + data)[..k][4..] == data[..k - 4]
  {
    var all := [cmd] + bytes + data;
    assert all[1..4] == bytes;
    assert all[4..k] == data[..k - 4];
    assert all[..k][1..4] == all[1..4];
    assert all[..k][4..] == all[4..k];
  }

  lemma EraseTransaction(d: Nor, cmd: Byte, addr: nat)
    requires Resting(d) && d.busy == 0 && d.wel && EraseSize(cmd) > 0
    ensures Transact(d, Command(cmd, addr))
            == d.(mem := EraseBlock(d.mem, addr % CAPACITY, EraseSize(cmd)), wel := false, busy := d.latency)
  {
    hide EraseBlock, AddressBytes, AddressOf;
    var tx := Command(cmd, addr);
    AddressRoundTrip(addr, []);
    assert tx[1..] == AddressBytes(addr) + [];
    assert [] + tx == tx;
  }

  lemma StatusTransaction(d: Nor)
    requires Resting(d)
    ensures Driven(Select(d), [0x05, 0])[1] == StatusByte(d)
    ensures (Bit(StatusByte(d), 0) <==> d.busy > 0) && (Bit(StatusByte(d), 1) <==> d.wel)
    ensures Transact(d, [0x05, 0]) == d.(busy := if d.busy == 0 then 0 else d.busy - 1)
  {
  }

  /** The data phase of a read: the cells from the address on. */
  lemma ReadTransaction(d: Nor, addr: nat, tx: seq<Byte>)
    requires Resting(d) && d.busy == 0
    ensures Driven(Clock(Select(d), Command(0x03, addr)), tx) == ReadBytes(d.mem, addr, |tx|)
  {
    hide Driven, Clock, Select, Command, ReadBytes;
    var r := Driven(Clock(Select(d), Command(READ_DATA, addr)), tx);
    forall i | 0 <= i < |tx|
      ensures r[i] == d.mem[(addr + i) % CAPACITY]
    {
      ReadByteAt(d, addr, tx, i);
    }
    assert r == ReadBytes(d.mem, addr, |tx|);
  }

  lemma ReadByteAt(d: Nor, addr: nat, tx: seq<Byte>, i: nat)
    requires Resting(d) && d.busy == 0 && i < |tx|
    ensures Driven(Clock(Select(d), Command(READ_DATA, addr)), tx)[i] == d.mem[(addr + i) % CAPACITY]
  {
    hide Driven, Miso, Command;
    var e := Clock(Select(d), Command(READ_DATA, addr));
    DrivenAt(e, tx, i);
    ReadMiso(d, addr, tx[..i]);
  }

  lemma ReadChangesNothing(d: Nor, addr: nat, tx: seq<Byte>)
    requires Resting(d) && d.busy == 0
    ensures Transact(d, Command(READ_DATA, addr) + tx) == d
  {
  }

  lemma ReadMiso(d: Nor, addr: nat, tx: seq<Byte>)
    requires Resting(d) && d.busy == 0
    ensures Miso(Clock(Clock(Select(d), Command(READ_DATA, addr)), tx)) == d.mem[(addr + |tx|) % CAPACITY]
  {
    hide AddressOf, AddressBytes;
    var e := Clock(Clock(Select(d), Command(READ_DATA, addr)), tx);
    assert e.got == Command(READ_DATA, addr) + tx;
    assert e.got[1..] == AddressBytes(addr) + tx;
    AddressRoundTrip(addr, tx);
    SumRemainder(addr, |tx|);
  }

  lemma SumRemainder(a: nat, n: nat)
    ensures (a % CAPACITY + n) % CAPACITY == (a + n) % CAPACITY
  {
    var q := a / CAPACITY;
    var m := a % CAPACITY + n;
    DivisionIsUnique(a + n, CAPACITY, q + m / CAPACITY, m % CAPACITY);
  }
}
