/** The level-1 page table: filling it from an ordered list of memory descriptors, and what
    the MMU then translates an address to (section descriptors of ARM DDI 0100I, section
    B4.7). Words are natural numbers below 2^32. */
module Mmu {
  import opened Arithmetic
  import opened Common

  const ENTRIES: nat := 4096
  const SECTION: nat := 0x10_0000
  const SECTION_TYPE: nat := 2

  type Word = w: nat | w < 0x1_0000_0000

  datatype MemDesc = MemDesc(start: Word, end: Word, paddr: Word, attr: Word)

  // ---- Bitwise or ----

  function Or(a: nat, b: nat): (r: nat)
    ensures a <= r && b <= r
  {
    if a == 0 then b else if b == 0 then a
    else 2 * Or(a / 2, b / 2) + if a % 2 == 1 || b % 2 == 1 then 1 else 0
  }

  lemma {:induction false} OrBits(a: nat, b: nat, k: nat)
    ensures Bit(Or(a, b), k) <==> Bit(a, k) || Bit(b, k)
  {
    if k > 0 {
      if a > 0 && b > 0 {
        OrBits(a / 2, b / 2, k - 1);
      } else {
        NoBits(k);
      }
    }
  }

  lemma {:induction false} OrBelow(a: nat, b: nat, k: nat)
    requires a < Pow2(k) && b < Pow2(k)
    ensures Or(a, b) < Pow2(k)
  {
    if k > 0 && a > 0 && b > 0 {
      OrBelow(a / 2, b / 2, k - 1);
    }
  }

  function Shl(x: nat, k: nat): nat {
    if k == 0 then x else 2 * Shl(x, k - 1)
  }

  function Shr(a: nat, k: nat): nat {
    if k == 0 then a else Shr(a / 2, k - 1)
  }

  function Low(a: nat, k: nat): (r: nat)
    ensures r < Pow2(k)
  {
    if k == 0 then 0 else 2 * Low(a / 2, k - 1) + a % 2
  }

  /** Or with a word whose low `k` bits are clear leaves the low bits and ors the high ones. */
  lemma {:induction false} OrShifted(a: nat, x: nat, k: nat)
    ensures Or(a, Shl(x, k)) == Shl(Or(Shr(a, k), x), k) + Low(a, k)
  {
    if k > 0 {
      OrShifted(a / 2, x, k - 1);
      OrDoubled(a, Shl(x, k - 1));
    }
  }

  lemma OrDoubled(a: nat, y: nat)
    ensures Or(a, 2 * y) == 2 * Or(a / 2, y) + a % 2
  {
  }

  lemma {:induction false} ShlIsTimes(x: nat, k: nat)
    ensures Shl(x, k) == x * Pow2(k)
  {
    if k > 0 {
      ShlIsTimes(x, k - 1);
      MulComm(x, 2, Pow2(k - 1));
    }
  }

  lemma MulComm(x: nat, y: nat, z: nat)
    ensures x * (y * z) == y * (x * z)
  {
  }

  lemma {:induction false} SplitsAt(a: nat, k: nat)
    ensures a == Shl(Shr(a, k), k) + Low(a, k)
  {
    if k > 0 {
      SplitsAt(a / 2, k - 1);
    }
  }

  lemma SectionParts(a: nat)
    ensures Shr(a, 20) == a / SECTION && Low(a, 20) == a % SECTION
  {
    SectionIsPow2();
    SplitsAt(a, 20);
    ShlIsTimes(Shr(a, 20), 20);
    DivisionIsUnique(a, SECTION, Shr(a, 20), Low(a, 20));
  }

  lemma SectionIsPow2()
    ensures Pow2(20) == SECTION && Pow2(12) == ENTRIES
  {
    assert Pow2(10) == 1024;
  }

  // ---- Entries ----

  predicate Covers(d: MemDesc, sec: nat) {
    d.start / SECTION <= sec <= d.end / SECTION
  }

  /** The physical section number for `sec`, as the shift by 20 leaves it. */
  function PhysicalSection(d: MemDesc, sec: nat): (p: nat)
    requires Covers(d, sec)
    ensures p < ENTRIES
  {
    (d.paddr / SECTION + (sec - d.start / SECTION)) % ENTRIES
  }

  /** `attr | ((paddr_base + i) << 20)` */
  function EntryFor(d: MemDesc, sec: nat): Word
    requires Covers(d, sec)
  {
    EntryParts(d, sec);
    Or(d.attr, PhysicalSection(d, sec) * SECTION)
  }

  lemma EntryParts(d: MemDesc, sec: nat)
    requires Covers(d, sec)
    ensures var e := Or(d.attr, PhysicalSection(d, sec) * SECTION);
            && e < 0x1_0000_0000
            && e / SECTION == Or(d.attr / SECTION, PhysicalSection(d, sec))
            && e % SECTION == d.attr % SECTION
  {
    var hi := Or(d.attr / SECTION, PhysicalSection(d, sec));
    SectionIsPow2();
    SectionParts(d.attr);
    OrShifted(d.attr, PhysicalSection(d, sec), 20);
    ShlIsTimes(PhysicalSection(d, sec), 20);
    ShlIsTimes(hi, 20);
    OrBelow(d.attr / SECTION, PhysicalSection(d, sec), 12);
    DivisionIsUnique(hi * SECTION + d.attr % SECTION, SECTION, hi, d.attr % SECTION);
  }

  /** The entry of section `sec` once the descriptors are laid over `before`, in order. */
  function Overlaid(descs: seq<MemDesc>, sec: nat, before: Word): Word {
    if descs == [] then before
    else
      var last := descs[|descs| - 1];
      if Covers(last, sec) then EntryFor(last, sec) else Overlaid(descs[..|descs| - 1], sec, before)
  }

  class PageTable {
    const entries: array<Word>

    ghost predicate Valid()
      reads this
    {
      entries.Length == ENTRIES
    }

    constructor ()
      ensures Valid() && fresh(entries)
      ensures forall sec | 0 <= sec < ENTRIES :: entries[sec] == 0
    {
      entries := new Word[ENTRIES](_ => 0);
    }

    /** `set_mapping`: the end section is included. */
    method SetMapping(d: MemDesc)
      requires Valid()
      modifies entries
      ensures forall sec | 0 <= sec < ENTRIES ::
                entries[sec] == if Covers(d, sec) then EntryFor(d, sec) else old(entries[sec])
    {
      hide EntryFor;
      var startSec := d.start / SECTION;
      var endSec := d.end / SECTION;
      var paddrBase := d.paddr / SECTION;
      var i := 0;
      var sec := startSec;
      while sec <= endSec
        invariant sec == startSec + i && (startSec <= endSec ==> sec <= endSec + 1)
        invariant forall s | 0 <= s < ENTRIES ::
                    entries[s] == if Covers(d, s) && s < sec then EntryFor(d, s) else old(entries[s])
        decreases endSec + 1 - sec
      {
        entries[sec] := OrWords(d, (paddrBase + i) % ENTRIES, sec);
        i := i + 1;
        sec := sec + 1;
      }
    }

    /** `set_mappings` */
    method SetMappings(descs: seq<MemDesc>)
      requires Valid()
      modifies entries
      ensures forall sec | 0 <= sec < ENTRIES :: entries[sec] == Overlaid(descs, sec, old(entries[sec]))
    {
      hide EntryFor;
      for k := 0 to |descs|
        invariant forall sec | 0 <= sec < ENTRIES :: entries[sec] == Overlaid(descs[..k], sec, old(entries[sec]))
      {
        SetMapping(descs[k]);
        assert descs[..k + 1][..k] == descs[..k];
      }
      assert descs[..|descs|] == descs;
    }
  }

  function OrWords(d: MemDesc, base: nat, sec: nat): (w: Word)
    requires Covers(d, sec) && base == PhysicalSection(d, sec)
    ensures w == EntryFor(d, sec)
  {
    EntryParts(d, sec);
    Or(d.attr, base * SECTION)
  }

  // ---- What the table means ----

  /** The last descriptor that covers a section decides its entry, whatever comes before. */
  lemma {:induction false} LastCoveringWins(descs: seq<MemDesc>, sec: nat, before: Word, k: nat)
    requires k < |descs| && Covers(descs[k], sec) && forall j | k < j < |descs| :: !Covers(descs[j], sec)
    ensures Overlaid(descs, sec, before) == EntryFor(descs[k], sec)
    decreases |descs|
  {
    if k < |descs| - 1 {
      LastCoveringWins(descs[..|descs| - 1], sec, before, k);
    }
  }

  lemma {:induction false} UncoveredStays(descs: seq<MemDesc>, sec: nat, before: Word)
    requires forall j | 0 <= j < |descs| :: !Covers(descs[j], sec)
    ensures Overlaid(descs, sec, before) == before
    decreases |descs|
  {
    if descs != [] {
      UncoveredStays(descs[..|descs| - 1], sec, before);
    }
  }

  /** The section walk: a section descriptor gives the top twelve bits, the address its
      offset; anything else faults here. */
  function Walk(entry: Word, va: Word): Option<Word> {
    if entry % 4 == SECTION_TYPE then Some(entry / SECTION * SECTION + va % SECTION) else None
  }

  lemma AttrBits(d: MemDesc, sec: nat)
    requires Covers(d, sec)
    ensures EntryFor(d, sec) % SECTION == d.attr % SECTION
    ensures EntryFor(d, sec) % 4 == d.attr % 4
  {
    EntryParts(d, sec);
    LowBits(EntryFor(d, sec));
    LowBits(d.attr);
  }

  lemma LowBits(w: nat)
    ensures w % SECTION % 4 == w % 4
  {
  }

  /** In a finished table an address covered by some descriptor translates through the last
      that covers it: that descriptor's physical section, counted from its start, with the
      address's own offset, and the descriptor's attribute bits; uncovered ones fault. This
      holds for a section exactly when the descriptor's high attribute bits add nothing to
      the physical section number. */
  lemma TranslatesThroughLast(descs: seq<MemDesc>, va: Word, k: nat)
    requires k < |descs| && Covers(descs[k], va / SECTION)
    requires forall j | k < j < |descs| :: !Covers(descs[j], va / SECTION)
    requires descs[k].attr % 4 == SECTION_TYPE
    ensures var d := descs[k];
            var p := PhysicalSection(d, va / SECTION);
            var entry := Overlaid(descs, va / SECTION, 0);
            && entry % SECTION == d.attr % SECTION
            && (Walk(entry, va) == Some(p * SECTION + va % SECTION) <==> Or(d.attr / SECTION, p) == p)
            && (d.attr < SECTION ==> Walk(entry, va) == Some(p * SECTION + va % SECTION))
  {
    var d := descs[k];
    LastCoveringWins(descs, va / SECTION, 0, k);
    EntryParts(d, va / SECTION);
    AttrBits(d, va / SECTION);
  }

  lemma UncoveredFaults(descs: seq<MemDesc>, va: Word)
    requires forall j | 0 <= j < |descs| :: !Covers(descs[j], va / SECTION)
    ensures Walk(Overlaid(descs, va / SECTION, 0), va) == None
  {
  }

  /** For a descriptor on section boundaries that is plain translation by a constant, modulo
      the address range. */
  lemma AlignedTranslation(d: MemDesc, va: Word)
    requires Covers(d, va / SECTION) && d.start % SECTION == 0 && d.paddr % SECTION == 0
    ensures PhysicalSection(d, va / SECTION) * SECTION + va % SECTION == (d.paddr + (va - d.start)) % 0x1_0000_0000
  {
    var n := d.paddr / SECTION + (va / SECTION - d.start / SECTION);
    assert d.paddr + (va - d.start) == n * SECTION + va % SECTION;
    assert n * SECTION + va % SECTION == 0x1_0000_0000 * (n / ENTRIES) + (n % ENTRIES * SECTION + va % SECTION);
    DivisionIsUnique(n * SECTION + va % SECTION, 0x1_0000_0000, n / ENTRIES, n % ENTRIES * SECTION + va % SECTION);
  }

  // ---- The same in addresses ----

  /** The megabyte that `va` lies in meets the descriptor's range, whose end is included. */
  ghost predicate Reaches(d: MemDesc, va: nat) {
    d.start < va - va % 0x10_0000 + 0x10_0000 && va - va % 0x10_0000 <= d.end
  }

  lemma ReachesIff(d: MemDesc, va: nat)
    ensures Reaches(d, va) <==> Covers(d, va / SECTION)
  {
  }

  /** Every address from the start to the end of a descriptor, both included, lies at its
      distance from the start behind the physical address, unless a later descriptor meets
      its megabyte: exactly so when start and physical address lie equally deep in their
      megabytes. Addresses whose megabyte no descriptor meets fault. */
  lemma AddressesTranslate(descs: seq<MemDesc>, va: Word, k: nat)
    requires k < |descs| && descs[k].start <= va <= descs[k].end
    requires forall j | k < j < |descs| :: !Reaches(descs[j], va)
    requires descs[k].attr < 0x10_0000 && descs[k].attr % 4 == 2
    ensures var d, entry := descs[k], Overlaid(descs, va / 0x10_0000, 0);
            && Walk(entry, va).Some?
            && entry % 0x10_0000 == d.attr
            && (Walk(entry, va) == Some((d.paddr + (va - d.start)) % 0x1_0000_0000)
                <==> d.start % 0x10_0000 == d.paddr % 0x10_0000)
  {
    hide EntryFor, PhysicalSection, Overlaid;
    var d := descs[k];
    forall j | k < j < |descs|
      ensures !Covers(descs[j], va / SECTION)
    {
      ReachesIff(descs[j], va);
    }
    ReachesIff(d, va);
    TranslatesThroughLast(descs, va, k);
    OffsetTranslation(d, va);
  }

  /** Without any alignment the distance counts from the two megabytes' beginnings. */
  lemma OffsetTranslation(d: MemDesc, va: Word)
    requires Covers(d, va / SECTION)
    ensures PhysicalSection(d, va / SECTION) * SECTION + va % SECTION
            == (d.paddr - d.paddr % SECTION + (va - (d.start - d.start % SECTION))) % 0x1_0000_0000
  {
    var e := MemDesc(d.start - d.start % SECTION, d.end, d.paddr - d.paddr % SECTION, d.attr);
    SectionStart(d.start);
    SectionStart(d.paddr);
    AlignedTranslation(e, va);
  }

  lemma SectionStart(a: nat)
    ensures (a - a % SECTION) / SECTION == a / SECTION && (a - a % SECTION) % SECTION == 0
  {
    DivisionIsUnique(a - a % SECTION, SECTION, a / SECTION, 0);
  }

  lemma AddressesFault(descs: seq<MemDesc>, va: Word)
    requires forall j | 0 <= j < |descs| :: !Reaches(descs[j], va)
    ensures Walk(Overlaid(descs, va / 0x10_0000, 0), va) == None
  {
    forall j | 0 <= j < |descs|
      ensures !Covers(descs[j], va / SECTION)
    {
      ReachesIff(descs[j], va);
    }
    UncoveredFaults(descs, va);
  }
}
