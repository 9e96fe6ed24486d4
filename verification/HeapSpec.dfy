/** The first-fit heap as a row of tiles: what allocation and freeing do to the row, and
    what every run keeps. `Heap.dfy` holds the code over memory words. */
module HeapSpec {
  import opened Arithmetic

  const ALIGN: nat := 8
  const FREE_HDR: nat := 8
  const ALLOC_HDR: nat := 4
  const MIN_SPLIT: nat := FREE_HDR + ALIGN
  const WORD_RANGE: nat := 0x1_0000_0000

  /** A block of the heap: a listed free block or a live allocation, header included. */
  datatype Tile = Tile(addr: nat, size: nat, free: bool)

  type Tiles = seq<Tile>

  // ---- Rounding ----

  function AlignUp(n: nat, align: nat): (r: nat)
    requires align > 0
    ensures r % align == 0 && n <= r < n + align
  {
    var top := n + align - 1;
    DivisionIsUnique(top - top % align, align, top / align, 0);
    top - top % align
  }

  /** Rounding `n` up adds to it first: that sum must not wrap a 32-bit word. */
  predicate Rounds(n: nat, align: nat) {
    align > 0 && n + align - 1 < WORD_RANGE
  }

  // ---- Rows of tiles ----

  ghost predicate TileOk(t: Tile) {
    t.addr % ALIGN == 0 && t.size % ALIGN == 0 && t.size >= ALIGN
  }

  ghost predicate Abut(a: Tile, b: Tile) {
    a.addr + a.size == b.addr
  }

  /** The tiles exactly cover `[lo, hi)`: no gap, no overlap, everything aligned. */
  ghost predicate Tiling(ts: Tiles, lo: nat, hi: nat) {
    && (forall k | 0 <= k < |ts| :: TileOk(ts[k]))
    && (forall k | 0 < k < |ts| :: Abut(ts[k - 1], ts[k]))
    && (if |ts| == 0 then lo == hi else ts[0].addr == lo && ts[|ts| - 1].addr + ts[|ts| - 1].size == hi)
  }

  /** Where tile `j` starts, the end of the row counting as a start too. */
  ghost function StartOf(ts: Tiles, j: nat, hi: nat): nat
    requires j <= |ts|
  {
    if j == |ts| then hi else ts[j].addr
  }

  lemma {:induction false} TilesOrdered(ts: Tiles, lo: nat, hi: nat, i: nat, j: nat)
    requires Tiling(ts, lo, hi) && i <= j <= |ts|
    ensures lo <= StartOf(ts, i, hi) <= StartOf(ts, j, hi) <= hi
    ensures i < j ==> ts[i].addr + ts[i].size <= StartOf(ts, j, hi)
    decreases |ts| - j, j - i, i
  {
    if j < |ts| {
      TilesOrdered(ts, lo, hi, i, j + 1);
      if i < j {
        AdjacentOrder(ts, lo, hi, i, j);
      } else if i > 0 {
        AdjacentOrder(ts, lo, hi, 0, i);
      }
    } else if |ts| > 0 {
      AdjacentOrder(ts, lo, hi, 0, |ts| - 1);
      if i < |ts| {
        AdjacentOrder(ts, lo, hi, 0, i);
        AdjacentOrder(ts, lo, hi, i, |ts| - 1);
      }
    }
  }

  lemma {:induction false} AdjacentOrder(ts: Tiles, lo: nat, hi: nat, i: nat, j: nat)
    requires Tiling(ts, lo, hi) && i <= j < |ts|
    ensures ts[i].addr <= ts[j].addr
    ensures i < j ==> ts[i].addr + ts[i].size <= ts[j].addr
    decreases j - i
  {
    if i < j {
      AdjacentOrder(ts, lo, hi, i, j - 1);
      assert Abut(ts[j - 1], ts[j]);
    }
  }

  /** Bytes in the free tiles, or in the live ones. */
  function Bytes(ts: Tiles, free: bool): nat {
    if ts == [] then 0 else (if ts[0].free == free then ts[0].size else 0) + Bytes(ts[1..], free)
  }

  ghost function Live(ts: Tiles): set<Tile> {
    set t | t in ts && !t.free
  }

  /** Tiles `[j, m)` replaced by `mid`. */
  function Splice(ts: Tiles, j: nat, m: nat, mid: Tiles): (r: Tiles)
    requires j <= m <= |ts|
    ensures |r| == j + |mid| + |ts| - m
    ensures mid != [] ==> r[j] == mid[0]
  {
    ts[..j] + mid + ts[m..]
  }

  lemma TilingConcat(a: Tiles, b: Tiles, lo: nat, mid: nat, hi: nat)
    requires Tiling(a, lo, mid) && Tiling(b, mid, hi)
    ensures Tiling(a + b, lo, hi)
  {
  }

  lemma TilingSplit(ts: Tiles, lo: nat, hi: nat, j: nat)
    requires Tiling(ts, lo, hi) && j <= |ts|
    ensures Tiling(ts[..j], lo, StartOf(ts, j, hi)) && Tiling(ts[j..], StartOf(ts, j, hi), hi)
  {
  }

  lemma SpliceKeepsTiling(ts: Tiles, lo: nat, hi: nat, j: nat, m: nat, mid: Tiles)
    requires Tiling(ts, lo, hi) && j <= m <= |ts|
    requires Tiling(mid, StartOf(ts, j, hi), StartOf(ts, m, hi))
    ensures Tiling(Splice(ts, j, m, mid), lo, hi)
  {
    hide Tiling, StartOf;
    TilingSplit(ts, lo, hi, j);
    TilingSplit(ts, lo, hi, m);
    TilingConcat(ts[..j], mid, lo, StartOf(ts, j, hi), StartOf(ts, m, hi));
    TilingConcat(ts[..j] + mid, ts[m..], lo, StartOf(ts, m, hi), hi);
  }

  lemma {:induction false} BytesConcat(a: Tiles, b: Tiles, free: bool)
    ensures Bytes(a + b, free) == Bytes(a, free) + Bytes(b, free)
  {
    if a == [] {
      assert a + b == b;
    } else {
      BytesConcat(a[1..], b, free);
      assert (a + b)[1..] == a[1..] + b;
    }
  }

  lemma BytesOfFew(a: Tile, b: Tile, free: bool)
    ensures Bytes([a], free) == if a.free == free then a.size else 0
    ensures Bytes([a, b], free) == (if a.free == free then a.size else 0) + (if b.free == free then b.size else 0)
  {
    assert [b][1..] == [] && [a][1..] == [];
    assert [a, b][1..] == [b];
  }

  lemma SpliceBytes(ts: Tiles, j: nat, m: nat, mid: Tiles, free: bool)
    requires j <= m <= |ts|
    ensures Bytes(Splice(ts, j, m, mid), free) + Bytes(ts[j..m], free) == Bytes(ts, free) + Bytes(mid, free)
  {
    assert ts == ts[..j] + ts[j..m] + ts[m..];
    BytesConcat(ts[..j] + ts[j..m], ts[m..], free);
    BytesConcat(ts[..j], ts[j..m], free);
    BytesConcat(ts[..j] + mid, ts[m..], free);
    BytesConcat(ts[..j], mid, free);
  }

  /** Free and live bytes together are the whole heap. */
  lemma {:induction false} TilingConservesBytes(ts: Tiles, lo: nat, hi: nat)
    requires Tiling(ts, lo, hi)
    ensures Bytes(ts, true) + Bytes(ts, false) == hi - lo
  {
    if ts != [] {
      TilingSplit(ts, lo, hi, 1);
      if |ts| > 1 {
        assert Abut(ts[0], ts[1]);
      }
      TilingConservesBytes(ts[1..], StartOf(ts, 1, hi), hi);
    }
  }

  // ---- Allocating and freeing ----

  predicate Fits(t: Tile, n: nat) {
    t.free && t.size >= n
  }

  /** The first tile from `k` on that is free and large enough, or the end of the row. */
  function FirstFit(ts: Tiles, n: nat, k: nat): (j: nat)
    requires k <= |ts|
    ensures k <= j <= |ts|
    ensures j < |ts| ==> Fits(ts[j], n)
    ensures forall i | k <= i < j :: !Fits(ts[i], n)
    decreases |ts| - k
  {
    if k == |ts| || Fits(ts[k], n) then k else FirstFit(ts, n, k + 1)
  }

  /** `n` bytes from the front of the free tile `t`, or all of it if too little is left. */
  function Pieces(t: Tile, n: nat): (r: Tiles)
    requires Fits(t, n)
  {
    if t.size - n >= MIN_SPLIT then [Tile(t.addr, n, false), Tile(t.addr + n, t.size - n, true)]
    else [t.(free := false)]
  }

  function Carve(ts: Tiles, j: nat, n: nat): Tiles
    requires j < |ts| && Fits(ts[j], n)
  {
    Splice(ts, j, j + 1, Pieces(ts[j], n))
  }

  /** `alloc_inner`: the new row and the user pointer, 0 for null. */
  function AllocSpec(ts: Tiles, needed: nat): (Tiles, nat) {
    var n := AlignUp(needed, ALIGN);
    var j := FirstFit(ts, n, 0);
    if j == |ts| then (ts, 0) else (Carve(ts, j, n), ts[j].addr + ALLOC_HDR)
  }

  lemma AllocIs(ts: Tiles, needed: nat, j: nat)
    requires j == FirstFit(ts, AlignUp(needed, ALIGN), 0)
    ensures AllocSpec(ts, needed) ==
            if j == |ts| then (ts, 0) else (Carve(ts, j, AlignUp(needed, ALIGN)), ts[j].addr + ALLOC_HDR)
  {
  }

  predicate MergesForward(ts: Tiles, j: nat) {
    j + 1 < |ts| && ts[j + 1].free
  }

  /** Release tile `j`; only the tile behind it is ever merged. */
  function Release(ts: Tiles, j: nat): Tiles
    requires j < |ts|
  {
    if MergesForward(ts, j) then Splice(ts, j, j + 2, [Tile(ts[j].addr, ts[j].size + ts[j + 1].size, true)])
    else Splice(ts, j, j + 1, [ts[j].(free := true)])
  }

  /** `ptr` is what `alloc_inner` returned for the live tile `j`. */
  predicate LivePointer(ts: Tiles, j: nat, ptr: nat) {
    j < |ts| && !ts[j].free && ptr == ts[j].addr + ALLOC_HDR
  }

  // ---- What they keep ----

  lemma CarveKeepsTiling(ts: Tiles, lo: nat, hi: nat, j: nat, n: nat)
    requires Tiling(ts, lo, hi) && j < |ts| && Fits(ts[j], n) && n % ALIGN == 0 && n > 0
    ensures Tiling(Carve(ts, j, n), lo, hi)
  {
    hide Tiling, Splice;
    EndMeetsNext(ts, lo, hi, j);
    PiecesTile(ts[j], n);
    SpliceKeepsTiling(ts, lo, hi, j, j + 1, Pieces(ts[j], n));
  }

  lemma PiecesTile(t: Tile, n: nat)
    requires TileOk(t) && Fits(t, n) && n % ALIGN == 0 && n > 0
    ensures Tiling(Pieces(t, n), t.addr, t.addr + t.size)
  {
    if t.size - n >= MIN_SPLIT {
      AlignedSums(t.addr, t.size, n);
    }
  }

  lemma AlignedSums(a: nat, size: nat, n: nat)
    requires a % ALIGN == 0 && size % ALIGN == 0 && n % ALIGN == 0 && n <= size
    ensures (a + n) % ALIGN == 0 && (size - n) % ALIGN == 0
  {
    DivisionIsUnique(a + n, ALIGN, a / ALIGN + n / ALIGN, 0);
    DivisionIsUnique(size - n, ALIGN, size / ALIGN - n / ALIGN, 0);
  }

  lemma EndMeetsNext(ts: Tiles, lo: nat, hi: nat, j: nat)
    requires Tiling(ts, lo, hi) && j < |ts|
    ensures ts[j].addr + ts[j].size == StartOf(ts, j + 1, hi) && TileOk(ts[j])
  {
  }

  lemma ReleaseKeepsTiling(ts: Tiles, lo: nat, hi: nat, j: nat)
    requires Tiling(ts, lo, hi) && j < |ts|
    ensures Tiling(Release(ts, j), lo, hi)
  {
    hide Tiling, Splice;
    EndMeetsNext(ts, lo, hi, j);
    if MergesForward(ts, j) {
      EndMeetsNext(ts, lo, hi, j + 1);
      var t := Tile(ts[j].addr, ts[j].size + ts[j + 1].size, true);
      OneTile(t);
      SpliceKeepsTiling(ts, lo, hi, j, j + 2, [t]);
    } else {
      var t := ts[j].(free := true);
      OneTile(t);
      SpliceKeepsTiling(ts, lo, hi, j, j + 1, [t]);
    }
  }

  lemma OneTile(t: Tile)
    requires TileOk(t)
    ensures Tiling([t], t.addr, t.addr + t.size)
  {
  }

  /** Allocation moves exactly the granted tile's bytes from free to live. */
  lemma CarveMovesBytes(ts: Tiles, j: nat, n: nat)
    requires j < |ts| && Fits(ts[j], n)
    ensures var r := Carve(ts, j, n);
            && j < |r| && r[j].addr == ts[j].addr && !r[j].free && r[j].size >= n
            && Bytes(r, false) == Bytes(ts, false) + r[j].size
            && Bytes(r, true) + r[j].size == Bytes(ts, true)
  {
    hide Splice, Bytes;
    var mid := Pieces(ts[j], n);
    assert ts[j..j + 1] == [ts[j]];
    SpliceBytes(ts, j, j + 1, mid, true);
    SpliceBytes(ts, j, j + 1, mid, false);
    BytesOfFew(ts[j], ts[j], true);
    BytesOfFew(ts[j], ts[j], false);
    BytesOfFew(mid[0], mid[|mid| - 1], true);
    BytesOfFew(mid[0], mid[|mid| - 1], false);
  }

  /** What an allocation takes: from a tile with sixteen bytes to spare exactly the front `n`
      bytes, the rest staying free; from a smaller one all of it, and so never sixteen bytes
      too many. */
  lemma CarveIsTight(ts: Tiles, j: nat, n: nat)
    requires j < |ts| && Fits(ts[j], n)
    ensures var r := Carve(ts, j, n);
            && j < |r| && n <= r[j].size < n + 16
            && (ts[j].size >= n + 16 ==>
                  r == ts[..j] + [Tile(ts[j].addr, n, false), Tile(ts[j].addr + n, ts[j].size - n, true)] + ts[j + 1..])
            && (ts[j].size < n + 16 ==> r == ts[j := Tile(ts[j].addr, ts[j].size, false)])
  {
    if ts[j].size < n + 16 {
      assert Carve(ts, j, n) == ts[j := Tile(ts[j].addr, ts[j].size, false)];
    }
  }

  /** `alloc_inner` returns a pointer four bytes into its block, and lowers the free bytes by
      at least what was asked for, and by less than 24 bytes more. */
  lemma AllocTakesLittle(ts: Tiles, needed: nat)
    ensures var (r, ptr) := AllocSpec(ts, needed);
            var j := FirstFit(ts, AlignUp(needed, 8), 0);
            && (j == |ts| ==> r == ts && ptr == 0)
            && (j < |ts| ==> ptr == ts[j].addr + 4 && Bytes(r, true) + needed <= Bytes(ts, true) < Bytes(r, true) + needed + 24)
  {
    hide AlignUp, Carve, Bytes, Fits;
    var n := AlignUp(needed, 8);
    var j := FirstFit(ts, n, 0);
    AllocIs(ts, needed, j);
    if j < |ts| {
      CarveMovesBytes(ts, j, n);
      CarveIsTight(ts, j, n);
    }
  }

  /** Two allocations of 24 bytes from a fresh heap of 1024: each gets 24, the rest is free. */
  lemma FreshHeapSplits(addr: nat)
    ensures AllocSpec([Tile(addr, 1024, true)], 24) == ([Tile(addr, 24, false), Tile(addr + 24, 1000, true)], addr + 4)
    ensures AllocSpec([Tile(addr, 24, false), Tile(addr + 24, 1000, true)], 24)
         == ([Tile(addr, 24, false), Tile(addr + 24, 24, false), Tile(addr + 48, 976, true)], addr + 28)
  {
    var ts := [Tile(addr, 1024, true)];
    assert ts[..0] + [Tile(addr, 24, false), Tile(addr + 24, 1000, true)] + ts[1..]
        == [Tile(addr, 24, false), Tile(addr + 24, 1000, true)];
    CarveIsTight(ts, 0, 24);
    var us := [Tile(addr, 24, false), Tile(addr + 24, 1000, true)];
    CarveIsTight(us, 1, 24);
    assert us[..1] + [Tile(addr + 24, 24, false), Tile(addr + 48, 976, true)] + us[2..]
        == [Tile(addr, 24, false), Tile(addr + 24, 24, false), Tile(addr + 48, 976, true)];
    assert FirstFit(us, 24, 0) == 1;
  }

  /** Freeing moves exactly the freed tile's bytes back. */
  lemma ReleaseMovesBytes(ts: Tiles, j: nat)
    requires j < |ts| && !ts[j].free
    ensures Bytes(Release(ts, j), false) + ts[j].size == Bytes(ts, false)
    ensures Bytes(Release(ts, j), true) == Bytes(ts, true) + ts[j].size
  {
    hide Splice, Bytes;
    MovesOneWay(ts, j, true);
    MovesOneWay(ts, j, false);
  }

  lemma MovesOneWay(ts: Tiles, j: nat, free: bool)
    requires j < |ts| && !ts[j].free
    ensures free ==> Bytes(Release(ts, j), free) == Bytes(ts, free) + ts[j].size
    ensures !free ==> Bytes(Release(ts, j), free) + ts[j].size == Bytes(ts, free)
  {
    hide Splice, Bytes;
    if MergesForward(ts, j) {
      assert ts[j..j + 2] == [ts[j], ts[j + 1]];
      var t := Tile(ts[j].addr, ts[j].size + ts[j + 1].size, true);
      SpliceBytes(ts, j, j + 2, [t], free);
      BytesOfFew(t, t, free);
      BytesOfFew(ts[j], ts[j + 1], free);
    } else {
      assert ts[j..j + 1] == [ts[j]];
      var t := ts[j].(free := true);
      SpliceBytes(ts, j, j + 1, [t], free);
      BytesOfFew(t, ts[j], free);
      BytesOfFew(ts[j], ts[j], free);
    }
  }

  // ---- First fit ----

  /** Null is returned exactly when no free tile is large enough; otherwise the grant is
      the front of the lowest-addressed tile that is. */
  lemma FirstFitIsLowest(ts: Tiles, lo: nat, hi: nat, needed: nat)
    requires Tiling(ts, lo, hi) && lo > 0
    ensures var (r, ptr) := AllocSpec(ts, needed);
            && (ptr == 0 <==> forall t | t in ts :: !Fits(t, AlignUp(needed, ALIGN)))
            && (ptr == 0 ==> r == ts)
            && (ptr != 0 ==>
                  && (exists t | t in ts :: Fits(t, AlignUp(needed, ALIGN)) && ptr == t.addr + ALLOC_HDR)
                  && forall t | t in ts && Fits(t, AlignUp(needed, ALIGN)) :: ptr <= t.addr + ALLOC_HDR)
  {
    var n := AlignUp(needed, ALIGN);
    var j := FirstFit(ts, n, 0);
    if j < |ts| {
      assert ts[j] in ts;
      forall t | t in ts && Fits(t, n)
        ensures ts[j].addr <= t.addr
      {
        var i :| 0 <= i < |ts| && ts[i] == t;
        TilesOrdered(ts, lo, hi, j, i);
      }
    }
  }

  // ---- Undoing and coalescing ----

  /** Freeing what was just allocated restores the row exactly when the allocation split
      the tile or no free tile follows it. */
  lemma FreeUndoesAllocIff(ts: Tiles, j: nat, n: nat)
    requires j < |ts| && Fits(ts[j], n)
    ensures Release(Carve(ts, j, n), j) == ts <==> ts[j].size - n >= MIN_SPLIT || !MergesForward(ts, j)
  {
    var c := Carve(ts, j, n);
    var r := Release(c, j);
    if ts[j].size - n >= MIN_SPLIT {
      assert MergesForward(c, j);
      assert c[..j] == ts[..j] && c[j + 2..] == ts[j + 1..];
      assert r == ts[..j] + [ts[j]] + ts[j + 1..] == ts;
    } else if MergesForward(ts, j) {
      assert c == ts[j := ts[j].(free := false)];
      assert |r| == |ts| - 1;
    } else {
      assert c == ts[j := ts[j].(free := false)];
      assert r == ts;
    }
  }

  /** No two neighbouring tiles are both free. */
  ghost predicate Coalesced(ts: Tiles) {
    forall k | 0 < k < |ts| :: !(ts[k - 1].free && ts[k].free)
  }

  lemma CarveKeepsCoalesced(ts: Tiles, j: nat, n: nat)
    requires Coalesced(ts) && j < |ts| && Fits(ts[j], n)
    ensures Coalesced(Carve(ts, j, n))
  {
    var r := Carve(ts, j, n);
    var d := |r| - |ts|;
    forall k | 0 < k < |r|
      ensures !(r[k - 1].free && r[k].free)
    {
      if k < j {
        assert !(ts[k - 1].free && ts[k].free);
      } else if k > j + 1 {
        assert !(ts[k - d - 1].free && ts[k - d].free);
      }
    }
  }

  /** Blocks are merged with the one behind only: freeing leaves two free neighbours exactly
      when the tile in front of the freed one is free. */
  lemma ReleaseCoalescesIff(ts: Tiles, j: nat)
    requires Coalesced(ts) && j < |ts| && !ts[j].free
    ensures Coalesced(Release(ts, j)) <==> j == 0 || !ts[j - 1].free
  {
    var r := Release(ts, j);
    var d := |ts| - |r|;
    if j > 0 && ts[j - 1].free {
      assert r[j - 1].free && r[j].free;
    } else {
      forall k | 0 < k < |r|
        ensures !(r[k - 1].free && r[k].free)
      {
        if k < j {
          assert !(ts[k - 1].free && ts[k].free);
        } else if k == j + 1 && d == 1 {
          assert !(ts[j + 1].free && ts[j + 2].free);
        } else if k > j + 1 {
          assert !(ts[k + d - 1].free && ts[k + d].free);
        }
      }
    }
  }

  // ---- Runs ----

  datatype HeapOp = Alloc(needed: nat) | Free(ptr: nat)

  /** The row, and what the clients hold: for every pointer granted and not yet freed, the
      bytes asked for behind it. */
  datatype HeapState = HeapState(tiles: Tiles, held: map<nat, nat>)

  /** The live tile `ptr` was granted from, searched from tile `k` on. */
  function TileOf(ts: Tiles, ptr: nat, k: nat): (j: nat)
    requires k <= |ts|
    ensures k <= j <= |ts|
    ensures j < |ts| ==> LivePointer(ts, j, ptr)
    ensures forall i | k <= i < j :: !LivePointer(ts, i, ptr)
    decreases |ts| - k
  {
    if k == |ts| || LivePointer(ts, k, ptr) then k else TileOf(ts, ptr, k + 1)
  }

  /** `free_inner`: nothing for null, otherwise the tile the pointer came from is released. */
  function FreeSpec(ts: Tiles, ptr: nat): Tiles {
    var j := TileOf(ts, ptr, 0);
    if ptr == 0 || j == |ts| then ts else Release(ts, j)
  }

  /** What a request of `needed` raw bytes, header included, leaves for its caller. */
  function Usable(needed: nat): nat {
    if needed < ALLOC_HDR then 0 else needed - ALLOC_HDR
  }

  /** Allocation is for a positive size whose rounding does not wrap, freeing for pointers
      still held, or null. */
  ghost predicate LegalOp(s: HeapState, op: HeapOp) {
    match op
    case Alloc(needed) => needed > 0 && Rounds(needed, ALIGN)
    case Free(ptr) => ptr == 0 || ptr in s.held
  }

  ghost function Apply(s: HeapState, op: HeapOp): HeapState
    requires LegalOp(s, op)
  {
    match op
    case Alloc(needed) =>
      var (r, ptr) := AllocSpec(s.tiles, needed);
      HeapState(r, if ptr == 0 then s.held else s.held[ptr := Usable(needed)])
    case Free(ptr) => HeapState(FreeSpec(s.tiles, ptr), s.held - {ptr})
  }

  /** The tile backs a held pointer, and is large enough for what was asked for. */
  ghost predicate Backs(t: Tile, held: map<nat, nat>) {
    t.addr + ALLOC_HDR in held && held[t.addr + ALLOC_HDR] + ALLOC_HDR <= t.size
  }

  ghost predicate HeapInv(s: HeapState, lo: nat, hi: nat) {
    && lo > 0
    && Tiling(s.tiles, lo, hi)
    && (forall t | t in Live(s.tiles) :: Backs(t, s.held))
    && (forall ptr | ptr in s.held :: TileOf(s.tiles, ptr, 0) < |s.tiles|)
  }

  lemma FoundIff(ts: Tiles, ptr: nat)
    ensures TileOf(ts, ptr, 0) < |ts| <==> exists t | t in Live(ts) :: ptr == t.addr + ALLOC_HDR
  {
    var j := TileOf(ts, ptr, 0);
    if j < |ts| {
      assert ts[j] in Live(ts);
    } else if t :| t in Live(ts) && ptr == t.addr + ALLOC_HDR {
      var i :| 0 <= i < |ts| && ts[i] == t;
      assert LivePointer(ts, i, ptr);
    }
  }

  /** A pointer belongs to one live tile only. */
  lemma OneTilePerPointer(ts: Tiles, lo: nat, hi: nat, i: nat, j: nat)
    requires Tiling(ts, lo, hi) && i < |ts| && j < |ts| && ts[i].addr == ts[j].addr
    ensures i == j
  {
    EndMeetsNext(ts, lo, hi, i);
    EndMeetsNext(ts, lo, hi, j);
    if i < j {
      TilesOrdered(ts, lo, hi, i, j);
    } else if j < i {
      TilesOrdered(ts, lo, hi, j, i);
    }
  }

  lemma LiveAfterCarve(ts: Tiles, j: nat, n: nat)
    requires j < |ts| && Fits(ts[j], n)
    ensures Live(Carve(ts, j, n)) == Live(ts) + {Carve(ts, j, n)[j]}
  {
  }

  lemma LiveAfterRelease(ts: Tiles, lo: nat, hi: nat, j: nat)
    requires Tiling(ts, lo, hi) && j < |ts| && !ts[j].free
    ensures Live(Release(ts, j)) == Live(ts) - {ts[j]}
  {
    hide Tiling, Release;
    var r := Release(ts, j);
    forall t | t in Live(ts) && t != ts[j]
      ensures t in r
    {
      var i :| 0 <= i < |ts| && ts[i] == t;
      var k := StaysAt(ts, j, i);
    }
    forall t | t in Live(r)
      ensures t in ts && t != ts[j]
    {
      var k :| 0 <= k < |r| && r[k] == t;
      var i := CameFrom(ts, j, k);
      if t == ts[j] {
        OneTilePerPointer(ts, lo, hi, i, j);
      }
    }
  }

  /** Where the other live tiles are after a release, and where they were. */
  lemma StaysAt(ts: Tiles, j: nat, i: nat) returns (k: nat)
    requires j < |ts| && i < |ts| && i != j && !ts[i].free
    ensures k < |Release(ts, j)| && Release(ts, j)[k] == ts[i]
  {
    k := if i > j && MergesForward(ts, j) then i - 1 else i;
  }

  lemma CameFrom(ts: Tiles, j: nat, k: nat) returns (i: nat)
    requires j < |ts| && k < |Release(ts, j)| && !Release(ts, j)[k].free
    ensures i < |ts| && i != j && Release(ts, j)[k] == ts[i]
  {
    i := if k > j && MergesForward(ts, j) then k + 1 else k;
  }

  lemma AllocKeepsInv(s: HeapState, lo: nat, hi: nat, needed: nat)
    requires HeapInv(s, lo, hi) && needed > 0 && Rounds(needed, ALIGN)
    ensures HeapInv(Apply(s, Alloc(needed)), lo, hi)
  {
    hide Tiling, Carve, Live, AllocSpec, FirstFit, TileOf, AlignUp, Bytes, LivePointer;
    var n := AlignUp(needed, ALIGN);
    var j := FirstFit(s.tiles, n, 0);
    AllocIs(s.tiles, needed, j);
    if j < |s.tiles| {
      var after := Apply(s, Alloc(needed));
      CarveKeepsTiling(s.tiles, lo, hi, j, n);
      LiveAfterCarve(s.tiles, j, n);
      CarveMovesBytes(s.tiles, j, n);
      StartUnheld(s, lo, hi, j);
      forall ptr | ptr in after.held
        ensures TileOf(after.tiles, ptr, 0) < |after.tiles|
      {
        FoundIff(s.tiles, ptr);
        FoundIff(after.tiles, ptr);
      }
    }
  }

  /** A free tile's would-be pointer is nobody's. */
  lemma StartUnheld(s: HeapState, lo: nat, hi: nat, j: nat)
    requires HeapInv(s, lo, hi) && j < |s.tiles| && s.tiles[j].free
    ensures s.tiles[j].addr + ALLOC_HDR !in s.held
    ensures forall t | t in Live(s.tiles) :: t.addr != s.tiles[j].addr
  {
    forall t | t in Live(s.tiles)
      ensures t.addr != s.tiles[j].addr
    {
      var i :| 0 <= i < |s.tiles| && s.tiles[i] == t;
      if t.addr == s.tiles[j].addr {
        OneTilePerPointer(s.tiles, lo, hi, i, j);
      }
    }
    FoundIff(s.tiles, s.tiles[j].addr + ALLOC_HDR);
  }

  lemma FreeKeepsInv(s: HeapState, lo: nat, hi: nat, ptr: nat)
    requires HeapInv(s, lo, hi) && LegalOp(s, Free(ptr))
    ensures HeapInv(Apply(s, Free(ptr)), lo, hi)
  {
    hide Tiling, Release, Live;
    var j := TileOf(s.tiles, ptr, 0);
    var after := Apply(s, Free(ptr));
    if ptr == 0 {
      FoundIff(s.tiles, 0);
      assert after == s;
    } else {
      ReleaseKeepsTiling(s.tiles, lo, hi, j);
      LiveAfterRelease(s.tiles, lo, hi, j);
      PointerUnique(s.tiles, lo, hi, j);
      forall p | p in after.held
        ensures TileOf(after.tiles, p, 0) < |after.tiles|
      {
        FoundIff(s.tiles, p);
        FoundIff(after.tiles, p);
      }
    }
  }

  lemma PointerUnique(ts: Tiles, lo: nat, hi: nat, j: nat)
    requires Tiling(ts, lo, hi) && j < |ts|
    ensures forall t | t in Live(ts) && t.addr == ts[j].addr :: t == ts[j]
  {
    forall t | t in Live(ts) && t.addr == ts[j].addr
      ensures t == ts[j]
    {
      var i :| 0 <= i < |ts| && ts[i] == t;
      OneTilePerPointer(ts, lo, hi, i, j);
    }
  }

  ghost predicate LegalRun(s: HeapState, ops: seq<HeapOp>)
    decreases |ops|
  {
    ops == [] || (LegalOp(s, ops[0]) && LegalRun(Apply(s, ops[0]), ops[1..]))
  }

  ghost function Run(s: HeapState, ops: seq<HeapOp>): HeapState
    requires LegalRun(s, ops)
    decreases |ops|
  {
    if ops == [] then s else Run(Apply(s, ops[0]), ops[1..])
  }

  lemma {:induction false} RunKeepsInv(s: HeapState, lo: nat, hi: nat, ops: seq<HeapOp>)
    requires HeapInv(s, lo, hi) && LegalRun(s, ops)
    ensures HeapInv(Run(s, ops), lo, hi)
    decreases |ops|
  {
    hide HeapInv;
    if ops != [] {
      match ops[0] {
        case Alloc(needed) => AllocKeepsInv(s, lo, hi, needed);
        case Free(ptr) => FreeKeepsInv(s, lo, hi, ptr);
      }
      RunKeepsInv(Apply(s, ops[0]), lo, hi, ops[1..]);
    }
  }

  /** Every run of allocations and frees from a fresh heap: the tiles still cover exactly the
      heap, free and granted bytes add up to its size, every pointer held has its requested
      bytes inside the heap behind a header, and no two grants, headers included, overlap. */
  lemma RunSafety(lo: nat, size: nat, ops: seq<HeapOp>, p: nat, q: nat)
    requires lo > 0 && TileOk(Tile(lo, size, true))
    requires LegalRun(HeapState([Tile(lo, size, true)], map[]), ops)
    ensures var s := Run(HeapState([Tile(lo, size, true)], map[]), ops);
            && Tiling(s.tiles, lo, lo + size)
            && Bytes(s.tiles, true) + Bytes(s.tiles, false) == size
            && (p in s.held ==> lo + ALLOC_HDR <= p && p % ALIGN == ALLOC_HDR && p + s.held[p] <= lo + size)
            && (p in s.held && q in s.held && p < q ==> p + s.held[p] + ALLOC_HDR <= q)
  {
    var fresh0 := HeapState([Tile(lo, size, true)], map[]);
    assert HeapInv(fresh0, lo, lo + size);
    RunKeepsInv(fresh0, lo, lo + size, ops);
    var s := Run(fresh0, ops);
    TilingConservesBytes(s.tiles, lo, lo + size);
    if p in s.held {
      HeldIsInside(s, lo, lo + size, p);
      if q in s.held && p < q {
        HeldAreApart(s, lo, lo + size, p, q);
      }
    }
  }

  lemma HeldIsInside(s: HeapState, lo: nat, hi: nat, p: nat)
    requires HeapInv(s, lo, hi) && p in s.held
    ensures lo + ALLOC_HDR <= p && p % ALIGN == ALLOC_HDR && p + s.held[p] <= hi
  {
    hide Tiling;
    var i := TileOf(s.tiles, p, 0);
    assert s.tiles[i] in Live(s.tiles) && Backs(s.tiles[i], s.held);
    EndMeetsNext(s.tiles, lo, hi, i);
    TilesOrdered(s.tiles, lo, hi, i, i + 1);
  }

  lemma HeldAreApart(s: HeapState, lo: nat, hi: nat, p: nat, q: nat)
    requires HeapInv(s, lo, hi) && p in s.held && q in s.held && p < q
    ensures p + s.held[p] + ALLOC_HDR <= q
  {
    var i := TileOf(s.tiles, p, 0);
    var j := TileOf(s.tiles, q, 0);
    assert s.tiles[i] in Live(s.tiles) && Backs(s.tiles[i], s.held);
    if j < i {
      TilesOrdered(s.tiles, lo, hi, j, i);
    }
    TilesOrdered(s.tiles, lo, hi, i, j);
  }

  // ---- Layout requests ----

  lemma {:induction false} Pow2Grows(i: nat, k: nat)
    requires i <= k
    ensures Pow2(i) <= Pow2(k)
    decreases k
  {
    if i < k {
      Pow2Grows(i, k - 1);
    }
  }

  lemma Pow2Values()
    ensures Pow2(3) == ALIGN && Pow2(30) == 0x4000_0000 && Pow2(31) == 0x8000_0000
  {
    assert Pow2(10) == 1024;
    assert Pow2(20) == 1024 * Pow2(10) == 0x10_0000;
  }

  /** What `core::alloc::Layout` guarantees: a power-of-two alignment, and a size that fits
      `isize` once rounded up to it. */
  ghost predicate LayoutOk(size: nat, k: nat) {
    k <= 31 && AlignUp(size, Pow2(k)) <= 0x7FFF_FFFF
  }

  function Padding(k: nat): (r: nat)
    ensures r >= ALIGN && r >= Pow2(k)
  {
    if Pow2(k) < ALIGN then ALIGN else Pow2(k)
  }

  /** The bytes `Allocator::alloc` asks of `alloc_inner`. */
  function Padded(size: nat, k: nat): (r: nat)
    ensures r % ALIGN == 0 && r > 0
  {
    AlignUp(size + ALLOC_HDR + Padding(k) - 1, ALIGN)
  }

  /** No sum on the way to the padded size, or to rounding that size again, wraps. */
  lemma PaddingNeverWraps(size: nat, k: nat)
    requires LayoutOk(size, k)
    ensures Rounds(size + ALLOC_HDR + Padding(k) - 1, ALIGN) && Rounds(Padded(size, k), ALIGN)
  {
    hide AlignUp, Pow2;
    Pow2Values();
    Pow2Grows(k, 31);
    if size > 0 {
      RoundsToAtLeast(size, Pow2(k));
      if k < 31 {
        Pow2Grows(k, 30);
      }
    }
  }

  lemma RoundsToAtLeast(n: nat, align: nat)
    requires align > 0 && n > 0
    ensures AlignUp(n, align) >= align
  {
    var r := AlignUp(n, align);
    if r < align {
      DivisionIsUnique(r, align, 0, r);
    }
  }

  lemma AlignedIsFixed(n: nat)
    requires n % ALIGN == 0
    ensures AlignUp(n, ALIGN) == n
  {
  }

  lemma MultipleOfPadding(n: nat, k: nat)
    requires n % Padding(k) == 0
    ensures n % ALIGN == 0
  {
    if k < 3 {
      Pow2Grows(k, 3);
      Pow2Values();
    } else {
      var q := n / Padding(k);
      Pow2Grows(3, k);
      Pow2Values();
      assert Pow2(k) == 2 * Pow2(k - 1) == 4 * Pow2(k - 2) == 8 * Pow2(k - 3);
      assert Padding(k) == Pow2(k);
      assert n == 8 * (Pow2(k - 3) * q);
      DivisionIsUnique(n, ALIGN, Pow2(k - 3) * q, 0);
    }
  }

  lemma PaddingAligns(n: nat, k: nat)
    requires n % Padding(k) == 0
    ensures Pow2(k) > 0 && n % Pow2(k) == 0
  {
    if k < 3 {
      Pow2Grows(k, 3);
      Pow2Values();
      assert Pow2(0) == 1 && Pow2(1) == 2 && Pow2(2) == 4;
    } else {
      Pow2Grows(3, k);
      Pow2Values();
    }
  }

  lemma PaddedExceeds(size: nat, k: nat)
    ensures Padded(size, k) >= Padding(k) + ALIGN && Padded(size, k) >= size + ALLOC_HDR + Padding(k) - 1
  {
    hide Padding;
    var m := Padding(k);
    DivisionIsUnique(m, m, 1, 0);
    MultipleOfPadding(m, k);
    assert m % ALIGN == 0;
    MultiplesStep(m, Padded(size, k));
  }

  lemma MultiplesStep(a: nat, b: nat)
    requires a % ALIGN == 0 && b % ALIGN == 0 && a < b
    ensures a + ALIGN <= b
  {
  }

  /** The pointer `Allocator::alloc` hands out: `alloc_inner`'s, moved up to the alignment. */
  function AlignedAlloc(ts: Tiles, size: nat, k: nat): (Tiles, nat) {
    var (r, ptr) := AllocSpec(ts, Padded(size, k));
    (r, if ptr == 0 then 0 else AlignUp(ptr, Padding(k)))
  }

  /** Null exactly when no free tile holds the padded request; otherwise the lowest tile that
      does is taken, the pointer is aligned and all `size` bytes are inside the tile. */
  lemma AlignedAllocFits(ts: Tiles, lo: nat, hi: nat, size: nat, k: nat)
    requires Tiling(ts, lo, hi) && 0 < lo <= hi <= WORD_RANGE
    ensures var (r, ptr) := AlignedAlloc(ts, size, k);
            var j := FirstFit(ts, Padded(size, k), 0);
            && (ptr == 0 <==> j == |ts|)
            && (ptr == 0 ==> forall i | 0 <= i < |ts| && ts[i].free :: ts[i].size < size + Pow2(k) + 17)
            && (ptr != 0 ==>
                  && r == Carve(ts, j, Padded(size, k)) && j < |r| && !r[j].free
                  && ptr % Padding(k) == 0 && ptr % ALIGN == 0 && Pow2(k) > 0 && ptr % Pow2(k) == 0
                  && r[j].addr + ALLOC_HDR < ptr && ptr + size <= r[j].addr + r[j].size
                  && r[j].size < size + Pow2(k) + 33)
  {
    hide Tiling, Carve, Splice, Pow2, Padding, Padded, AlignUp, TileOk;
    var n := Padded(size, k);
    AlignedIsFixed(n);
    PaddedIsTight(size, k);
    var j := FirstFit(ts, n, 0);
    if j == |ts| {
      assert forall i | 0 <= i < |ts| :: !Fits(ts[i], n);
    } else {
      CarveMovesBytes(ts, j, n);
      EndMeetsNext(ts, lo, hi, j);
      TilesOrdered(ts, lo, hi, j, j + 1);
      AlignedInside(ts[j].addr, size, k);
      CarveIsTight(ts, j, n);
      PaddingAligns(AlignUp(ts[j].addr + ALLOC_HDR, Padding(k)), k);
    }
  }

  lemma PaddedIsTight(size: nat, k: nat)
    ensures Padded(size, k) <= size + Pow2(k) + 17
  {
    hide AlignUp;
    Pow2Positive(k);
  }

  lemma {:induction false} Pow2Positive(k: nat)
    ensures Pow2(k) > 0
  {
    if k > 0 {
      Pow2Positive(k - 1);
    }
  }

  /** Rounding a block's user pointer up to the alignment stays inside the padded request. */
  lemma AlignedInside(addr: nat, size: nat, k: nat)
    requires addr % ALIGN == 0
    ensures var ptr := AlignUp(addr + ALLOC_HDR, Padding(k));
            && ptr % Padding(k) == 0 && ptr % ALIGN == 0
            && addr + ALLOC_HDR < ptr && ptr + size <= addr + Padded(size, k)
    ensures addr + ALLOC_HDR + Padding(k) - 1 < addr + Padded(size, k)
  {
    hide Pow2, Padding, Padded, AlignUp;
    var ptr := AlignUp(addr + ALLOC_HDR, Padding(k));
    MultipleOfPadding(ptr, k);
    PaddedExceeds(size, k);
    MultiplesStep(addr, ptr);
  }

  /** The pointer handed out is never one `free_inner` would find a header for: the four
      bytes below it are payload, whatever the request. */
  lemma AlignedPointerHasNoHeader(ts: Tiles, lo: nat, hi: nat, size: nat, k: nat)
    requires Tiling(ts, lo, hi) && 0 < lo <= hi <= WORD_RANGE
    ensures var (r, ptr) := AlignedAlloc(ts, size, k);
            ptr != 0 ==> TileOf(r, ptr, 0) == |r|
  {
    hide Tiling, Carve, Padded, Padding, AlignUp, Pow2, Fits, AllocSpec;
    var n := Padded(size, k);
    var (r, ptr) := AlignedAlloc(ts, size, k);
    if ptr != 0 {
      AlignedAllocFits(ts, lo, hi, size, k);
      var j := FirstFit(ts, n, 0);
      PaddedExceeds(size, k);
      AlignedIsFixed(n);
      CarveKeepsTiling(ts, lo, hi, j, n);
      var i := TileOf(r, ptr, 0);
      if i < |r| {
        HeaderIsUnaligned(r[i].addr);
        EndMeetsNext(r, lo, hi, i);
      }
    }
  }

  lemma HeaderIsUnaligned(addr: nat)
    ensures addr % ALIGN == 0 ==> (addr + ALLOC_HDR) % ALIGN != 0
  {
  }
}
