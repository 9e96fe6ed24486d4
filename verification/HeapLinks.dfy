/** How a row of tiles is laid out in memory words: headers in place, the free tiles threaded
    in address order. The lemmas say which word writes turn one row's layout into another's. */
module HeapLinks {
  import opened Arithmetic
  import opened HeapSpec

  type Memory = map<nat, nat>

  const NEXT: nat := 4

  /** The address of the first free tile from `k` on, 0 (null) if there is none. */
  function NextFree(ts: Tiles, k: nat): nat
    decreases |ts| - k
  {
    if k >= |ts| then 0 else if ts[k].free then ts[k].addr else NextFree(ts, k + 1)
  }

  ghost predicate Entry(mem: Memory, ts: Tiles, k: nat)
    requires k < |ts|
  {
    var a := ts[k].addr;
    && a in mem && a + NEXT in mem
    && mem[a] == ts[k].size
    && (ts[k].free ==> mem[a + NEXT] == NextFree(ts, k + 1))
  }

  /** Every tile's size is in its first word, every free tile's second word points to the
      next free tile, and the list head, outside the heap, points to the first. */
  ghost predicate Laid(mem: Memory, head: nat, ts: Tiles) {
    && head in mem && mem[head] == NextFree(ts, 0)
    && forall k: nat | k < |ts| :: Entry(mem, ts, k)
  }

  /** Tiles in address order, at least a free header large, away from null and from the
      word `head`. */
  ghost predicate Apart(ts: Tiles, head: nat) {
    && (forall k | 0 <= k < |ts| :: 0 < ts[k].addr && ts[k].size >= FREE_HDR)
    && (|ts| > 0 ==> head < ts[0].addr || head >= ts[|ts| - 1].addr + ts[|ts| - 1].size)
    && (forall i, k | 0 <= i < k < |ts| :: ts[i].addr + ts[i].size <= ts[k].addr)
  }

  lemma TilingIsApart(ts: Tiles, lo: nat, hi: nat, head: nat)
    requires Tiling(ts, lo, hi) && lo > 0 && (head < lo || head >= hi)
    ensures Apart(ts, head)
  {
    forall k | 0 <= k < |ts|
      ensures 0 < ts[k].addr && ts[k].size >= FREE_HDR
    {
      TilesOrdered(ts, lo, hi, k, k + 1);
      assert TileOk(ts[k]);
    }
    forall i, k | 0 <= i < k < |ts|
      ensures ts[i].addr + ts[i].size <= ts[k].addr
    {
      TilesOrdered(ts, lo, hi, i, k);
    }
  }

  /** Going over tiles `[k, i)` that two rows share. */
  lemma {:induction false} NextThrough(ts: Tiles, r: Tiles, k: nat, i: nat)
    requires k <= i <= |ts| && i <= |r| && ts[..i] == r[..i]
    ensures (exists m | k <= m < i :: ts[m].free) ==> NextFree(r, k) == NextFree(ts, k)
    ensures (forall m | k <= m < i :: !ts[m].free) ==> NextFree(r, k) == NextFree(r, i)
    decreases i - k
  {
    if k < i {
      assert ts[..i][k] == r[..i][k];
      NextThrough(ts, r, k + 1, i);
    }
  }

  lemma {:induction false} NextShift(ts: Tiles, r: Tiles, k: nat, m: nat)
    requires k <= |ts| && m <= |r| && ts[k..] == r[m..]
    ensures NextFree(ts, k) == NextFree(r, m)
    decreases |ts| - k
  {
    assert |ts[k..]| == |r[m..]|;
    if k < |ts| {
      assert ts[k] == ts[k..][0] == r[m..][0] == r[m];
      assert ts[k + 1..] == ts[k..][1..] == r[m..][1..] == r[m + 1..];
      NextShift(ts, r, k + 1, m + 1);
    }
  }

  /** The word that points to the first free tile after tile `p`; `p == -1` is the head. */
  ghost function LinkWord(ts: Tiles, head: nat, p: int): nat
    requires -1 <= p < |ts|
  {
    if p == -1 then head else ts[p].addr + NEXT
  }

  /** `p` is the last free tile before `i`, or -1 if there is none. */
  ghost predicate LastFreeBefore(ts: Tiles, p: int, i: nat) {
    && -1 <= p < i <= |ts|
    && (p >= 0 ==> ts[p].free)
    && forall m | p < m < i :: !ts[m].free
  }

  /** `after` differs from `mem` only in the word `link` and in tiles `[j, m)`. */
  ghost predicate OnlyTouches(mem: Memory, after: Memory, ts: Tiles, j: nat, m: nat, link: nat)
    requires j < m <= |ts|
  {
    forall a | a in mem ::
      && a in after
      && (a != link && (a < ts[j].addr || a >= ts[m - 1].addr + ts[m - 1].size) ==> after[a] == mem[a])
  }

  /** Replacing tiles `[j, m)` by `mid`: the layout is right again once the new tiles' words
      are, and the link of the free tile before them leads to the first free one of them. */
  lemma Relaid(mem: Memory, after: Memory, head: nat, ts: Tiles, j: nat, m: nat, mid: Tiles, p: int)
    requires Laid(mem, head, ts) && Apart(ts, head) && LastFreeBefore(ts, p, j) && j < m <= |ts|
    requires OnlyTouches(mem, after, ts, j, m, LinkWord(ts, head, p))
    requires LinkWord(ts, head, p) in after
    requires var r := Splice(ts, j, m, mid);
             && after[LinkWord(ts, head, p)] == NextFree(r, j)
             && forall k: nat | j <= k < j + |mid| :: Entry(after, r, k)
    ensures Laid(after, head, Splice(ts, j, m, mid))
  {
    var r := Splice(ts, j, m, mid);
    forall k: nat | k < |r|
      ensures Entry(after, r, k)
    {
      if k < j {
        EntryBefore(mem, after, head, ts, j, m, mid, p, k);
      } else if k >= j + |mid| {
        EntryAfter(mem, after, head, ts, j, m, mid, p, k - |mid| + m - j);
      }
    }
    assert ts[..j] == r[..j];
    NextThrough(ts, r, 0, j);
    if p >= 0 {
      assert ts[p].free;
      assert head != LinkWord(ts, head, p);
    }
  }

  lemma EntryBefore(mem: Memory, after: Memory, head: nat, ts: Tiles, j: nat, m: nat, mid: Tiles, p: int, k: nat)
    requires Laid(mem, head, ts) && Apart(ts, head) && LastFreeBefore(ts, p, j) && k < j < m <= |ts|
    requires OnlyTouches(mem, after, ts, j, m, LinkWord(ts, head, p))
    requires LinkWord(ts, head, p) in after && after[LinkWord(ts, head, p)] == NextFree(Splice(ts, j, m, mid), j)
    ensures Entry(after, Splice(ts, j, m, mid), k)
  {
    hide NextFree;
    var r := Splice(ts, j, m, mid);
    assert ts[..j] == r[..j];
    assert r[k] == ts[..j][k] == ts[k];
    assert Entry(mem, ts, k);
    NextThrough(ts, r, k + 1, j);
    if k < p {
      assert ts[p].free;
      assert ts[k].addr + ts[k].size <= ts[p].addr;
    } else if 0 <= p < k {
      assert ts[p].addr + ts[p].size <= ts[k].addr;
    }
  }

  lemma EntryAfter(mem: Memory, after: Memory, head: nat, ts: Tiles, j: nat, m: nat, mid: Tiles, p: int, k: nat)
    requires Laid(mem, head, ts) && Apart(ts, head) && LastFreeBefore(ts, p, j) && j < m <= k < |ts|
    requires OnlyTouches(mem, after, ts, j, m, LinkWord(ts, head, p))
    ensures Entry(after, Splice(ts, j, m, mid), k + |mid| - (m - j))
  {
    hide NextFree;
    var r := Splice(ts, j, m, mid);
    var k1 := k + |mid| - (m - j);
    assert r[k1] == ts[k];
    assert Entry(mem, ts, k);
    assert ts[k + 1..] == r[k1 + 1..];
    NextShift(ts, r, k + 1, k1 + 1);
    assert ts[m - 1].addr + ts[m - 1].size <= ts[k].addr;
    if p >= 0 {
      assert ts[p].addr + ts[p].size <= ts[k].addr;
    }
  }

  // ---- The writes of the two operations ----

  /** The words `alloc_inner` writes when it takes `n` bytes from the free block at `cur`. */
  function AllocWrites(mem: Memory, prev: nat, cur: nat, n: nat): (r: Memory)
    requires cur in mem && cur + NEXT in mem && mem[cur] >= n
    ensures forall a | a in mem :: a in r
  {
    if mem[cur] - n >= MIN_SPLIT
    then mem[cur + n := mem[cur] - n][cur + n + NEXT := mem[cur + NEXT]][prev := cur + n][cur := n]
    else mem[prev := mem[cur + NEXT]][cur := mem[cur]]
  }

  lemma CarveLaid(mem: Memory, head: nat, ts: Tiles, p: int, i: nat, n: nat)
    requires Laid(mem, head, ts) && Apart(ts, head) && LastFreeBefore(ts, p, i)
    requires i < |ts| && Fits(ts[i], n) && n >= FREE_HDR
    requires Entry(mem, ts, i)
    ensures var link := LinkWord(ts, head, p);
            var after := AllocWrites(mem, link, ts[i].addr, n);
            && Laid(after, head, Carve(ts, i, n))
            && OnlyTouches(mem, after, ts, i, i + 1, link)
  {
    hide Laid, Apart;
    var link := LinkWord(ts, head, p);
    var t := ts[i];
    var after := AllocWrites(mem, link, t.addr, n);
    var mid := Pieces(t, n);
    var r := Splice(ts, i, i + 1, mid);
    LinkIsElsewhere(ts, head, p, i);
    assert ts[i + 1..] == r[i + |mid|..];
    NextShift(ts, r, i + 1, i + |mid|);
    assert r[i] == mid[0];
    if |mid| == 2 {
      assert r[i + 1] == mid[1];
    }
    Relaid(mem, after, head, ts, i, i + 1, mid, p);
  }

  lemma LinkIsElsewhere(ts: Tiles, head: nat, p: int, i: nat)
    requires Apart(ts, head) && LastFreeBefore(ts, p, i) && i < |ts|
    ensures LinkWord(ts, head, p) < ts[i].addr || LinkWord(ts, head, p) >= ts[i].addr + ts[i].size
  {
  }

  /** The words `free_inner` writes for the block at `block`, `cur` being the next free one. */
  function FreeWrites(mem: Memory, prev: nat, block: nat, cur: nat): (r: Memory)
    requires block in mem && (cur != 0 ==> cur in mem && cur + NEXT in mem)
    ensures forall a | a in mem :: a in r
  {
    var linked := mem[block + NEXT := cur][prev := block];
    if cur != 0 && block + mem[block] == cur
    then linked[block := mem[block] + mem[cur]][block + NEXT := mem[cur + NEXT]]
    else linked
  }

  lemma ReleaseLaid(mem: Memory, head: nat, ts: Tiles, lo: nat, hi: nat, p: int, i: nat, cur: nat)
    requires Laid(mem, head, ts) && Apart(ts, head) && Tiling(ts, lo, hi) && LastFreeBefore(ts, p, i)
    requires i < |ts| && !ts[i].free && cur == NextFree(ts, i + 1)
    requires cur != 0 ==> cur in mem && cur + NEXT in mem
    ensures var link := LinkWord(ts, head, p);
            ts[i].addr in mem && ts[i].addr + NEXT in mem &&
            var after := FreeWrites(mem, link, ts[i].addr, cur);
            && Laid(after, head, Release(ts, i))
            && OnlyTouches(mem, after, ts, i, if MergesForward(ts, i) then i + 2 else i + 1, link)
  {
    hide Tiling, Laid, Apart, Splice, NextFree;
    LaidEntries(mem, head, ts, i);
    LinkIsElsewhere(ts, head, p, i);
    EndMeetsNext(ts, lo, hi, i);
    if MergesForward(ts, i) {
      LaidEntries(mem, head, ts, i + 1);
      LinkIsElsewhere(ts, head, p, i + 1);
      ReleaseMerged(mem, head, ts, p, i, cur);
    } else {
      CurIsFurther(ts, lo, hi, i);
      ReleaseAlone(mem, head, ts, p, i, cur);
    }
  }

  lemma ReleaseMerged(mem: Memory, head: nat, ts: Tiles, p: int, i: nat, cur: nat)
    requires Laid(mem, head, ts) && Apart(ts, head) && LastFreeBefore(ts, p, i)
    requires i + 1 < |ts| && !ts[i].free && ts[i + 1].free && cur == NextFree(ts, i + 1)
    requires Entry(mem, ts, i) && Entry(mem, ts, i + 1) && Abut(ts[i], ts[i + 1])
    ensures var after := FreeWrites(mem, LinkWord(ts, head, p), ts[i].addr, cur);
            && Laid(after, head, Release(ts, i))
            && OnlyTouches(mem, after, ts, i, i + 2, LinkWord(ts, head, p))
  {
    hide Laid, Apart;
    var link := LinkWord(ts, head, p);
    var after := FreeWrites(mem, link, ts[i].addr, cur);
    LinkIsElsewhere(ts, head, p, i);
    LinkIsElsewhere(ts, head, p, i + 1);
    assert OnlyTouches(mem, after, ts, i, i + 2, link) by { FirstBlocks(ts, head, i); }
    var mid := [Tile(ts[i].addr, ts[i].size + ts[i + 1].size, true)];
    var r := Splice(ts, i, i + 2, mid);
    assert ts[i + 2..] == r[i + 1..];
    NextShift(ts, r, i + 2, i + 1);
    FirstBlocks(ts, head, i);
    Relaid(mem, after, head, ts, i, i + 2, mid, p);
  }

  lemma FirstBlocks(ts: Tiles, head: nat, i: nat)
    requires Apart(ts, head) && i < |ts|
    ensures 0 < ts[i].addr && ts[i].size >= FREE_HDR
  {
  }

  lemma ReleaseAlone(mem: Memory, head: nat, ts: Tiles, p: int, i: nat, cur: nat)
    requires Laid(mem, head, ts) && Apart(ts, head) && LastFreeBefore(ts, p, i)
    requires i < |ts| && !ts[i].free && !MergesForward(ts, i) && cur == NextFree(ts, i + 1)
    requires Entry(mem, ts, i) && (cur == 0 || cur > ts[i].addr + ts[i].size)
    requires cur != 0 ==> cur in mem && cur + NEXT in mem
    ensures var after := FreeWrites(mem, LinkWord(ts, head, p), ts[i].addr, cur);
            && Laid(after, head, Release(ts, i))
            && OnlyTouches(mem, after, ts, i, i + 1, LinkWord(ts, head, p))
  {
    hide Laid, Apart, NextFree, OnlyTouches;
    var link := LinkWord(ts, head, p);
    var after := FreeWrites(mem, link, ts[i].addr, cur);
    AloneTouches(mem, head, ts, p, i, cur);
    FirstBlocks(ts, head, i);
    var mid := [ts[i].(free := true)];
    var r := Splice(ts, i, i + 1, mid);
    assert r[i] == mid[0];
    assert ts[i + 1..] == r[i + 1..];
    NextShift(ts, r, i + 1, i + 1);
    FreeIsNext(r, i);
    Relaid(mem, after, head, ts, i, i + 1, mid, p);
  }

  lemma FreeIsNext(r: Tiles, i: nat)
    requires i < |r| && r[i].free
    ensures NextFree(r, i) == r[i].addr
  {
  }

  lemma AloneTouches(mem: Memory, head: nat, ts: Tiles, p: int, i: nat, cur: nat)
    requires Apart(ts, head) && LastFreeBefore(ts, p, i) && i < |ts|
    requires Entry(mem, ts, i) && (cur == 0 || cur > ts[i].addr + ts[i].size)
    requires cur != 0 ==> cur in mem && cur + NEXT in mem
    ensures var link := LinkWord(ts, head, p);
            var after := FreeWrites(mem, link, ts[i].addr, cur);
            && OnlyTouches(mem, after, ts, i, i + 1, link)
            && after == mem[ts[i].addr + NEXT := cur][link := ts[i].addr]
            && link != ts[i].addr && link != ts[i].addr + NEXT
  {
  }

  lemma LaidEntries(mem: Memory, head: nat, ts: Tiles, k: nat)
    requires Laid(mem, head, ts) && k < |ts|
    ensures Entry(mem, ts, k) && head in mem
  {
  }

  /** With no free tile right behind, the next free block is not where this one ends. */
  lemma CurIsFurther(ts: Tiles, lo: nat, hi: nat, i: nat)
    requires Tiling(ts, lo, hi) && i < |ts| && !MergesForward(ts, i)
    ensures NextFree(ts, i + 1) == 0 || NextFree(ts, i + 1) > ts[i].addr + ts[i].size
  {
    hide Tiling;
    EndMeetsNext(ts, lo, hi, i);
    if i + 1 < |ts| {
      var m := FirstFit(ts, 0, i + 2);
      NextIsFirst(ts, i + 2);
      if m < |ts| {
        EndMeetsNext(ts, lo, hi, i + 1);
        TilesOrdered(ts, lo, hi, i + 1, m);
      }
    }
  }

  lemma {:induction false} NextIsFirst(ts: Tiles, k: nat)
    requires k <= |ts|
    ensures var m := FirstFit(ts, 0, k); NextFree(ts, k) == if m == |ts| then 0 else ts[m].addr
    decreases |ts| - k
  {
    if k < |ts| {
      NextIsFirst(ts, k + 1);
    }
  }

  lemma {:induction false} FirstFitIsUnique(ts: Tiles, n: nat, k: nat, j: nat)
    requires k <= j <= |ts| && (j < |ts| ==> Fits(ts[j], n)) && forall i | k <= i < j :: !Fits(ts[i], n)
    ensures FirstFit(ts, n, k) == j
    decreases j - k
  {
  }

  /** The words of tile `t`, header and payload, read the same in both memories. */
  ghost predicate Untouched(mem: Memory, after: Memory, t: Tile) {
    forall a | t.addr <= a < t.addr + t.size && a in mem :: a in after && after[a] == mem[a]
  }

  lemma NothingTouched(mem: Memory, ts: Tiles)
    ensures forall t | t in Live(ts) :: Untouched(mem, mem, t)
  {
  }

  lemma UntouchedElsewhere(mem: Memory, after: Memory, head: nat, ts: Tiles, j: nat, m: nat, p: int, k: nat)
    requires Apart(ts, head) && LastFreeBefore(ts, p, j) && j < m <= |ts|
    requires OnlyTouches(mem, after, ts, j, m, LinkWord(ts, head, p))
    requires k < |ts| && !ts[k].free && !(j <= k < m)
    ensures Untouched(mem, after, ts[k])
  {
  }

  // ---- The whole heap ----

  /** The managed words `[lo, hi)`, the head outside them, and the layout of a tiling. */
  ghost predicate HeapOk(mem: Memory, head: nat, ts: Tiles, lo: nat, hi: nat) {
    && 0 < lo <= hi <= WORD_RANGE
    && (head < lo || head >= hi)
    && Tiling(ts, lo, hi)
    && Laid(mem, head, ts)
    && (forall a: nat | lo <= a < hi && a % NEXT == 0 :: a in mem)
  }

  /** The words a step of the walk reads or writes are all managed. */
  lemma WordsMapped(mem: Memory, head: nat, ts: Tiles, lo: nat, hi: nat, p: int, i: nat, n: nat)
    requires HeapOk(mem, head, ts, lo, hi)
    requires LastFreeBefore(ts, p, i) && i < |ts| && n % ALIGN == 0
    ensures n + MIN_SPLIT <= ts[i].size ==> ts[i].addr + n in mem && ts[i].addr + n + NEXT in mem
  {
    hide Tiling, Laid;
    EndMeetsNext(ts, lo, hi, i);
    TilesOrdered(ts, lo, hi, i, i + 1);
    AlignedWord(ts[i].addr + n);
  }

  /** A region holding one free block with a null link. */
  lemma OneBlockLaid(mem: Memory, head: nat, block: nat, n: nat)
    requires 0 < block && block + n <= WORD_RANGE && (head < block || head >= block + n)
    requires TileOk(Tile(block, n, true)) && n >= FREE_HDR
    requires forall a: nat | block <= a < block + n && a % NEXT == 0 :: a in mem
    ensures block in mem && block + NEXT in mem
    ensures HeapOk(mem[block := n][block + NEXT := 0][head := block], head, [Tile(block, n, true)], block, block + n)
  {
    AlignedWord(block);
    OneTile(Tile(block, n, true));
    var ts := [Tile(block, n, true)];
    assert NextFree(ts, 1) == 0 && NextFree(ts, 0) == block;
  }

  lemma OkIsApart(mem: Memory, head: nat, ts: Tiles, lo: nat, hi: nat)
    requires HeapOk(mem, head, ts, lo, hi)
    ensures Apart(ts, head)
  {
    TilingIsApart(ts, lo, hi, head);
  }

  lemma AlignedWord(a: nat)
    requires a % ALIGN == 0
    ensures a % NEXT == 0 && (a + NEXT) % NEXT == 0
  {
    DivisionIsUnique(a, NEXT, 2 * (a / ALIGN), 0);
    DivisionIsUnique(a + NEXT, NEXT, 2 * (a / ALIGN) + 1, 0);
  }

  lemma LinkMapped(mem: Memory, head: nat, ts: Tiles, lo: nat, hi: nat, p: int, i: nat)
    requires HeapOk(mem, head, ts, lo, hi) && LastFreeBefore(ts, p, i)
    ensures LinkWord(ts, head, p) in mem && mem[LinkWord(ts, head, p)] == NextFree(ts, p + 1)
    ensures i < |ts| ==> Entry(mem, ts, i) && 0 < ts[i].addr && ts[i].addr + ALLOC_HDR < hi
  {
    hide NextFree;
    LaidLinks(mem, head, ts, p);
    if i < |ts| {
      LaidEntries(mem, head, ts, i);
      EndMeetsNext(ts, lo, hi, i);
      TilesOrdered(ts, lo, hi, i, i + 1);
    }
  }

  lemma LaidLinks(mem: Memory, head: nat, ts: Tiles, p: int)
    requires Laid(mem, head, ts) && -1 <= p < |ts| && (p >= 0 ==> ts[p].free)
    ensures LinkWord(ts, head, p) in mem && mem[LinkWord(ts, head, p)] == NextFree(ts, p + 1)
  {
    if p >= 0 {
      LaidEntries(mem, head, ts, p);
    }
  }

  /** `alloc_inner`'s writes give the carved row's layout and disturb no live tile. */
  lemma AllocWritesCarve(mem: Memory, head: nat, ts: Tiles, lo: nat, hi: nat, p: int, i: nat, n: nat)
    requires HeapOk(mem, head, ts, lo, hi)
    requires LastFreeBefore(ts, p, i) && i < |ts| && Fits(ts[i], n) && n % ALIGN == 0 && n > 0
    requires Entry(mem, ts, i)
    ensures var after := AllocWrites(mem, LinkWord(ts, head, p), ts[i].addr, n);
            && HeapOk(after, head, Carve(ts, i, n), lo, hi)
            && forall t | t in Live(ts) :: Untouched(mem, after, t)
  {
    hide Laid, Tiling, Carve, Apart, OnlyTouches, Untouched, AllocWrites;
    TilingIsApart(ts, lo, hi, head);
    CarveLaid(mem, head, ts, p, i, n);
    CarveKeepsTiling(ts, lo, hi, i, n);
    var after := AllocWrites(mem, LinkWord(ts, head, p), ts[i].addr, n);
    forall t | t in Live(ts)
      ensures Untouched(mem, after, t)
    {
      var k :| 0 <= k < |ts| && ts[k] == t;
      UntouchedElsewhere(mem, after, head, ts, i, i + 1, p, k);
    }
  }

  /** `free_inner`'s writes give the released row's layout and disturb no other live tile. */
  lemma FreeWritesRelease(mem: Memory, head: nat, ts: Tiles, lo: nat, hi: nat, p: int, i: nat, cur: nat)
    requires HeapOk(mem, head, ts, lo, hi)
    requires LastFreeBefore(ts, p, i) && i < |ts| && !ts[i].free && cur == NextFree(ts, i + 1)
    requires ts[i].addr in mem && (cur != 0 ==> cur in mem && cur + NEXT in mem)
    ensures var after := FreeWrites(mem, LinkWord(ts, head, p), ts[i].addr, cur);
            && HeapOk(after, head, Release(ts, i), lo, hi)
            && forall t | t in Live(ts) && t != ts[i] :: Untouched(mem, after, t)
  {
    hide Laid, Tiling, Release, Apart, OnlyTouches, Untouched, FreeWrites, NextFree;
    TilingIsApart(ts, lo, hi, head);
    ReleaseLaid(mem, head, ts, lo, hi, p, i, cur);
    ReleaseKeepsTiling(ts, lo, hi, i);
    var after := FreeWrites(mem, LinkWord(ts, head, p), ts[i].addr, cur);
    forall t | t in Live(ts) && t != ts[i]
      ensures Untouched(mem, after, t)
    {
      var k :| 0 <= k < |ts| && ts[k] == t;
      UntouchedElsewhere(mem, after, head, ts, i, if MergesForward(ts, i) then i + 2 else i + 1, p, k);
    }
  }

  // ---- Walking the list ----

  /** `cur` is the free block at tile `i`, or null at the end, and `prev` the word that
      leads to it from the previous free tile `p`. */
  ghost predicate Walk(mem: Memory, head: nat, ts: Tiles, p: int, i: nat, prev: nat, cur: nat) {
    && LastFreeBefore(ts, p, i)
    && prev == LinkWord(ts, head, p)
    && cur == (if i == |ts| then 0 else ts[i].addr)
    && (i < |ts| ==> ts[i].free)
    && i == FirstFit(ts, 0, p + 1)
  }

  lemma StartWalk(mem: Memory, head: nat, ts: Tiles, lo: nat, hi: nat)
    requires HeapOk(mem, head, ts, lo, hi)
    ensures head in mem && Walk(mem, head, ts, -1, FirstFit(ts, 0, 0), head, mem[head])
  {
    NextIsFirst(ts, 0);
    LinkMapped(mem, head, ts, lo, hi, -1, 0);
  }

  /** What the walk may read at `cur`, and where one more step leads. */
  lemma AtBlock(mem: Memory, head: nat, ts: Tiles, lo: nat, hi: nat, p: int, i: nat, prev: nat, cur: nat)
    requires HeapOk(mem, head, ts, lo, hi) && Walk(mem, head, ts, p, i, prev, cur)
    ensures i <= |ts| && prev in mem
    ensures cur == 0 <==> i == |ts|
    ensures cur != 0 ==>
              && cur in mem && cur + NEXT in mem && prev != cur && cur + ALLOC_HDR < hi
              && ts[i].free && cur == ts[i].addr && mem[cur] == ts[i].size && mem[cur + NEXT] == NextFree(ts, i + 1)
              && Entry(mem, ts, i)
              && Walk(mem, head, ts, i, FirstFit(ts, 0, i + 1), cur + NEXT, mem[cur + NEXT])
  {
    hide HeapOk, Entry;
    LinkMapped(mem, head, ts, lo, hi, p, i);
    if i < |ts| {
      OkIsApart(mem, head, ts, lo, hi);
      LinkIsElsewhere(ts, head, p, i);
      EntryReads(mem, ts, i);
      NextIsFirst(ts, i + 1);
    }
  }

  lemma EntryReads(mem: Memory, ts: Tiles, k: nat)
    requires k < |ts| && Entry(mem, ts, k) && ts[k].free
    ensures ts[k].addr in mem && ts[k].addr + NEXT in mem
    ensures mem[ts[k].addr] == ts[k].size && mem[ts[k].addr + NEXT] == NextFree(ts, k + 1)
  {
  }

  lemma TakeFacts(mem: Memory, head: nat, ts: Tiles, lo: nat, hi: nat, p: int, i: nat, prev: nat, cur: nat, n: nat)
    requires HeapOk(mem, head, ts, lo, hi) && Walk(mem, head, ts, p, i, prev, cur)
    requires i < |ts| && Entry(mem, ts, i) && Fits(ts[i], n) && n % ALIGN == 0 && n > 0
    ensures n + MIN_SPLIT <= ts[i].size ==> cur + n in mem && cur + n + NEXT in mem
    ensures cur in mem && cur + NEXT in mem && mem[cur] == ts[i].size
    ensures var after := AllocWrites(mem, prev, cur, n);
            && HeapOk(after, head, Carve(ts, i, n), lo, hi)
            && forall t | t in Live(ts) :: Untouched(mem, after, t)
  {
    hide HeapOk, Carve, Live, Untouched, AllocWrites;
    WordsMapped(mem, head, ts, lo, hi, p, i, n);
    AllocWritesCarve(mem, head, ts, lo, hi, p, i, n);
  }

  lemma InOrder(mem: Memory, head: nat, ts: Tiles, lo: nat, hi: nat, i: nat, b: nat)
    requires HeapOk(mem, head, ts, lo, hi) && i < |ts| && b < |ts|
    ensures i <= b ==> ts[i].addr + (if i < b then FREE_HDR else 0) <= ts[b].addr
    ensures i > b ==> ts[b].addr + ts[b].size <= ts[i].addr && ts[b].addr < ts[i].addr
  {
    OkIsApart(mem, head, ts, lo, hi);
  }

  /** Where the walk stops for the live tile `b`, its block belongs. */
  lemma PutBackFacts(mem: Memory, head: nat, ts: Tiles, lo: nat, hi: nat, p: int, i: nat, prev: nat, cur: nat, b: nat)
    requires HeapOk(mem, head, ts, lo, hi) && Walk(mem, head, ts, p, i, prev, cur)
    requires b < |ts| && !ts[b].free && p < b && (cur == 0 || cur >= ts[b].addr)
    ensures var block := ts[b].addr;
            && block in mem && block + NEXT in mem && prev in mem
            && prev != block && prev != block + NEXT && block != 0
            && (cur != 0 ==> cur in mem && cur + NEXT in mem && block + NEXT < cur && prev != cur && prev != cur + NEXT)
            && var after := FreeWrites(mem, prev, block, cur);
               && HeapOk(after, head, Release(ts, b), lo, hi)
               && forall t | t in Live(ts) && t != ts[b] :: Untouched(mem, after, t)
  {
    hide HeapOk, Release, Live, Untouched, FreeWrites, Entry, Apart;
    AtBlock(mem, head, ts, lo, hi, p, i, prev, cur);
    if i < |ts| {
      InOrder(mem, head, ts, lo, hi, i, b);
      OkIsApart(mem, head, ts, lo, hi);
      LinkIsElsewhere(ts, head, p, i);
    }
    StopsBehind(mem, head, ts, lo, hi, p, i, prev, cur, b);
    FreeWritesRelease(mem, head, ts, lo, hi, p, b, cur);
  }

  lemma StopsBehind(mem: Memory, head: nat, ts: Tiles, lo: nat, hi: nat, p: int, i: nat, prev: nat, cur: nat, b: nat)
    requires HeapOk(mem, head, ts, lo, hi) && Walk(mem, head, ts, p, i, prev, cur)
    requires b < i && b < |ts| && !ts[b].free && p < b
    ensures LastFreeBefore(ts, p, b) && cur == NextFree(ts, b + 1)
    ensures ts[b].addr in mem && ts[b].addr + NEXT in mem && ts[b].addr > 0 && ts[b].size >= FREE_HDR
    ensures prev < ts[b].addr || prev >= ts[b].addr + ts[b].size
  {
    hide NextFree;
    FirstFitIsUnique(ts, 0, b + 1, i);
    NextIsFirst(ts, b + 1);
    OkIsApart(mem, head, ts, lo, hi);
    LinkIsElsewhere(ts, head, p, b);
    LaidEntries(mem, head, ts, b);
  }

  // ---- Counting ----

  lemma OkConservesBytes(mem: Memory, head: nat, ts: Tiles, lo: nat, hi: nat)
    requires HeapOk(mem, head, ts, lo, hi)
    ensures Bytes(ts, true) + Bytes(ts, false) == hi - lo
  {
    TilingConservesBytes(ts, lo, hi);
  }

  lemma {:induction false} SkipToFree(ts: Tiles, k: nat)
    requires k <= |ts|
    ensures Bytes(ts[k..], true) == Bytes(ts[FirstFit(ts, 0, k)..], true)
    decreases |ts| - k
  {
    if k < |ts| && !ts[k].free {
      SkipToFree(ts, k + 1);
      assert ts[k..][1..] == ts[k + 1..];
    }
  }

  lemma CountOne(ts: Tiles, k: nat)
    requires k < |ts| && ts[k].free
    ensures Bytes(ts[k..], true) == ts[k].size + Bytes(ts[k + 1..], true)
  {
  }

  lemma NoBytesLeft(ts: Tiles)
    ensures Bytes(ts[|ts|..], true) == 0 && ts[0..] == ts
  {
  }

  /** A store into a live block behind its header leaves the heap in order. */
  lemma PayloadStoreIsSafe(mem: Memory, head: nat, ts: Tiles, lo: nat, hi: nat, i: nat, a: nat, w: nat)
    requires HeapOk(mem, head, ts, lo, hi) && i < |ts| && !ts[i].free
    requires ts[i].addr + ALLOC_HDR <= a < ts[i].addr + ts[i].size && a % NEXT == 0
    ensures a in mem && HeapOk(mem[a := w], head, ts, lo, hi)
  {
    hide Tiling, NextFree;
    var after := mem[a := w];
    OkIsApart(mem, head, ts, lo, hi);
    EndMeetsNext(ts, lo, hi, i);
    TilesOrdered(ts, lo, hi, i, i + 1);
    forall k: nat | k < |ts|
      ensures Entry(after, ts, k)
    {
      LaidEntries(mem, head, ts, k);
      if i < k {
        assert ts[i].addr + ts[i].size <= ts[k].addr;
      } else if k < i {
        assert ts[k].addr + ts[k].size <= ts[i].addr;
      }
    }
  }

  /** `AlignedAllocFits`, for the tiles of a heap and without naming the tile. */
  lemma AllocFacts(mem: Memory, head: nat, ts: Tiles, lo: nat, hi: nat, size: nat, k: nat)
    requires HeapOk(mem, head, ts, lo, hi)
    ensures var (r, ptr) := AlignedAlloc(ts, size, k);
            && (ptr == 0 <==> forall t | t in ts :: !Fits(t, Padded(size, k)))
            && (ptr != 0 ==>
                  && ptr % Padding(k) == 0 && Rounds(AllocSpec(ts, Padded(size, k)).1, Padding(k))
                  && exists t | t in r :: !t.free && t.addr + ALLOC_HDR < ptr && ptr + size <= t.addr + t.size)
  {
    hide Laid, Tiling, Padded, Padding, AlignedAlloc, Carve, AllocSpec;
    AlignedAllocFits(ts, lo, hi, size, k);
    var j := FirstFit(ts, Padded(size, k), 0);
    if j < |ts| {
      assert ts[j] in ts;
      var r := AlignedAlloc(ts, size, k).0;
      assert r[j] in r;
      AllocRounds(mem, head, ts, lo, hi, size, k);
    }
  }

  lemma AllocRounds(mem: Memory, head: nat, ts: Tiles, lo: nat, hi: nat, size: nat, k: nat)
    requires HeapOk(mem, head, ts, lo, hi)
    ensures FirstFit(ts, Padded(size, k), 0) < |ts| ==> Rounds(AllocSpec(ts, Padded(size, k)).1, Padding(k))
  {
    hide Laid, Tiling, Padded, Padding, AlignUp, Carve, Pieces, Splice, AllocSpec;
    var j := FirstFit(ts, Padded(size, k), 0);
    AlignedIsFixed(Padded(size, k));
    AllocIs(ts, Padded(size, k), j);
    if j < |ts| {
      EndMeetsNext(ts, lo, hi, j);
      TilesOrdered(ts, lo, hi, j, j + 1);
      AlignedInside(ts[j].addr, size, k);
    }
  }
}
