/** The heap allocator over the memory it manages: headers and links are words of `mem`, and
    the two operations are the pointer-walking loops of the source. */
module Heap {
  import opened Arithmetic
  import opened HeapSpec
  import opened HeapLinks

  class FirstFitHeap {
    /** Word-aligned memory by byte address: the managed region and the list head. */
    var mem: Memory
    /** Where the list head `FREE_LIST` is. */
    const head: nat
    ghost var lo: nat
    ghost var hi: nat
    ghost var tiles: Tiles

    ghost predicate Valid()
      reads this
    {
      HeapOk(mem, head, tiles, lo, hi)
    }

    /** Before `init_heap`: a null list. */
    constructor (memory: Memory, listHead: nat)
      ensures Valid() && tiles == [] && lo == hi && head == listHead
      ensures mem == memory[listHead := 0]
    {
      mem, head := memory[listHead := 0], listHead;
      lo, hi, tiles := if listHead == 1 then 2 else 1, if listHead == 1 then 2 else 1, [];
    }

    method Poke(a: nat, w: nat)
      requires a in mem
      modifies this`mem
      ensures mem == old(mem)[a := w]
    {
      mem := mem[a := w];
    }

    /** `init_heap`: one free block over the region, or nothing if it is too small. */
    method InitHeap(start: nat, size: nat)
      requires Valid() && tiles == [] && start > 0 && Rounds(start, ALIGN)
      requires var s := AlignUp(start, ALIGN);
               && s + size <= WORD_RANGE && (head < s || head >= s + size)
               && forall a: nat | s <= a < s + size && a % NEXT == 0 :: a in mem
      modifies this
      ensures Valid()
      ensures var s, n := AlignUp(start, ALIGN), size - size % ALIGN;
              if n < 24 then mem == old(mem) && tiles == [] && lo == old(lo) && hi == old(hi)
              else lo == s && lo % 8 == 0 && start <= lo < start + 8 && hi == s + n && tiles == [Tile(s, n, true)]
    {
      assert head in mem;
      hide HeapOk, AlignUp;
      var block := AlignUp(start, ALIGN);
      var aligned := size - size % ALIGN;
      if aligned < FREE_HDR + 16 {
        return;
      }
      HeapStart(start);
      WholeSize(size);
      OneBlockLaid(mem, head, block, aligned);
      Poke(block, aligned);
      Poke(block + NEXT, 0);
      Poke(head, block);
      lo, hi, tiles := block, block + aligned, [Tile(block, aligned, true)];
    }

    /** The block at `cur` leaves the list, or its first `n` bytes do. */
    method TakeBlock(n: nat, prev: nat, cur: nat)
      requires cur in mem && cur + NEXT in mem && prev in mem && prev != cur
      requires mem[cur] >= n >= FREE_HDR
      requires mem[cur] - n >= MIN_SPLIT ==> cur + n in mem && cur + n + NEXT in mem
      modifies this`mem
      ensures mem == AllocWrites(old(mem), prev, cur, n)
    {
      var remaining := mem[cur] - n;
      if remaining >= MIN_SPLIT {
        var split := cur + n;
        Poke(split, remaining);
        Poke(split + NEXT, mem[cur + NEXT]);
        Poke(prev, split);
      } else {
        Poke(prev, mem[cur + NEXT]);
      }
      Poke(cur, if remaining >= MIN_SPLIT then n else mem[cur]);
    }

    /** `alloc_inner`: the first block large enough, in address order; no live block's words
        change. */
    method AllocInner(needed: nat) returns (ptr: nat)
      requires Valid() && needed > 0 && Rounds(needed, ALIGN)
      modifies this`mem, this`tiles
      ensures Valid()
      ensures (tiles, ptr) == AllocSpec(old(tiles), needed)
      ensures ptr != 0 ==> Bytes(tiles, true) + needed <= Bytes(old(tiles), true) < Bytes(tiles, true) + needed + 24
      ensures ptr == 0 ==> tiles == old(tiles)
      ensures forall t | t in Live(old(tiles)) :: Untouched(old(mem), mem, t)
    {
      hide HeapOk, AllocWrites, Carve, Live, Untouched, NextFree, Walk, Entry, AllocSpec, AlignUp, FirstFit, Bytes;
      AllocTakesLittle(tiles, needed);
      var n := AlignUp(needed, ALIGN);
      assert n >= FREE_HDR;
      ghost var ts := tiles;
      ghost var p: int := -1;
      ghost var i := FirstFit(ts, 0, 0);
      StartWalk(mem, head, ts, lo, hi);
      var prev: nat := head;
      var cur: nat := mem[head];
      while cur != 0
        invariant mem == old(mem) && tiles == ts && i <= |ts|
        invariant Walk(mem, head, ts, p, i, prev, cur)
        invariant forall k | 0 <= k < i :: !Fits(ts[k], n)
        decreases |ts| - i
      {
        AtBlock(mem, head, ts, lo, hi, p, i, prev, cur);
        if mem[cur] >= n {
          TakeFacts(mem, head, ts, lo, hi, p, i, prev, cur, n);
          TakeBlock(n, prev, cur);
          tiles := Carve(ts, i, n);
          FirstFitIsUnique(ts, n, 0, i);
          AllocIs(ts, needed, i);
          return cur + ALLOC_HDR;
        }
        prev := cur + NEXT;
        cur := mem[cur + NEXT];
        p := i;
        i := FirstFit(ts, 0, p + 1);
      }
      AtBlock(mem, head, ts, lo, hi, p, i, prev, cur);
      FirstFitIsUnique(ts, n, 0, i);
      AllocIs(ts, needed, i);
      NothingTouched(mem, ts);
      return 0;
    }

    /** `block` joins the list between the word `prev` and the block `cur`, and swallows
        `cur` if that starts where it ends. The merge with the block in front never happens:
        the word `prev` has just been made to lead to `block` itself. */
    method LinkBlock(prev: nat, block: nat, cur: nat)
      requires block in mem && block + NEXT in mem && prev in mem
      requires prev != block && prev != block + NEXT && block != 0
      requires cur != 0 ==> cur in mem && cur + NEXT in mem && block + NEXT < cur && prev != cur && prev != cur + NEXT
      modifies this`mem
      ensures mem == FreeWrites(old(mem), prev, block, cur)
    {
      Poke(block + NEXT, cur);
      Poke(prev, block);
      if cur != 0 && block + mem[block] == cur {
        Poke(block, mem[block] + mem[cur]);
        Poke(block + NEXT, mem[cur + NEXT]);
      }
      var prevBlock := mem[prev];
      if prevBlock != 0 && prevBlock != block {
        assert false;
      }
    }

    /** `free_inner`: the block goes back into the list at its place in address order; no
        other live block's words change. */
    method FreeInner(ptr: nat)
      requires Valid() && (ptr == 0 || TileOf(tiles, ptr, 0) < |tiles|)
      modifies this`mem, this`tiles
      ensures Valid()
      ensures tiles == FreeSpec(old(tiles), ptr)
      ensures forall t | t in Live(old(tiles)) && t.addr + ALLOC_HDR != ptr :: Untouched(old(mem), mem, t)
    {
      hide HeapOk, FreeWrites, Release, Live, Untouched, NextFree, Walk;
      ghost var ts := tiles;
      if ptr == 0 {
        NothingTouched(mem, ts);
        return;
      }
      ghost var b := TileOf(ts, ptr, 0);
      var block := ptr - ALLOC_HDR;
      ghost var p: int := -1;
      ghost var i := FirstFit(ts, 0, 0);
      StartWalk(mem, head, ts, lo, hi);
      var prev: nat := head;
      var cur: nat := mem[head];
      while cur != 0 && cur < block
        invariant mem == old(mem) && tiles == ts && i <= |ts| && p < b
        invariant Walk(mem, head, ts, p, i, prev, cur)
        decreases |ts| - i
      {
        AtBlock(mem, head, ts, lo, hi, p, i, prev, cur);
        InOrder(mem, head, ts, lo, hi, i, b);
        prev := cur + NEXT;
        cur := mem[cur + NEXT];
        p := i;
        i := FirstFit(ts, 0, p + 1);
      }
      PutBackFacts(mem, head, ts, lo, hi, p, i, prev, cur, b);
      LinkBlock(prev, block, cur);
      tiles := Release(ts, b);
    }

    /** `free_bytes`: the sum over the list is the bytes in free tiles. */
    method FreeBytes() returns (total: nat)
      requires Valid()
      ensures total == Bytes(tiles, true)
      ensures total + Bytes(tiles, false) == hi - lo
    {
      hide HeapOk, NextFree, Walk, Bytes;
      total := 0;
      ghost var p: int := -1;
      ghost var i := FirstFit(tiles, 0, 0);
      StartWalk(mem, head, tiles, lo, hi);
      ghost var prev: nat := head;
      var cur: nat := mem[head];
      OkConservesBytes(mem, head, tiles, lo, hi);
      SkipToFree(tiles, 0);
      while cur != 0
        invariant i <= |tiles| && Walk(mem, head, tiles, p, i, prev, cur)
        invariant total + Bytes(tiles[i..], true) == Bytes(tiles, true)
        decreases |tiles| - i
      {
        AtBlock(mem, head, tiles, lo, hi, p, i, prev, cur);
        total := total + mem[cur];
        SkipToFree(tiles, i + 1);
        CountOne(tiles, i);
        prev := cur + NEXT;
        cur := mem[cur + NEXT];
        p := i;
        i := FirstFit(tiles, 0, p + 1);
      }
      AtBlock(mem, head, tiles, lo, hi, p, i, prev, cur);
      NoBytesLeft(tiles);
    }

    /** A client's store into the block its pointer came from. */
    method Store(ptr: nat, a: nat, w: nat)
      requires Valid() && TileOf(tiles, ptr, 0) < |tiles| && a % NEXT == 0
      requires ptr <= a < ptr - ALLOC_HDR + tiles[TileOf(tiles, ptr, 0)].size
      modifies this`mem
      ensures Valid() && mem == old(mem)[a := w]
    {
      hide HeapOk;
      PayloadStoreIsSafe(mem, head, tiles, lo, hi, TileOf(tiles, ptr, 0), a, w);
      Poke(a, w);
    }

    /** `Allocator::alloc` for a `Layout` of `size` bytes aligned to `2^k`. */
    method Alloc(size: nat, k: nat) returns (ptr: nat)
      requires Valid() && LayoutOk(size, k)
      modifies this`mem, this`tiles
      ensures Valid()
      ensures (tiles, ptr) == AlignedAlloc(old(tiles), size, k)
      ensures forall t | t in Live(old(tiles)) :: Untouched(old(mem), mem, t)
      ensures ptr == 0 <==> forall t | t in old(tiles) :: !Fits(t, Padded(size, k))
      ensures ptr != 0 ==>
                && ptr % Padding(k) == 0 && Pow2(k) > 0 && ptr % Pow2(k) == 0
                && exists t | t in tiles ::
                     !t.free && t.addr + ALLOC_HDR < ptr && ptr + size <= t.addr + t.size
    {
      hide HeapOk, Untouched, Live, Padding, Padded, LayoutOk, AllocSpec, Carve;
      PaddingNeverWraps(size, k);
      AllocFacts(mem, head, tiles, lo, hi, size, k);
      ptr := AllocInner(Padded(size, k));
      if ptr != 0 {
        assert Rounds(ptr, Padding(k));
        ptr := AlignUp(ptr, Padding(k));
        PaddingAligns(ptr, k);
      }
    }
  }

  /** Where the heap begins, in numbers. */
  lemma HeapStart(start: nat)
    ensures AlignUp(start, ALIGN) % 8 == 0 && start <= AlignUp(start, ALIGN) < start + 8
  {
    hide AlignUp;
  }

  lemma WholeSize(size: nat)
    ensures (size - size % ALIGN) % ALIGN == 0
  {
    DivisionIsUnique(size - size % ALIGN, ALIGN, size / ALIGN, 0);
  }
}
