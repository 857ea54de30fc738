/** The allocator code of furi/core/memmgr_heap.c: headers rewritten in place, a singly linked,
    address-ordered free list threaded through them.  Every method is proved to compute the
    function of module HeapBlocks that specifies it. */
module MemmgrHeap {
  import opened HeapBlocks

  const NULL: int := 0
  const BLOCK_ALLOCATED_BITMASK: int := 0x8000_0000

  /** BlockLink_t with its link decoded.  The stored link is xored with the heap canary; by
      CanaryIsTransparent reading it back, and comparing two stored links, works on plain addresses. */
  datatype BlockLink = BlockLink(next: int, size: int)

  /** Memory by words of eight bytes, at the aligned addresses. */
  type Memory = map<int, BlockLink>

  function Protect(link: bv32, canary: bv32): bv32 { link ^ canary }

  lemma XorTwice(p: bv32, canary: bv32)
    ensures Protect(Protect(p, canary), canary) == p
  {
  }

  lemma CanaryIsTransparent(p: bv32, q: bv32, canary: bv32)
    ensures Protect(Protect(p, canary), canary) == p
    ensures Protect(p, canary) == Protect(q, canary) <==> p == q
  {
    hide Protect;
    XorTwice(p, canary);
    XorTwice(q, canary);
  }

  // ---------------------------------------------------------------- what the headers say

  /** Address of the first free block of bs, `end` when it has none. */
  ghost function NextFree(bs: seq<Block>, end: int): int {
    if bs == [] then end
    else if !bs[0].owned then bs[0].start
    else NextFree(bs[1..], end)
  }

  /** Address of the last free block of bs, xStart when it has none. */
  ghost function PrevFree(bs: seq<Block>, xStart: int): int {
    if bs == [] then xStart
    else if !bs[|bs| - 1].owned then bs[|bs| - 1].start
    else PrevFree(bs[..|bs| - 1], xStart)
  }

  ghost predicate Header(mem: Memory, b: Block, next: int) {
    b.start in mem
    && mem[b.start] == if b.owned then BlockLink(NULL, b.size + BLOCK_ALLOCATED_BITMASK) else BlockLink(next, b.size)
  }

  /** The blocks have their headers, free ones linked in address order, the last one to `end`. */
  ghost predicate Headers(mem: Memory, bs: seq<Block>, end: int) {
    bs == [] || (Header(mem, bs[0], NextFree(bs[1..], end)) && Headers(mem, bs[1..], end))
  }

  /** The list from xStart through the free blocks of bs to `end`. */
  ghost predicate Linked(mem: Memory, xStart: int, bs: seq<Block>, end: int) {
    && xStart in mem && mem[xStart] == BlockLink(NextFree(bs, end), 0)
    && Headers(mem, bs, end)
  }

  ghost predicate HeapMemory(mem: Memory, xStart: int, bs: seq<Block>, pxEnd: int) {
    && Linked(mem, xStart, bs, pxEnd)
    && pxEnd in mem && mem[pxEnd] == BlockLink(NULL, 0)
  }

  /** The static list head at xStart lies outside the region. */
  ghost predicate Outside(xStart: int, lo: int, hi: int) {
    xStart < lo || hi < xStart
  }

  lemma {:induction false} HeadersConcat(mem: Memory, a: seq<Block>, b: seq<Block>, end: int)
    ensures NextFree(a + b, end) == NextFree(a, NextFree(b, end))
    ensures Headers(mem, a + b, end) <==> Headers(mem, a, NextFree(b, end)) && Headers(mem, b, end)
  {
    if a == [] {
      assert a + b == b;
    } else {
      HeadersConcat(mem, a[1..], b, end);
      assert (a + b)[1..] == a[1..] + b;
    }
  }

  lemma {:induction false} HeadersFrame(mem: Memory, mem': Memory, bs: seq<Block>, end: int)
    requires Headers(mem, bs, end)
    requires forall b :: b in bs && b.start in mem ==> b.start in mem' && mem'[b.start] == mem[b.start]
    ensures Headers(mem', bs, end)
  {
    if bs != [] {
      assert bs[0] in bs && forall b :: b in bs[1..] ==> b in bs;
      HeadersFrame(mem, mem', bs[1..], end);
    }
  }

  ghost function Init(bs: seq<Block>): seq<Block>
    requires bs != []
  {
    bs[..|bs| - 1]
  }

  lemma InitLast(mem: Memory, xStart: int, bs: seq<Block>, lo: int, hi: int, end: int)
    requires bs != [] && Tiles(bs, lo, hi) && Linked(mem, xStart, bs, end)
    ensures var x := bs[|bs| - 1];
            && Tiles(Init(bs), lo, x.start) && x.start + x.size == hi && lo <= x.start < hi
            && Linked(mem, xStart, Init(bs), if x.owned then end else x.start)
            && Header(mem, x, end)
  {
    var x := bs[|bs| - 1];
    assert bs == Init(bs) + [x];
    HeadersConcat(mem, Init(bs), [x], end);
    assert [x][1..] == [];
    var e := SplitAt(bs, |bs| - 1, lo, hi);
    assert bs[|bs| - 1 + 1..] == [];
  }

  /** The link stored at the last free block is `end`; that block is inside the region, ends at hi
      exactly when it is the last block, and before hi otherwise. */
  lemma {:induction false} LastLink(mem: Memory, xStart: int, bs: seq<Block>, lo: int, hi: int, end: int)
    requires Tiles(bs, lo, hi) && Linked(mem, xStart, bs, end) && Outside(xStart, lo, hi)
    ensures var prev := PrevFree(bs, xStart);
            && prev in mem && mem[prev].next == end
            && (prev == xStart ==> mem[prev].size == 0)
            && (prev != xStart ==> lo <= prev < prev + mem[prev].size <= hi)
            && (prev + mem[prev].size == hi <==> bs != [] && !bs[|bs| - 1].owned)
    decreases |bs|
  {
    if bs != [] {
      InitLast(mem, xStart, bs, lo, hi, end);
      var x := bs[|bs| - 1];
      if x.owned { LastLink(mem, xStart, Init(bs), lo, x.start, end); }
    }
  }

  /** Writing the link of the last free block redirects the list to end'. */
  lemma {:induction false} Relink(mem: Memory, mem': Memory, xStart: int, bs: seq<Block>,
                                  lo: int, hi: int, end: int, end': int)
    requires Tiles(bs, lo, hi) && Linked(mem, xStart, bs, end) && Outside(xStart, lo, hi)
    requires PrevFree(bs, xStart) in mem'
    requires mem'[PrevFree(bs, xStart)].next == end'
    requires PrevFree(bs, xStart) in mem ==> mem'[PrevFree(bs, xStart)].size == mem[PrevFree(bs, xStart)].size
    requires forall a :: (a == xStart || lo <= a < hi) && a != PrevFree(bs, xStart) && a in mem ==>
               a in mem' && mem'[a] == mem[a]
    ensures Linked(mem', xStart, bs, end')
    decreases |bs|
  {
    if bs != [] {
      var x := bs[|bs| - 1];
      assert bs == Init(bs) + [x];
      assert [x][1..] == [];
      InitLast(mem, xStart, bs, lo, hi, end);
      HeadersConcat(mem', Init(bs), [x], end');
      TilesBound(Init(bs), lo, x.start);
      if x.owned {
        LastLink(mem, xStart, Init(bs), lo, x.start, end);
        Relink(mem, mem', xStart, Init(bs), lo, x.start, end, end');
      } else {
        HeadersFrame(mem, mem', Init(bs), x.start);
      }
    }
  }

  /** The list of a + b is the list of a continued at b. */
  lemma LinkedSplit(mem: Memory, xStart: int, a: seq<Block>, b: seq<Block>, end: int)
    ensures Linked(mem, xStart, a + b, end) <==> Linked(mem, xStart, a, NextFree(b, end)) && Headers(mem, b, end)
  {
    HeadersConcat(mem, a, b, end);
  }

  /** The free block the link points at: the owned blocks before it and its index. */
  lemma {:induction false} FindNext(bs: seq<Block>, lo: int, hi: int, end: int) returns (k: nat)
    requires Tiles(bs, lo, hi) && hi <= end
    ensures k <= |bs| && (forall j :: 0 <= j < k ==> bs[j].owned)
    ensures k < |bs| ==> !bs[k].owned && bs[k].start == NextFree(bs, end) && lo <= bs[k].start < hi
    ensures k == |bs| ==> NextFree(bs, end) == end
  {
    if bs == [] || !bs[0].owned {
      k := 0;
      TilesBound(bs, lo, hi);
    } else {
      TilesBound(bs[1..], lo + bs[0].size, hi);
      var k' := FindNext(bs[1..], lo + bs[0].size, hi, end);
      k := k' + 1;
      assert forall j :: 0 < j < |bs| ==> bs[j] == bs[1..][j - 1];
    }
  }

  /** The writes of prvHeapInit. */
  lemma InitialMemory(mem: Memory, xStart: int, lo: int, hi: int)
    requires xStart in mem && mem[xStart] == BlockLink(lo, 0)
    requires lo in mem && mem[lo] == BlockLink(hi, hi - lo)
    requires hi in mem && mem[hi] == BlockLink(NULL, 0)
    ensures HeapMemory(mem, xStart, Initial(lo, hi), hi) && FreeBytes(Initial(lo, hi)) == hi - lo
  {
    assert Initial(lo, hi)[1..] == [];
  }

  lemma {:induction false} OwnedTail(a: seq<Block>, b: seq<Block>, xStart: int)
    requires forall j :: 0 <= j < |b| ==> b[j].owned
    ensures PrevFree(a + b, xStart) == PrevFree(a, xStart)
    decreases |b|
  {
    if b == [] {
      assert a + b == a;
    } else {
      assert (a + b)[..|a + b| - 1] == a + b[..|b| - 1];
      OwnedTail(a, b[..|b| - 1], xStart);
    }
  }

  lemma OwnedBetween(bs: seq<Block>, j: nat, i: nat, xStart: int)
    requires j <= i <= |bs| && forall n :: j <= n < i ==> bs[n].owned
    ensures PrevFree(bs[..i], xStart) == PrevFree(bs[..j], xStart)
  {
    assert bs[..i] == bs[..j] + bs[j..i];
    OwnedTail(bs[..j], bs[j..i], xStart);
  }

  lemma FreeLast(a: seq<Block>, x: Block, xStart: int)
    requires !x.owned
    ensures PrevFree(a + [x], xStart) == x.start
  {
    assert (a + [x])[|a + [x]| - 1] == x;
  }

  /** The list through p, a block m and q, once the three pieces are in place. */
  lemma Assemble(mem: Memory, xStart: int, p: seq<Block>, m: seq<Block>, q: seq<Block>, pxEnd: int)
    requires Linked(mem, xStart, p, NextFree(m, NextFree(q, pxEnd)))
    requires Headers(mem, m, NextFree(q, pxEnd)) && Headers(mem, q, pxEnd)
    requires pxEnd in mem && mem[pxEnd] == BlockLink(NULL, 0)
    ensures HeapMemory(mem, xStart, p + m + q, pxEnd)
  {
    HeadersConcat(mem, m, q, pxEnd);
    LinkedSplit(mem, xStart, p, m + q, pxEnd);
    assert p + (m + q) == p + m + q;
  }

  lemma Disassemble(mem: Memory, xStart: int, bs: seq<Block>, i: nat, pxEnd: int)
    requires i < |bs| && HeapMemory(mem, xStart, bs, pxEnd)
    ensures var n := NextFree(bs[i + 1..], pxEnd);
            && Linked(mem, xStart, bs[..i], if bs[i].owned then n else bs[i].start)
            && Header(mem, bs[i], n) && Headers(mem, bs[i + 1..], pxEnd)
  {
    assert bs == bs[..i] + bs[i..];
    assert bs[i..][1..] == bs[i + 1..];
    LinkedSplit(mem, xStart, bs[..i], bs[i..], pxEnd);
  }

  /** A walk over the free list stands at address a: the free block of index i or the end marker. */
  ghost predicate StandsAt(mem: Memory, bs: seq<Block>, hi: int, i: nat, a: int) {
    && i <= |bs| && a in mem
    && (i == |bs| ==> a == hi && mem[a] == BlockLink(NULL, 0))
    && (i < |bs| ==>
          && !bs[i].owned && a == bs[i].start && mem[a].next != NULL
          && mem[a] == BlockLink(NextFree(bs[i + 1..], hi), bs[i].size))
  }

  /** One step of a walk over the free list that has passed the blocks before index j. */
  lemma NextBlock(mem: Memory, xStart: int, bs: seq<Block>, lo: int, hi: int, j: nat) returns (i: nat)
    requires Tiles(bs, lo, hi) && 0 < lo && HeapMemory(mem, xStart, bs, hi) && j <= |bs|
    ensures j <= i <= |bs| && forall k :: j <= k < i ==> bs[k].owned
    ensures StandsAt(mem, bs, hi, i, NextFree(bs[j..], hi)) && NextFree(bs[j..], hi) > 0
    ensures i < |bs| ==> bs[i].start < hi
    ensures PrevFree(bs[..i], xStart) == PrevFree(bs[..j], xStart)
    ensures i < |bs| ==> PrevFree(bs[..i + 1], xStart) == bs[i].start
  {
    assert bs == bs[..j] + bs[j..];
    var mid := TilesSplit(bs[..j], bs[j..], lo, hi);
    var k := FindNext(bs[j..], mid, hi, hi);
    i := j + k;
    assert forall k' :: j <= k' < i ==> bs[k'] == bs[j..][k' - j];
    OwnedBetween(bs, j, i, xStart);
    if i < |bs| {
      Disassemble(mem, xStart, bs, i, hi);
      assert bs[..i + 1] == bs[..i] + [bs[i]];
      FreeLast(bs[..i], bs[i], xStart);
      var end := SplitAt(bs, i, lo, hi);
      var k2 := FindNext(bs[i + 1..], end, hi, hi);
    }
  }

  /** A link points below an owned block exactly when its target comes before that block. */
  lemma LinkBelow(mem: Memory, bs: seq<Block>, lo: int, hi: int, i: nat, k: nat, a: int)
    requires Tiles(bs, lo, hi) && StandsAt(mem, bs, hi, k, a) && i < |bs| && bs[i].owned
    ensures a < bs[i].start <==> k < i
  {
    hide NextFree;
    if k < i { StartsOrdered(bs, lo, hi, k, i); }
    if i < k < |bs| { StartsOrdered(bs, lo, hi, i, k); }
    StartsInside(bs, lo, hi, i);
  }

  /** What an allocation of `wanted` bytes writes: the headers of the block of `size` bytes, of its
      predecessor in the free list and, when it is split, of the remainder. */
  ghost predicate TakeEffect(mem: Memory, mem': Memory, prev: int, block: int, size: int, wanted: int) {
    var split := size - wanted > MINIMUM_BLOCK_SIZE;
    && block in mem && prev in mem && block in mem' && prev in mem'
    && mem'[block] == BlockLink(NULL, (if split then wanted else size) + BLOCK_ALLOCATED_BITMASK)
    && mem'[prev] == BlockLink(if split then block + wanted else mem[block].next, mem[prev].size)
    && (split ==> block + wanted in mem'
                  && mem'[block + wanted] == BlockLink(mem[block].next, size - wanted))
    && forall a :: a in mem && a != prev && (a < block || block + size <= a) ==> a in mem' && mem'[a] == mem[a]
  }

  /** What the walk delivers to the header writes. */
  lemma BeforeTake(mem: Memory, xStart: int, bs: seq<Block>, lo: int, hi: int, i: nat)
    requires Tiles(bs, lo, hi) && 0 < lo && Outside(xStart, lo, hi) && HeapMemory(mem, xStart, bs, hi)
    requires i < |bs| && !bs[i].owned
    ensures var b, prev := bs[i], PrevFree(bs[..i], xStart);
            && b.start in mem && mem[b.start].size == b.size && prev in mem
            && (prev < b.start || b.start + b.size <= prev)
  {
    Disassemble(mem, xStart, bs, i, hi);
    var end := SplitAt(bs, i, lo, hi);
    LastLink(mem, xStart, bs[..i], lo, bs[i].start, bs[i].start);
  }

  /** The three header writes of an allocation give the headers of the tiling with block i carved. */
  lemma Taken(mem: Memory, mem': Memory, xStart: int, bs: seq<Block>, lo: int, hi: int, i: nat, wanted: int)
    requires Tiles(bs, lo, hi) && 0 < lo && Outside(xStart, lo, hi) && HeapMemory(mem, xStart, bs, hi)
    requires i < |bs| && !bs[i].owned && 0 < wanted <= bs[i].size
    requires TakeEffect(mem, mem', PrevFree(bs[..i], xStart), bs[i].start, bs[i].size, wanted)
    ensures HeapMemory(mem', xStart, bs[..i] + Carve(bs[i], wanted) + bs[i + 1..], hi)
  {
    var b, carved, p, q := bs[i], Carve(bs[i], wanted), bs[..i], bs[i + 1..];
    var end := SplitAt(bs, i, lo, hi);
    var n := NextFree(q, hi);
    Disassemble(mem, xStart, bs, i, hi);
    LastLink(mem, xStart, p, lo, b.start, b.start);
    TilesBound(p, lo, b.start);
    TilesBound(q, end, hi);
    HeadersFrame(mem, mem', q, hi);
    if |carved| == 2 {
      assert carved[1..] == [carved[1]] && carved[1..][1..] == [];
      assert NextFree(carved[1..], n) == carved[1].start;
    } else {
      assert carved[1..] == [] && NextFree([], n) == n;
    }
    assert NextFree(carved, n) == NextFree(carved[1..], n);
    Relink(mem, mem', xStart, p, lo, b.start, b.start, NextFree(carved, n));
    Assemble(mem', xStart, p, carved, q, hi);
  }

  /** What prvInsertBlockIntoFreeList writes, given the insertion point `it`: the merged block's
      header and, unless the block joined the one at `it`, the link at `it`. */
  ghost predicate InsertEffect(mem: Memory, mem': Memory, it: int, block: int, pxEnd: int)
    requires it in mem && block in mem && mem[it].next in mem
  {
    var n := mem[it].next;
    var left := it + mem[it].size == block;
    var m := if left then it else block;
    var size := if left then mem[it].size + mem[block].size else mem[block].size;
    var right := m + size == n && n != pxEnd;
    && m in mem'
    && mem'[m] == (if right then BlockLink(mem[n].next, size + mem[n].size) else BlockLink(n, size))
    && (!left ==> it in mem' && mem'[it] == BlockLink(block, mem[it].size))
    && forall a :: a in mem && a != it && a != block ==> a in mem' && mem'[a] == mem[a]
  }

  /** The neighbours prvInsertBlockIntoFreeList compares with: the links meet the block exactly
      when the blocks beside it in the tiling are free. */
  lemma BeforeInsert(mem: Memory, xStart: int, bs: seq<Block>, lo: int, hi: int, i: nat)
    requires Tiles(bs, lo, hi) && 0 < lo && Outside(xStart, lo, hi) && HeapMemory(mem, xStart, bs, hi)
    requires i < |bs| && bs[i].owned
    ensures var b, it, n := bs[i], PrevFree(bs[..i], xStart), NextFree(bs[i + 1..], hi);
            && b.start in mem && it in mem && mem[it].next == n && n in mem
            && it != b.start && b.start < n && it != n && mem[it].size >= 0
            && (it + mem[it].size == b.start <==> i > 0 && !bs[i - 1].owned)
            && (i > 0 && !bs[i - 1].owned ==> it == bs[i - 1].start && mem[it].size == bs[i - 1].size)
            && (b.start + b.size == n && n != hi <==> i + 1 < |bs| && !bs[i + 1].owned)
            && (i + 1 < |bs| && !bs[i + 1].owned ==>
                  n == bs[i + 1].start && mem[n] == BlockLink(NextFree(bs[i + 2..], hi), bs[i + 1].size))
  {
    BeforeLeft(mem, xStart, bs, lo, hi, i);
    BeforeRight(mem, xStart, bs, lo, hi, i);
    hide Tiles, HeapMemory, PrevFree, NextFree;
  }

  lemma BeforeLeft(mem: Memory, xStart: int, bs: seq<Block>, lo: int, hi: int, i: nat)
    requires Tiles(bs, lo, hi) && Outside(xStart, lo, hi) && HeapMemory(mem, xStart, bs, hi)
    requires i < |bs| && bs[i].owned
    ensures var b, it, n := bs[i], PrevFree(bs[..i], xStart), NextFree(bs[i + 1..], hi);
            && it in mem && mem[it].next == n && (it < b.start || hi < it) && mem[it].size >= 0
            && (it + mem[it].size == b.start <==> i > 0 && !bs[i - 1].owned)
            && (i > 0 && !bs[i - 1].owned ==> it == bs[i - 1].start && mem[it].size == bs[i - 1].size)
  {
    var end := SplitAt(bs, i, lo, hi);
    var n := NextFree(bs[i + 1..], hi);
    Disassemble(mem, xStart, bs, i, hi);
    LastLink(mem, xStart, bs[..i], lo, bs[i].start, n);
    if i > 0 && !bs[i - 1].owned {
      assert bs[..i] == bs[..i - 1] + [bs[i - 1]];
      FreeLast(bs[..i - 1], bs[i - 1], xStart);
      Disassemble(mem, xStart, bs, i - 1, hi);
    }
  }

  lemma BeforeRight(mem: Memory, xStart: int, bs: seq<Block>, lo: int, hi: int, i: nat)
    requires Tiles(bs, lo, hi) && 0 < lo && HeapMemory(mem, xStart, bs, hi)
    requires i < |bs| && bs[i].owned
    ensures var b, n := bs[i], NextFree(bs[i + 1..], hi);
            && b.start in mem && n in mem && b.start < n <= hi
            && (b.start + b.size == n && n != hi <==> i + 1 < |bs| && !bs[i + 1].owned)
            && (i + 1 < |bs| && !bs[i + 1].owned ==>
                  n == bs[i + 1].start && mem[n] == BlockLink(NextFree(bs[i + 2..], hi), bs[i + 1].size))
  {
    var end := SplitAt(bs, i, lo, hi);
    Disassemble(mem, xStart, bs, i, hi);
    var k := NextBlock(mem, xStart, bs, lo, hi, i + 1);
    if k < |bs| {
      TilesOrdered(bs, lo, hi, i, k);
      var e := SplitAt(bs, k, lo, hi);
      if k > i + 1 {
        TilesOrdered(bs, lo, hi, i, i + 1);
        TilesOrdered(bs, lo, hi, i + 1, k);
      }
    }
  }

  /** The state prvInsertBlockIntoFreeList starts from and the one it leaves. */
  ghost predicate Inserting(mem: Memory, mem': Memory, xStart: int, bs: seq<Block>, lo: int, hi: int, i: nat) {
    && Tiles(bs, lo, hi) && 0 < lo && Outside(xStart, lo, hi) && HeapMemory(mem, xStart, bs, hi)
    && i < |bs| && bs[i].owned
    && var mem1, it := mem[bs[i].start := BlockLink(NULL, bs[i].size)], PrevFree(bs[..i], xStart);
    it in mem1 && mem1[it].next in mem1 && InsertEffect(mem1, mem', it, bs[i].start, hi)
  }

  lemma InsertedBefore(mem: Memory, mem': Memory, xStart: int, bs: seq<Block>, lo: int, hi: int, i: nat)
    requires Inserting(mem, mem', xStart, bs, lo, hi, i)
    ensures var l := if i > 0 && !bs[i - 1].owned then i - 1 else i;
            Linked(mem', xStart, bs[..l], bs[l].start)
  {
    BeforeInsert(mem, xStart, bs, lo, hi, i);
    var l := if i > 0 && !bs[i - 1].owned then i - 1 else i;
    var p, start := bs[..l], bs[l].start;
    Disassemble(mem, xStart, bs, l, hi);
    var end := SplitAt(bs, l, lo, hi);
    TilesBound(p, lo, start);
    if l < i {
      TilesOrdered(bs, lo, hi, l, i);
      HeadersFrame(mem, mem', p, start);
    } else {
      Relink(mem, mem', xStart, p, lo, start, NextFree(bs[i + 1..], hi), start);
    }
  }

  lemma InsertedAfter(mem: Memory, mem': Memory, xStart: int, bs: seq<Block>, lo: int, hi: int, i: nat)
    requires Inserting(mem, mem', xStart, bs, lo, hi, i)
    ensures var r := if i + 1 < |bs| && !bs[i + 1].owned then i + 1 else i;
            Headers(mem', bs[r + 1..], hi) && hi in mem' && mem'[hi] == BlockLink(NULL, 0)
  {
    BeforeInsert(mem, xStart, bs, lo, hi, i);
    var r := if i + 1 < |bs| && !bs[i + 1].owned then i + 1 else i;
    Disassemble(mem, xStart, bs, r, hi);
    var end := SplitAt(bs, r, lo, hi);
    var endI := SplitAt(bs, i, lo, hi);
    if i < r { TilesOrdered(bs, lo, hi, i, r); }
    TilesBound(bs[r + 1..], end, hi);
    LastLink(mem, xStart, bs[..i], lo, bs[i].start, NextFree(bs[i + 1..], hi)) by {
      Disassemble(mem, xStart, bs, i, hi);
    }
    HeadersFrame(mem, mem', bs[r + 1..], hi);
  }

  lemma InsertedHeader(mem: Memory, mem': Memory, xStart: int, bs: seq<Block>, lo: int, hi: int, i: nat)
    requires Inserting(mem, mem', xStart, bs, lo, hi, i)
    ensures var l := if i > 0 && !bs[i - 1].owned then i - 1 else i;
            var r := if i + 1 < |bs| && !bs[i + 1].owned then i + 1 else i;
            Header(mem', Merge(bs, l, i, r), NextFree(bs[r + 1..], hi))
  {
    BeforeInsert(mem, xStart, bs, lo, hi, i);
    if i > 0 && !bs[i - 1].owned { TilesOrdered(bs, lo, hi, i - 1, i); }
    var end := SplitAt(bs, i, lo, hi);
  }

  /** Those writes give the headers of the tiling with block i freed. */
  lemma Inserted(mem: Memory, mem': Memory, xStart: int, bs: seq<Block>, lo: int, hi: int, i: nat)
    requires Inserting(mem, mem', xStart, bs, lo, hi, i)
    ensures HeapMemory(mem', xStart, Free(bs, i), hi)
  {
    var l := if i > 0 && !bs[i - 1].owned then i - 1 else i;
    var r := if i + 1 < |bs| && !bs[i + 1].owned then i + 1 else i;
    var m := Merge(bs, l, i, r);
    InsertedBefore(mem, mem', xStart, bs, lo, hi, i);
    InsertedHeader(mem, mem', xStart, bs, lo, hi, i);
    InsertedAfter(mem, mem', xStart, bs, lo, hi, i);
    assert [m][1..] == [];
    Assemble(mem', xStart, bs[..l], [m], bs[r + 1..], hi);
  }

  lemma StartsOrdered(bs: seq<Block>, lo: int, hi: int, i: nat, j: nat)
    requires Tiles(bs, lo, hi) && i < j < |bs|
    ensures bs[i].start < bs[j].start
  {
    TilesOrdered(bs, lo, hi, i, j);
    var end := SplitAt(bs, i, lo, hi);
  }

  lemma StartsInside(bs: seq<Block>, lo: int, hi: int, i: nat)
    requires Tiles(bs, lo, hi) && i < |bs|
    ensures lo <= bs[i].start < hi
  {
    var end := SplitAt(bs, i, lo, hi);
    TilesBound(bs[i + 1..], end, hi);
  }

  /** The statistics do not change over owned blocks. */
  lemma {:induction false} StatsOwned(bs: seq<Block>, i: nat, j: nat)
    requires i <= j <= |bs| && forall k :: i <= k < j ==> bs[k].owned
    ensures FreeBlocks(bs[..j]) == FreeBlocks(bs[..i])
    ensures LargestFree(bs[..j]) == LargestFree(bs[..i]) && SmallestFree(bs[..j]) == SmallestFree(bs[..i])
    decreases j
  {
    if i < j {
      assert bs[..j] == bs[..j - 1] + [bs[j - 1]];
      StatsSnoc(bs[..j - 1], bs[j - 1]);
      StatsOwned(bs, i, j - 1);
    }
  }

  /** The running statistics after the blocks before index i. */
  ghost predicate Tally(bs: seq<Block>, i: nat, stats: HeapStats) {
    && i <= |bs|
    && stats.largest == LargestFree(bs[..i]) && stats.smallest == SmallestFree(bs[..i])
    && stats.count == |FreeBlocks(bs[..i])|
  }

  lemma TallyStep(bs: seq<Block>, i: nat, stats: HeapStats, j: nat, stats': HeapStats)
    requires Tally(bs, i, stats) && i < j <= |bs| && !bs[i].owned && forall k :: i < k < j ==> bs[k].owned
    requires stats' == stats.(largest := if bs[i].size > stats.largest then bs[i].size else stats.largest,
                              smallest := if bs[i].size < stats.smallest then bs[i].size else stats.smallest,
                              count := stats.count + 1)
    ensures Tally(bs, j, stats')
  {
    assert bs[..i + 1] == bs[..i] + [bs[i]];
    StatsSnoc(bs[..i], bs[i]);
    StatsOwned(bs, i + 1, j);
  }

  /** The addresses of a block behind its header. */
  ghost predicate InPayload(b: Block, a: int) {
    b.start + HEADER_SIZE <= a < b.start + b.size
  }

  ghost predicate WritesOnlyPayload(mem: Memory, mem': Memory, b: Block) {
    forall a :: a in mem && !InPayload(b, a) ==> a in mem' && mem'[a] == mem[a]
  }

  /** No header lies in the payload of a block: writing there leaves the heap as it is. */
  lemma PayloadIsNoHeader(mem: Memory, mem': Memory, xStart: int, bs: seq<Block>, lo: int, hi: int, i: nat)
    requires Tiles(bs, lo, hi) && Outside(xStart, lo, hi) && HeapMemory(mem, xStart, bs, hi)
    requires i < |bs| && WritesOnlyPayload(mem, mem', bs[i])
    ensures HeapMemory(mem', xStart, bs, hi)
  {
    var end := SplitAt(bs, i, lo, hi);
    forall b | b in bs ensures !InPayload(bs[i], b.start) {
      var k :| 0 <= k < |bs| && bs[k] == b;
      if k < i { StartsOrdered(bs, lo, hi, k, i); } else if i < k { TilesOrdered(bs, lo, hi, i, k); }
    }
    HeadersFrame(mem, mem', bs, hi);
  }

  // ---------------------------------------------------------------- the application's memory

  /** The words of these blocks behind their headers are as before. */
  ghost predicate KeepsPayloads(live: set<Block>, mem: Memory, mem': Memory) {
    forall b, a :: b in live && InPayload(b, a) && a in mem ==> a in mem' && mem'[a] == mem[a]
  }

  predicate IsWord(pv: int, a: int) { (a - pv) % 8 == 0 }

  /** The words memset clears; a word it reaches into is cleared whole. */
  ghost function Words(pv: int, n: int): set<int> {
    set a | pv <= a < pv + n && IsWord(pv, a)
  }

  ghost function Zeros(pv: int, n: int, zero: BlockLink): Memory {
    map a | a in Words(pv, n) :: zero
  }

  lemma PayloadsApart(bs: seq<Block>, lo: int, hi: int, i: nat, k: nat, a: int)
    requires Tiles(bs, lo, hi) && i < |bs| && k < |bs| && i != k && InPayload(bs[k], a)
    ensures !(bs[i].start <= a < bs[i].start + bs[i].size)
  {
    if i < k { TilesOrdered(bs, lo, hi, i, k); } else { TilesOrdered(bs, lo, hi, k, i); }
  }

  /** The last free block, or the list head, is in nobody's payload. */
  lemma {:induction false} PrevFreeIsNoPayload(bs: seq<Block>, lo: int, hi: int, xStart: int, i: nat, k: nat)
    requires Tiles(bs, lo, hi) && Outside(xStart, lo, hi) && i <= |bs| && k < |bs| && bs[k].owned
    ensures !InPayload(bs[k], PrevFree(bs[..i], xStart))
    decreases i
  {
    if i == 0 {
      var end := SplitAt(bs, k, lo, hi);
    } else if bs[i - 1].owned {
      assert bs[..i][..i - 1] == bs[..i - 1];
      PrevFreeIsNoPayload(bs, lo, hi, xStart, i - 1, k);
    } else {
      var end := SplitAt(bs, i - 1, lo, hi);
      if InPayload(bs[k], bs[i - 1].start) { PayloadsApart(bs, lo, hi, i - 1, k, bs[i - 1].start); }
    }
  }

  lemma TakeKeepsPayloads(mem: Memory, mem': Memory, xStart: int, bs: seq<Block>, lo: int, hi: int, i: nat, wanted: int)
    requires Tiles(bs, lo, hi) && Outside(xStart, lo, hi) && i < |bs| && !bs[i].owned
    requires TakeEffect(mem, mem', PrevFree(bs[..i], xStart), bs[i].start, bs[i].size, wanted)
    ensures KeepsPayloads(Live(bs), mem, mem')
  {
    forall b, a | b in Live(bs) && InPayload(b, a) && a in mem ensures a in mem' && mem'[a] == mem[a] {
      var k :| 0 <= k < |bs| && bs[k] == b;
      PayloadsApart(bs, lo, hi, i, k, a);
      PrevFreeIsNoPayload(bs, lo, hi, xStart, i, k);
    }
  }

  /** What the first fit has, and what taking it does to the tiling. */
  ghost predicate PayloadAligned(block: int) { (block + HEADER_SIZE) % ALIGNMENT == 0 }

  lemma PayloadIsAligned(block: int)
    requires block % ALIGNMENT == 0
    ensures PayloadAligned(block)
  {
  }

  lemma BeforeFinish(mem: Memory, xStart: int, bs: seq<Block>, lo: int, hi: int, wanted: int)
    requires Inv(bs, lo, hi) && 0 < lo && Outside(xStart, lo, hi) && HeapMemory(mem, xStart, bs, hi)
    requires 0 < wanted && wanted % ALIGNMENT == 0 && FirstFit(bs, wanted) < |bs|
    ensures var i := FirstFit(bs, wanted);
            var b, prev, after := bs[i], PrevFree(bs[..i], xStart), HeapBlocks.Malloc(bs, wanted);
            && PayloadAligned(b.start) && wanted <= b.size && b.start in mem && mem[b.start].size == b.size
            && prev in mem && (prev < b.start || b.start + b.size <= prev)
            && Inv(after, lo, hi)
            && FreeBytes(after) == FreeBytes(bs) - if b.size - wanted > MINIMUM_BLOCK_SIZE then wanted else b.size
  {
    var i := FirstFit(bs, wanted);
    FirstFitIsLowest(bs, wanted);
    PayloadIsAligned(bs[i].start);
    hide PayloadAligned;
    BeforeTake(mem, xStart, bs, lo, hi, i);
    MallocInv(bs, lo, hi, wanted);
    assert bs[i] in bs && HeapBlocks.Malloc(bs, wanted)[i] == Carve(bs[i], wanted)[0];
  }

  lemma AfterFinish(mem: Memory, mem': Memory, xStart: int, bs: seq<Block>, lo: int, hi: int, wanted: int)
    requires Inv(bs, lo, hi) && 0 < lo && Outside(xStart, lo, hi) && HeapMemory(mem, xStart, bs, hi)
    requires 0 < wanted && FirstFit(bs, wanted) < |bs|
    requires var i := FirstFit(bs, wanted);
             TakeEffect(mem, mem', PrevFree(bs[..i], xStart), bs[i].start, bs[i].size, wanted)
    requires wanted % ALIGNMENT == 0
    ensures HeapMemory(mem', xStart, HeapBlocks.Malloc(bs, wanted), hi) && KeepsPayloads(Live(bs), mem, mem')
    ensures var block := bs[FirstFit(bs, wanted)].start;
            && block in mem'
            && mem'[block].size - BLOCK_ALLOCATED_BITMASK == FreeBytes(bs) - FreeBytes(HeapBlocks.Malloc(bs, wanted))
  {
    BeforeFinish(mem, xStart, bs, lo, hi, wanted);
    FirstFitIsLowest(bs, wanted);
    hide Tiles, HeapMemory, TakeEffect, KeepsPayloads, Live, FirstFit, PrevFree, Carve;
    Taken(mem, mem', xStart, bs, lo, hi, FirstFit(bs, wanted), wanted);
    TakeKeepsPayloads(mem, mem', xStart, bs, lo, hi, FirstFit(bs, wanted), wanted);
  }

  lemma InsertKeepsPayloads(mem: Memory, mem1: Memory, mem': Memory, xStart: int, bs: seq<Block>, lo: int, hi: int, i: nat)
    requires Tiles(bs, lo, hi) && Outside(xStart, lo, hi) && i < |bs| && bs[i].owned
    requires bs[i].start in mem1 && mem1 == mem[bs[i].start := mem1[bs[i].start]]
    requires var it := PrevFree(bs[..i], xStart);
             it in mem1 && mem1[it].next in mem1 && InsertEffect(mem1, mem', it, bs[i].start, hi)
    ensures KeepsPayloads(Live(bs), mem, mem')
  {
    forall b, a | b in Live(bs) && InPayload(b, a) && a in mem ensures a in mem' && mem'[a] == mem[a] {
      var k :| 0 <= k < |bs| && bs[k] == b;
      if k != i { PayloadsApart(bs, lo, hi, i, k, a); }
      var end := SplitAt(bs, i, lo, hi);
      PrevFreeIsNoPayload(bs, lo, hi, xStart, i, k);
    }
  }

  /** Clearing the payload of one block. */
  lemma WipeKeepsPayloads(mem: Memory, bs: seq<Block>, lo: int, hi: int, i: nat, pv: int, n: int, zero: BlockLink)
    requires Tiles(bs, lo, hi) && i < |bs|
    requires pv == bs[i].start + HEADER_SIZE && pv + n <= bs[i].start + bs[i].size
    ensures KeepsPayloads(Live(bs) - {bs[i]}, mem, mem + Zeros(pv, n, zero))
    ensures WritesOnlyPayload(mem, mem + Zeros(pv, n, zero), bs[i])
  {
    assert forall a :: a in Words(pv, n) ==> InPayload(bs[i], a);
    forall b, a | b in Live(bs) - {bs[i]} && InPayload(b, a) ensures a !in Words(pv, n) {
      var k :| 0 <= k < |bs| && bs[k] == b;
      PayloadsApart(bs, lo, hi, i, k, a);
    }
  }

  lemma OneWordKeepsPayloads(mem: Memory, bs: seq<Block>, lo: int, hi: int, i: nat, address: int, value: BlockLink)
    requires Tiles(bs, lo, hi) && i < |bs| && InPayload(bs[i], address)
    ensures KeepsPayloads(Live(bs) - {bs[i]}, mem, mem[address := value])
  {
    forall b | b in Live(bs) - {bs[i]} ensures !InPayload(b, address) {
      var k :| 0 <= k < |bs| && bs[k] == b;
      if InPayload(b, address) { PayloadsApart(bs, lo, hi, i, k, address); }
    }
  }

  lemma ClearOne(mem: Memory, pv: int, k: nat, zero: BlockLink)
    ensures mem + Zeros(pv, 8 * (k + 1), zero) == (mem + Zeros(pv, 8 * k, zero))[pv + 8 * k := zero]
  {
    WordsStep(pv, k);
    hide Words;
  }

  lemma WordsStep(pv: int, k: nat)
    ensures Words(pv, 8 * (k + 1)) == Words(pv, 8 * k) + {pv + 8 * k}
  {
  }

  lemma ClearAll(pv: int, k: nat, n: int, zero: BlockLink)
    requires n <= 8 * k < n + 8 || (k == 0 && n <= 0)
    ensures Zeros(pv, 8 * k, zero) == Zeros(pv, n, zero)
  {
    assert Words(pv, 8 * k) == Words(pv, n);
  }

  /** The whole payload of a block cleared. */
  ghost function Cleared(mem: Memory, b: Block, zero: BlockLink): Memory {
    mem + Zeros(b.start + HEADER_SIZE, b.size - HEADER_SIZE, zero)
  }

  lemma ClearKeeps(mem: Memory, xStart: int, bs: seq<Block>, lo: int, hi: int, i: nat, zero: BlockLink)
    requires Inv(bs, lo, hi) && Outside(xStart, lo, hi) && HeapMemory(mem, xStart, bs, hi) && i < |bs|
    ensures HeapMemory(Cleared(mem, bs[i], zero), xStart, bs, hi)
    ensures KeepsPayloads(Live(bs) - {bs[i]}, mem, Cleared(mem, bs[i], zero))
  {
    var b := bs[i];
    assert b in bs && b.size % ALIGNMENT == 0;
    var end := SplitAt(bs, i, lo, hi);
    WipeKeepsPayloads(mem, bs, lo, hi, i, b.start + HEADER_SIZE, b.size - HEADER_SIZE, zero);
    PayloadIsNoHeader(mem, Cleared(mem, b, zero), xStart, bs, lo, hi, i);
  }

  /** What a block has that is to be freed, and what it will have done. */
  lemma BeforeRelease(mem: Memory, xStart: int, bs: seq<Block>, lo: int, hi: int, i: nat, zero: BlockLink)
    requires Inv(bs, lo, hi) && Outside(xStart, lo, hi) && HeapMemory(mem, xStart, bs, hi) && i < |bs| && bs[i].owned
    ensures var b := bs[i];
            && b.size > 0 && b.start in mem && mem[b.start] == BlockLink(NULL, b.size + BLOCK_ALLOCATED_BITMASK)
    ensures Tiles(bs, lo, hi) && Inv(HeapBlocks.Free(bs, i), lo, hi)
    ensures FreeBytes(HeapBlocks.Free(bs, i)) == FreeBytes(bs) + bs[i].size
    ensures HeapMemory(Cleared(mem, bs[i], zero), xStart, bs, hi)
    ensures KeepsPayloads(Live(bs) - {bs[i]}, mem, Cleared(mem, bs[i], zero))
  {
    FreeInv(bs, lo, hi, i);
    var end := SplitAt(bs, i, lo, hi);
    Disassemble(mem, xStart, bs, i, hi);
    hide Tiles, HeapMemory, Cleared, KeepsPayloads, Live, FreeBytes, HeapBlocks.Free;
    ClearKeeps(mem, xStart, bs, lo, hi, i, zero);
  }

  lemma ClearCommutes(mem: Memory, b: Block, h: BlockLink, zero: BlockLink)
    ensures mem[b.start := h] + Zeros(b.start + HEADER_SIZE, b.size - HEADER_SIZE, zero)
            == Cleared(mem, b, zero)[b.start := h]
  {
    assert b.start !in Words(b.start + HEADER_SIZE, b.size - HEADER_SIZE);
  }

  /** Whatever keeps the payloads from the clearing on keeps the cleared words of block i, and the
      payloads of the others from before it. */
  lemma FreedPayloads(mem: Memory, mem0: Memory, mem': Memory, bs: seq<Block>, lo: int, hi: int, i: nat, zero: BlockLink)
    requires Inv(bs, lo, hi) && i < |bs| && bs[i].owned
    requires mem0 == Cleared(mem, bs[i], zero)
    requires KeepsPayloads(Live(bs) - {bs[i]}, mem, mem0) && KeepsPayloads(Live(bs), mem0, mem')
    ensures KeepsPayloads(Live(HeapBlocks.Free(bs, i)), mem, mem')
    ensures forall a :: a in Words(bs[i].start + HEADER_SIZE, bs[i].size - HEADER_SIZE) ==> a in mem' && mem'[a] == zero
  {
    var b := bs[i];
    FreeInv(bs, lo, hi, i);
    assert b in Live(bs);
    assert forall a :: a in Words(b.start + HEADER_SIZE, b.size - HEADER_SIZE) ==> InPayload(b, a);
  }

  /** The block an allocation hands out: large enough, and none of those that were live. */
  lemma NewBlock(bs: seq<Block>, lo: int, hi: int, wanted: int)
    requires Inv(bs, lo, hi) && wanted > 0 && wanted % ALIGNMENT == 0 && FirstFit(bs, wanted) < |bs|
    ensures var i, after := FirstFit(bs, wanted), HeapBlocks.Malloc(bs, wanted);
            && i < |after| && after[i].start == bs[i].start && after[i].owned && wanted <= after[i].size <= wanted + 16
            && Live(bs) == Live(after) - {after[i]} && FreeBytes(after) == FreeBytes(bs) - after[i].size
  {
    var i, after := FirstFit(bs, wanted), HeapBlocks.Malloc(bs, wanted);
    FirstFitIsLowest(bs, wanted);
    MallocLive(bs, lo, hi, wanted);
    MallocInv(bs, lo, hi, wanted);
    MallocTakesLittle(bs, wanted);
    forall b | b in Live(bs) ensures b.start != bs[i].start {
      var k :| 0 <= k < |bs| && bs[k] == b;
      DistinctStarts(bs, lo, hi, k, i);
    }
  }

  lemma {:induction false} FirstFitUnique(bs: seq<Block>, wanted: int, i: nat)
    requires i <= |bs| && (i < |bs| ==> !bs[i].owned && bs[i].size >= wanted)
    requires forall k :: 0 <= k < i ==> bs[k].owned || bs[k].size < wanted
    ensures FirstFit(bs, wanted) == i
  {
    if i > 0 {
      assert forall k :: 0 <= k < i - 1 ==> bs[1..][k] == bs[k + 1];
      FirstFitUnique(bs[1..], wanted, i - 1);
    }
  }

  function AlignUp(a: int): int { if a % ALIGNMENT == 0 then a else a + ALIGNMENT - a % ALIGNMENT }

  function AlignDown(a: int): int { a - a % ALIGNMENT }

  datatype HeapStats = HeapStats(largest: int, smallest: int, count: nat, available: int,
                                 allocations: nat, frees: nat, minimumEver: int)

  function Lower(a: int, b: int): int { if a < b then a else b }

  /** The file's static state.  `blocks` is the tiling the headers describe. */
  class Heap {
    const ucHeap: int             // start of the raw region
    const totalSize: int          // configTOTAL_HEAP_SIZE
    const xStart: int             // address of the static list head, outside the region
    const xHeapCanary: int
    var mem: Memory
    var pxEnd: int
    var xFreeBytesRemaining: int
    var xMinimumEverFreeBytesRemaining: int
    var xNumberOfSuccessfulAllocations: nat
    var xNumberOfSuccessfulFrees: nat
    ghost var blocks: seq<Block>

    /** A word of eight zero bytes, with its first half read as a link. */
    function Zero(): BlockLink { BlockLink(xHeapCanary, 0) }

    /** First managed address. */
    ghost function Lo(): int { AlignUp(ucHeap) }

    /** Where prvHeapInit puts the end marker. */
    ghost function Hi(): int { AlignDown(ucHeap + totalSize - HEADER_SIZE) }

    /** A region a linker script can produce: addressable, at most half of it, not empty once
        aligned, and apart from the static list head. */
    ghost predicate GoodRegion() {
      && 0 < ucHeap && ucHeap + totalSize <= 0xFFFF_FFFF && totalSize < 0x8000_0000
      && Lo() < Hi() && Outside(xStart, Lo(), Hi())
    }

    /** The managed region and the eight bytes of its end marker lie inside the raw one, with less than
        eight bytes lost at either end. */
    lemma RegionFits()
      ensures ucHeap <= Lo() < ucHeap + 8 && Lo() % 8 == 0
      ensures Hi() + 8 <= ucHeap + totalSize < Hi() + 16 && Hi() % 8 == 0
    {
    }

    ghost predicate Valid()
      reads this
    {
      && GoodRegion()
      && (pxEnd == NULL ==>
            blocks == [] && xFreeBytesRemaining == 0 && xStart in mem && mem[xStart].next == NULL)
      && (pxEnd != NULL ==> Ready())
    }

    ghost predicate Ready()
      reads this
    {
      && pxEnd == Hi() && Inv(blocks, Lo(), Hi())
      && HeapMemory(mem, xStart, blocks, Hi())
      && xFreeBytesRemaining == FreeBytes(blocks)
      && xMinimumEverFreeBytesRemaining <= xFreeBytesRemaining
    }

    /** The heap as the next allocation finds it: the first one initialises it. */
    ghost function Current(): seq<Block>
      reads this
    {
      if pxEnd == NULL then Initial(Lo(), Hi()) else blocks
    }

    constructor (ucHeap: int, totalSize: int, xStart: int, xHeapCanary: int)
      requires 0 < ucHeap && ucHeap + totalSize <= 0xFFFF_FFFF && totalSize < 0x8000_0000
      requires AlignUp(ucHeap) < AlignDown(ucHeap + totalSize - HEADER_SIZE)
      requires Outside(xStart, AlignUp(ucHeap), AlignDown(ucHeap + totalSize - HEADER_SIZE))
      ensures Valid() && pxEnd == NULL
      ensures xFreeBytesRemaining == xMinimumEverFreeBytesRemaining == 0
      ensures xNumberOfSuccessfulAllocations == xNumberOfSuccessfulFrees == 0
      ensures this.ucHeap == ucHeap && this.totalSize == totalSize
      ensures this.xStart == xStart && this.xHeapCanary == xHeapCanary
    {
      this.ucHeap, this.totalSize, this.xStart, this.xHeapCanary := ucHeap, totalSize, xStart, xHeapCanary;
      mem, pxEnd := map[xStart := BlockLink(NULL, 0)], NULL;
      xFreeBytesRemaining, xMinimumEverFreeBytesRemaining := 0, 0;
      xNumberOfSuccessfulAllocations, xNumberOfSuccessfulFrees := 0, 0;
      blocks := [];
    }

    /** prvHeapInit: one free block up to the end marker. */
    method HeapInit()
      requires Valid() && pxEnd == NULL
      modifies this
      ensures Valid() && pxEnd == Hi() && blocks == Initial(Lo(), Hi())
      ensures xMinimumEverFreeBytesRemaining == xFreeBytesRemaining == Hi() - Lo()
      ensures xNumberOfSuccessfulAllocations == old(xNumberOfSuccessfulAllocations)
      ensures xNumberOfSuccessfulFrees == old(xNumberOfSuccessfulFrees)
    {
      var uxStartAddress, xTotalHeapSize := ucHeap, totalSize;
      if uxStartAddress % ALIGNMENT != 0 {
        uxStartAddress := uxStartAddress + (ALIGNMENT - 1);
        uxStartAddress := uxStartAddress - uxStartAddress % ALIGNMENT;
        xTotalHeapSize := xTotalHeapSize - (uxStartAddress - ucHeap);
      }
      assert uxStartAddress == Lo();
      var uxEndAddress := uxStartAddress + xTotalHeapSize;
      uxEndAddress := uxEndAddress - HEADER_SIZE;
      uxEndAddress := uxEndAddress - uxEndAddress % ALIGNMENT;
      assert uxEndAddress == Hi() && Lo() % ALIGNMENT == 0 && Hi() % ALIGNMENT == 0;
      WriteFirstBlock(uxStartAddress, uxEndAddress);
    }

    /** The writes of prvHeapInit once the bounds are known. */
    method WriteFirstBlock(uxStartAddress: int, uxEndAddress: int)
      requires GoodRegion() && uxStartAddress == Lo() && uxEndAddress == Hi()
      requires uxStartAddress % ALIGNMENT == 0 && uxEndAddress % ALIGNMENT == 0
      modifies this`mem, this`pxEnd, this`xMinimumEverFreeBytesRemaining, this`xFreeBytesRemaining, this`blocks
      ensures Ready() && blocks == Initial(Lo(), Hi())
      ensures xMinimumEverFreeBytesRemaining == xFreeBytesRemaining == Hi() - Lo()
    {
      mem := mem[xStart := BlockLink(uxStartAddress, 0)];
      pxEnd := uxEndAddress;
      mem := mem[pxEnd := BlockLink(NULL, 0)];
      mem := mem[uxStartAddress := BlockLink(pxEnd, uxEndAddress - uxStartAddress)];
      xMinimumEverFreeBytesRemaining := mem[uxStartAddress].size;
      xFreeBytesRemaining := mem[uxStartAddress].size;
      blocks := Initial(uxStartAddress, uxEndAddress);
      InitialInv(uxStartAddress, uxEndAddress);
      InitialMemory(mem, xStart, uxStartAddress, uxEndAddress);
      hide Inv, Initial, HeapMemory, FreeBytes;
    }

    /** The first-fit walk of pvPortMalloc: the block and its predecessor in the free list. */
    method FindBlock(wanted: int) returns (pxPreviousBlock: int, pxBlock: int)
      requires Valid() && pxEnd != NULL && wanted > 0
      ensures var i := FirstFit(blocks, wanted);
              && i <= |blocks|
              && pxPreviousBlock == PrevFree(blocks[..i], xStart)
              && pxBlock == (if i < |blocks| then blocks[i].start else pxEnd)
    {
      pxPreviousBlock := xStart;
      pxBlock := mem[xStart].next;
      assert blocks[0..] == blocks && PrevFree(blocks[..0], xStart) == xStart;
      hide PrevFree, NextFree, Headers, FirstFit, FreeBytes, AlignUp, AlignDown;
      ghost var i := NextBlock(mem, xStart, blocks, Lo(), Hi(), 0);
      while mem[pxBlock].size < wanted && mem[pxBlock].next != NULL
        invariant StandsAt(mem, blocks, Hi(), i, pxBlock)
        invariant pxPreviousBlock == PrevFree(blocks[..i], xStart)
        invariant i < |blocks| ==> PrevFree(blocks[..i + 1], xStart) == pxBlock
        invariant forall k :: 0 <= k < i ==> blocks[k].owned || blocks[k].size < wanted
        decreases |blocks| - i
      {
        pxPreviousBlock := pxBlock;
        pxBlock := mem[pxBlock].next;
        i := NextBlock(mem, xStart, blocks, Lo(), Hi(), i + 1);
      }
      FirstFitUnique(blocks, wanted, i);
    }

    /** The header writes of pvPortMalloc once a block is found. */
    method TakeBlock(pxPreviousBlock: int, pxBlock: int, wanted: int)
      requires pxBlock in mem && pxPreviousBlock in mem && 0 < wanted <= mem[pxBlock].size
      requires pxPreviousBlock < pxBlock || pxBlock + mem[pxBlock].size <= pxPreviousBlock
      modifies this`mem, this`xFreeBytesRemaining, this`xMinimumEverFreeBytesRemaining, this`xNumberOfSuccessfulAllocations
      ensures TakeEffect(old(mem), mem, pxPreviousBlock, pxBlock, old(mem)[pxBlock].size, wanted)
      ensures xFreeBytesRemaining == old(xFreeBytesRemaining) - (mem[pxBlock].size - BLOCK_ALLOCATED_BITMASK)
      ensures xMinimumEverFreeBytesRemaining ==
              if xFreeBytesRemaining < old(xMinimumEverFreeBytesRemaining) then xFreeBytesRemaining
              else old(xMinimumEverFreeBytesRemaining)
      ensures xNumberOfSuccessfulAllocations == old(xNumberOfSuccessfulAllocations) + 1
    {
      mem := mem[pxPreviousBlock := mem[pxPreviousBlock].(next := mem[pxBlock].next)];
      if mem[pxBlock].size - wanted > MINIMUM_BLOCK_SIZE {
        var pxNewBlockLink := pxBlock + wanted;
        mem := mem[pxNewBlockLink := BlockLink(mem[pxPreviousBlock].next, mem[pxBlock].size - wanted)];
        mem := mem[pxBlock := mem[pxBlock].(size := wanted)];
        mem := mem[pxPreviousBlock := mem[pxPreviousBlock].(next := pxNewBlockLink)];
      }
      xFreeBytesRemaining := xFreeBytesRemaining - mem[pxBlock].size;
      if xFreeBytesRemaining < xMinimumEverFreeBytesRemaining {
        xMinimumEverFreeBytesRemaining := xFreeBytesRemaining;
      }
      mem := mem[pxBlock := BlockLink(NULL, mem[pxBlock].size + BLOCK_ALLOCATED_BITMASK)];
      xNumberOfSuccessfulAllocations := xNumberOfSuccessfulAllocations + 1;
    }

    /** pvPortMalloc.  NULL stands for the crash furi_check raises when nothing was allocated. */
    method Malloc(xWantedSize: nat) returns (pvReturn: int)
      requires Valid() && xWantedSize <= SIZE_MAX
      modifies this
      ensures Valid() && pxEnd == Hi()
      ensures blocks == Step(old(Current()), MallocCall(xWantedSize))
      ensures var wanted, bs := WantedSize(xWantedSize), old(Current());
              var i := FirstFit(bs, wanted);
              if wanted > 0 && i < |bs| then
                pvReturn == bs[i].start + 8 && pvReturn % 8 == 0
                && i < |blocks| && blocks[i].start == bs[i].start && blocks[i].owned
                && xWantedSize + 8 <= blocks[i].size
                && FreeBytes(bs) - xFreeBytesRemaining == blocks[i].size < xWantedSize + 8 + 8 + 16
                && xNumberOfSuccessfulAllocations == old(xNumberOfSuccessfulAllocations) + 1
              else pvReturn == NULL && xNumberOfSuccessfulAllocations == old(xNumberOfSuccessfulAllocations)
      ensures xNumberOfSuccessfulFrees == old(xNumberOfSuccessfulFrees)
      ensures xMinimumEverFreeBytesRemaining ==
              Lower(if old(pxEnd) == NULL then Hi() - Lo() else old(xMinimumEverFreeBytesRemaining), FreeBytes(blocks))
      ensures KeepsPayloads(Live(old(blocks)), old(mem), mem)
      ensures pvReturn != NULL ==>
                forall a :: a in Words(pvReturn, xWantedSize) ==> a in mem && mem[a] == BlockLink(xHeapCanary, 0)
    {
      pvReturn := NULL;
      var wanted := WantedSize(xWantedSize);
      WantedSizeBounds(xWantedSize);
      if pxEnd == NULL { HeapInit(); }
      assert blocks == old(Current()) && Inv(blocks, Lo(), Hi());
      LargestAtMostTotal(blocks, Lo(), Hi());
      MallocSucceedsIff(blocks, Lo(), Hi(), xWantedSize);
      FirstFitIsLowest(blocks, wanted);
      TilesBound(blocks, Lo(), Hi());
      assert FirstFit(blocks, wanted) < |blocks| ==> blocks[FirstFit(blocks, wanted)] in blocks;
      if wanted < BLOCK_ALLOCATED_BITMASK {
        if wanted > 0 && wanted <= xFreeBytesRemaining {
          var pxPreviousBlock, pxBlock := FindBlock(wanted);
          if pxBlock != pxEnd {
            pvReturn := HandOut(pxPreviousBlock, pxBlock, wanted, xWantedSize);
          }
        }
      }
    }

    /** The taken branch of pvPortMalloc and the clearing at its end. */
    method HandOut(pxPreviousBlock: int, pxBlock: int, wanted: int, xWantedSize: nat) returns (pvReturn: int)
      requires Valid() && pxEnd != NULL && 0 < wanted && wanted % ALIGNMENT == 0
      requires xWantedSize + 8 <= wanted < xWantedSize + 16
      requires var i := FirstFit(blocks, wanted);
               i < |blocks| && pxBlock == blocks[i].start && pxPreviousBlock == PrevFree(blocks[..i], xStart)
      modifies this`mem, this`xFreeBytesRemaining, this`xMinimumEverFreeBytesRemaining
      modifies this`xNumberOfSuccessfulAllocations, this`blocks
      ensures Valid() && blocks == HeapBlocks.Malloc(old(blocks), wanted)
      ensures pvReturn == pxBlock + 8 && pvReturn % 8 == 0
      ensures var i := FirstFit(old(blocks), wanted);
              && i < |blocks| && blocks[i].start == pxBlock && blocks[i].owned && xWantedSize + 8 <= blocks[i].size
              && FreeBytes(old(blocks)) - xFreeBytesRemaining == blocks[i].size < xWantedSize + 8 + 8 + 16
      ensures xNumberOfSuccessfulAllocations == old(xNumberOfSuccessfulAllocations) + 1
      ensures xMinimumEverFreeBytesRemaining == Lower(old(xMinimumEverFreeBytesRemaining), FreeBytes(blocks))
      ensures KeepsPayloads(Live(old(blocks)), old(mem), mem)
      ensures forall a :: a in Words(pvReturn, xWantedSize) ==> a in mem && mem[a] == BlockLink(xHeapCanary, 0)
    {
      ghost var before, i := blocks, FirstFit(blocks, wanted);
      NewBlock(blocks, Lo(), Hi(), wanted);
      pvReturn := FinishMalloc(pxPreviousBlock, pxBlock, wanted);
      hide FirstFit, HeapBlocks.Malloc, FreeBytes, Live, HeapMemory, Inv, PrevFree, AlignUp, AlignDown;
      Wipe(i, pvReturn, xWantedSize);
    }

    /** The taken branch of pvPortMalloc. */
    method FinishMalloc(pxPreviousBlock: int, pxBlock: int, wanted: int) returns (pvReturn: int)
      requires Valid() && pxEnd != NULL && 0 < wanted && wanted % ALIGNMENT == 0
      requires var i := FirstFit(blocks, wanted);
               i < |blocks| && pxBlock == blocks[i].start && pxPreviousBlock == PrevFree(blocks[..i], xStart)
      modifies this`mem, this`xFreeBytesRemaining, this`xMinimumEverFreeBytesRemaining
      modifies this`xNumberOfSuccessfulAllocations, this`blocks
      ensures Valid() && blocks == HeapBlocks.Malloc(old(blocks), wanted)
      ensures pvReturn == pxBlock + HEADER_SIZE && PayloadAligned(pxBlock)
      ensures xNumberOfSuccessfulAllocations == old(xNumberOfSuccessfulAllocations) + 1
      ensures xMinimumEverFreeBytesRemaining == Lower(old(xMinimumEverFreeBytesRemaining), FreeBytes(blocks))
      ensures KeepsPayloads(Live(old(blocks)), old(mem), mem)
    {
      ghost var mem0 := mem;
      BeforeFinish(mem, xStart, blocks, Lo(), Hi(), wanted);
      hide HeapMemory, Inv, FirstFit, HeapBlocks.Malloc, PrevFree, FreeBytes, Live, KeepsPayloads, AlignUp, AlignDown;
      hide TakeEffect, Outside, PayloadAligned;
      pvReturn := pxBlock + HEADER_SIZE;
      TakeBlock(pxPreviousBlock, pxBlock, wanted);
      AfterFinish(mem0, mem, xStart, blocks, Lo(), Hi(), wanted);
      blocks := HeapBlocks.Malloc(blocks, wanted);
    }

    /** memset to zero, a word at a time. */
    method ClearWords(pv: int, n: int)
      modifies this`mem
      ensures mem == old(mem) + Zeros(pv, n, Zero())
    {
      var k := 0;
      assert mem == mem + Zeros(pv, 0, Zero());
      hide Zeros;
      while 8 * k < n
        invariant k >= 0 && (k > 0 ==> 8 * k < n + 8) && mem == old(mem) + Zeros(pv, 8 * k, Zero())
      {
        ClearOne(old(mem), pv, k, Zero());
        mem := mem[pv + 8 * k := Zero()];
        k := k + 1;
      }
      ClearAll(pv, k, n, Zero());
    }

    /** Clearing the memory of a block that is owned. */
    method Wipe(ghost i: nat, pv: int, n: int)
      requires Valid() && pxEnd != NULL && i < |blocks|
      requires pv == blocks[i].start + HEADER_SIZE && pv + n <= blocks[i].start + blocks[i].size
      modifies this`mem
      ensures Valid() && mem == old(mem) + Zeros(pv, n, Zero())
      ensures KeepsPayloads(Live(blocks) - {blocks[i]}, old(mem), mem)
    {
      WipeKeepsPayloads(mem, blocks, Lo(), Hi(), i, pv, n, Zero());
      PayloadIsNoHeader(mem, mem + Zeros(pv, n, Zero()), xStart, blocks, Lo(), Hi(), i);
      ClearWords(pv, n);
    }

    /** The loop of prvInsertBlockIntoFreeList: the last free block below the one being freed. */
    method FindInsertionPoint(pxBlockToInsert: int, ghost mem0: Memory, ghost i: nat) returns (pxIterator: int)
      requires GoodRegion() && Tiles(blocks, Lo(), Hi()) && HeapMemory(mem0, xStart, blocks, Hi())
      requires i < |blocks| && blocks[i].owned && blocks[i].start == pxBlockToInsert
      requires mem == mem0[pxBlockToInsert := BlockLink(NULL, blocks[i].size)]
      ensures pxIterator == PrevFree(blocks[..i], xStart)
    {
      pxIterator := xStart;
      ghost var j := 0;
      assert blocks[0..] == blocks && PrevFree(blocks[..0], xStart) == xStart;
      hide PrevFree, NextFree, Headers, Tiles, AlignUp, AlignDown;
      ghost var k := NextBlock(mem0, xStart, blocks, Lo(), Hi(), 0);
      StartsInside(blocks, Lo(), Hi(), i);
      LinkBelow(mem0, blocks, Lo(), Hi(), i, k, mem[pxIterator].next);
      while mem[pxIterator].next < pxBlockToInsert
        invariant j <= i && j <= k <= |blocks| && forall n :: j <= n < k ==> blocks[n].owned
        invariant pxIterator in mem && pxIterator == PrevFree(blocks[..j], xStart)
        invariant StandsAt(mem0, blocks, Hi(), k, mem[pxIterator].next)
        invariant mem[pxIterator].next < pxBlockToInsert <==> k < i
        invariant k < |blocks| ==> PrevFree(blocks[..k + 1], xStart) == blocks[k].start
        decreases |blocks| - j
      {
        pxIterator := mem[pxIterator].next;
        j := k + 1;
        k := NextBlock(mem0, xStart, blocks, Lo(), Hi(), j);
        LinkBelow(mem0, blocks, Lo(), Hi(), i, k, mem[pxIterator].next);
      }
      OwnedBetween(blocks, j, i, xStart);
    }

    /** prvInsertBlockIntoFreeList: threads the block of index i back in, joined to its neighbours. */
    method InsertBlockIntoFreeList(block: int, ghost mem0: Memory, ghost i: nat)
      requires GoodRegion() && Tiles(blocks, Lo(), Hi()) && HeapMemory(mem0, xStart, blocks, Hi()) && pxEnd == Hi()
      requires i < |blocks| && blocks[i].owned && blocks[i].start == block
      requires mem == mem0[block := BlockLink(NULL, blocks[i].size)]
      modifies this`mem
      ensures HeapMemory(mem, xStart, HeapBlocks.Free(blocks, i), Hi())
      ensures KeepsPayloads(Live(blocks), mem0, mem)
    {
      ghost var mem1 := mem;
      var pxIterator := FindInsertionPoint(block, mem0, i);
      BeforeInsert(mem0, xStart, blocks, Lo(), Hi(), i);
      JoinNeighbours(pxIterator, block);
      Inserted(mem0, mem, xStart, blocks, Lo(), Hi(), i);
      InsertKeepsPayloads(mem0, mem1, mem, xStart, blocks, Lo(), Hi(), i);
    }

    /** The header writes of prvInsertBlockIntoFreeList. */
    method JoinNeighbours(pxIterator: int, block: int)
      requires pxIterator in mem && block in mem && mem[pxIterator].next in mem
      requires pxIterator != block && block < mem[pxIterator].next
      requires mem[pxIterator].size >= 0 && pxIterator != mem[pxIterator].next
      modifies this`mem
      ensures InsertEffect(old(mem), mem, pxIterator, block, pxEnd)
    {
      var pxBlockToInsert := block;
      if pxIterator + mem[pxIterator].size == pxBlockToInsert {
        mem := mem[pxIterator := mem[pxIterator].(size := mem[pxIterator].size + mem[pxBlockToInsert].size)];
        pxBlockToInsert := pxIterator;
      }
      var next := mem[pxIterator].next;
      if pxBlockToInsert + mem[pxBlockToInsert].size == next {
        if next != pxEnd {
          mem := mem[pxBlockToInsert := mem[pxBlockToInsert].(size := mem[pxBlockToInsert].size + mem[next].size)];
          mem := mem[pxBlockToInsert := mem[pxBlockToInsert].(next := mem[next].next)];
        } else {
          mem := mem[pxBlockToInsert := mem[pxBlockToInsert].(next := pxEnd)];
        }
      } else {
        mem := mem[pxBlockToInsert := mem[pxBlockToInsert].(next := next)];
      }
      if pxIterator != pxBlockToInsert {
        mem := mem[pxIterator := mem[pxIterator].(next := pxBlockToInsert)];
      }
    }

    /** vPortFree, of NULL or of a pointer Malloc returned and nobody freed since. */
    method Free(pv: int)
      requires Valid() && Legal(blocks, FreeCall(pv))
      modifies this
      ensures Valid() && pxEnd == old(pxEnd) && blocks == Step(old(blocks), FreeCall(pv))
      ensures xNumberOfSuccessfulFrees == old(xNumberOfSuccessfulFrees) + (if pv == NULL then 0 else 1)
      ensures xNumberOfSuccessfulAllocations == old(xNumberOfSuccessfulAllocations)
      ensures xMinimumEverFreeBytesRemaining == old(xMinimumEverFreeBytesRemaining)
      ensures pxEnd != NULL ==> xMinimumEverFreeBytesRemaining <= FreeBytes(blocks)
      ensures KeepsPayloads(Live(blocks), old(mem), mem)
      ensures pv != NULL ==>
                var b := old(blocks)[LiveAt(old(blocks), pv)];
                forall a :: a in Words(pv, b.size - HEADER_SIZE) ==> a in mem && mem[a] == Zero()
    {
      if pv != NULL {
        ghost var i := LiveAt(blocks, pv);
        LiveAtIsLive(blocks, pv);
        var pxLink := pv - HEADER_SIZE;
        Disassemble(mem, xStart, blocks, i, Hi());
        ghost var end := SplitAt(blocks, i, Lo(), Hi());
        FreeInv(blocks, Lo(), Hi(), i);
        if mem[pxLink].size >= BLOCK_ALLOCATED_BITMASK {
          if mem[pxLink].next == NULL {
            Release(pv, i);
          }
        }
      }
    }

    /** The taken branch of vPortFree. */
    method Release(pv: int, ghost i: nat)
      requires Valid() && pxEnd != NULL && i < |blocks| && blocks[i].owned && pv == blocks[i].start + HEADER_SIZE
      modifies this`mem, this`xFreeBytesRemaining, this`xNumberOfSuccessfulFrees, this`blocks
      ensures Valid() && blocks == HeapBlocks.Free(old(blocks), i)
      ensures xNumberOfSuccessfulFrees == old(xNumberOfSuccessfulFrees) + 1
      ensures KeepsPayloads(Live(blocks), old(mem), mem)
      ensures forall a :: a in Words(pv, old(blocks)[i].size - HEADER_SIZE) ==> a in mem && mem[a] == Zero()
    {
      ghost var before, cleared := mem, Cleared(mem, blocks[i], Zero());
      BeforeRelease(mem, xStart, blocks, Lo(), Hi(), i, Zero());
      hide HeapMemory, Inv, Live, HeapBlocks.Free, FreeBytes, KeepsPayloads, Words, Cleared, AlignUp, AlignDown;
      var pxLink := pv - HEADER_SIZE;
      ClearBlock(pxLink, blocks[i]);
      xFreeBytesRemaining := xFreeBytesRemaining + mem[pxLink].size;
      InsertBlockIntoFreeList(pxLink, cleared, i);
      FreedPayloads(before, cleared, mem, blocks, Lo(), Hi(), i, Zero());
      xNumberOfSuccessfulFrees := xNumberOfSuccessfulFrees + 1;
      blocks := HeapBlocks.Free(blocks, i);
    }

    /** The block is no longer marked as allocated, and its memory cleared. */
    method ClearBlock(pxLink: int, ghost b: Block)
      requires pxLink == b.start && pxLink in mem && mem[pxLink] == BlockLink(NULL, b.size + BLOCK_ALLOCATED_BITMASK)
      modifies this`mem
      ensures mem == Cleared(old(mem), b, Zero())[pxLink := BlockLink(NULL, b.size)]
    {
      ClearCommutes(mem, b, BlockLink(NULL, b.size), Zero());
      hide Zeros, Cleared;
      mem := mem[pxLink := mem[pxLink].(size := mem[pxLink].size - BLOCK_ALLOCATED_BITMASK)];
      ClearWords(pxLink + HEADER_SIZE, mem[pxLink].size - HEADER_SIZE);
    }

    /** vPortGetHeapStats: one walk over the free list. */
    method GetHeapStats() returns (stats: HeapStats)
      requires Valid()
      ensures stats == HeapStats(LargestFree(blocks), SmallestFree(blocks), |FreeBlocks(blocks)|, FreeBytes(blocks),
                                 xNumberOfSuccessfulAllocations, xNumberOfSuccessfulFrees, xMinimumEverFreeBytesRemaining)
    {
      stats := HeapStats(0, SIZE_MAX, 0, 0, 0, 0, 0);
      var pxBlock := mem[xStart].next;
      assert pxEnd != NULL ==> pxBlock != NULL by {
        if pxEnd != NULL {
          assert blocks[0..] == blocks;
          var i := NextBlock(mem, xStart, blocks, Lo(), Hi(), 0);
        }
      }
      if pxBlock != NULL {
        stats := WalkFreeList(pxBlock);
        assert blocks[..|blocks|] == blocks;
      }
      stats := stats.(available := xFreeBytesRemaining, allocations := xNumberOfSuccessfulAllocations,
                      frees := xNumberOfSuccessfulFrees, minimumEver := xMinimumEverFreeBytesRemaining);
    }

    /** The loop of vPortGetHeapStats. */
    method WalkFreeList(first: int) returns (stats: HeapStats)
      requires Valid() && pxEnd != NULL && first == mem[xStart].next
      ensures Tally(blocks, |blocks|, stats)
    {
      stats := HeapStats(0, SIZE_MAX, 0, 0, 0, 0, 0);
      var pxBlock := first;
      assert blocks[0..] == blocks && blocks[..0] == [];
      ghost var i := NextBlock(mem, xStart, blocks, Lo(), Hi(), 0);
      StatsOwned(blocks, 0, i);
      while pxBlock != pxEnd
        invariant StandsAt(mem, blocks, Hi(), i, pxBlock) && (i < |blocks| ==> blocks[i].start < Hi())
        invariant Tally(blocks, i, stats)
        decreases |blocks| - i
      {
        ghost var i0, stats0 := i, stats;
        stats := stats.(count := stats.count + 1);
        if mem[pxBlock].size > stats.largest { stats := stats.(largest := mem[pxBlock].size); }
        if mem[pxBlock].size < stats.smallest { stats := stats.(smallest := mem[pxBlock].size); }
        pxBlock := mem[pxBlock].next;
        i := NextBlock(mem, xStart, blocks, Lo(), Hi(), i + 1);
        TallyStep(blocks, i0, stats0, i, stats);
      }
    }

    /** The application writing its own memory: any word inside a live block's payload. */
    method WritePayload(i: nat, address: int, value: BlockLink)
      requires Valid() && i < |blocks| && blocks[i].owned
      requires blocks[i].start + HEADER_SIZE <= address < blocks[i].start + blocks[i].size
      modifies this`mem
      ensures Valid() && KeepsPayloads(Live(blocks) - {blocks[i]}, old(mem), mem)
    {
      ghost var mem0 := mem;
      mem := mem[address := value];
      PayloadIsNoHeader(mem0, mem, xStart, blocks, Lo(), Hi(), i);
      OneWordKeepsPayloads(mem0, blocks, Lo(), Hi(), i, address, value);
    }
  }
}
