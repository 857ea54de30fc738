/** The heap of furi/core/memmgr_heap.c seen as a tiling: the managed region [lo, hi), hi being
    the address of pxEnd, is cut into consecutive blocks, each owned by the application or free.
    The allocator's operations are functions on such tilings; module MemmgrHeap proves that the
    pointer-walking code computes them. */
module HeapBlocks {

  const ALIGNMENT: nat := 8            // portBYTE_ALIGNMENT
  const HEADER_SIZE: nat := 8          // xHeapStructSize: a BlockLink_t rounded to the alignment
  const MINIMUM_BLOCK_SIZE: nat := 16  // heapMINIMUM_BLOCK_SIZE
  const SIZE_MAX: nat := 0xFFFF_FFFF   // heapSIZE_MAX for a 32-bit size_t

  datatype Block = Block(start: int, size: int, owned: bool)

  /** The block sequence covers [lo, hi) without gap or overlap. */
  ghost predicate Tiles(bs: seq<Block>, lo: int, hi: int) {
    if bs == [] then lo == hi
    else bs[0].start == lo && bs[0].size > 0 && Tiles(bs[1..], lo + bs[0].size, hi)
  }

  /** No two neighbouring blocks are both free. */
  ghost predicate Coalesced(bs: seq<Block>) {
    forall i :: 0 <= i < |bs| - 1 ==> bs[i].owned || bs[i + 1].owned
  }

  ghost predicate Aligned(bs: seq<Block>) {
    forall b :: b in bs ==> b.start % ALIGNMENT == 0 && b.size % ALIGNMENT == 0
  }

  /** What every reachable heap satisfies. */
  ghost predicate Inv(bs: seq<Block>, lo: int, hi: int) {
    Tiles(bs, lo, hi) && Coalesced(bs) && Aligned(bs)
  }

  /** The blocks the application owns. */
  ghost function Live(bs: seq<Block>): set<Block> {
    set b | b in bs && b.owned
  }

  /** The free list, in address order. */
  ghost function FreeBlocks(bs: seq<Block>): seq<Block> {
    if bs == [] then []
    else (if bs[0].owned then [] else [bs[0]]) + FreeBlocks(bs[1..])
  }

  ghost function FreeBytes(bs: seq<Block>): int {
    if bs == [] then 0
    else (if bs[0].owned then 0 else bs[0].size) + FreeBytes(bs[1..])
  }

  /** The largest free block, 0 when there is none. */
  ghost function LargestFree(bs: seq<Block>): int {
    if bs == [] then 0
    else
      var rest := LargestFree(bs[1..]);
      if !bs[0].owned && bs[0].size > rest then bs[0].size else rest
  }

  /** The smallest free block, SIZE_MAX when there is none. */
  ghost function SmallestFree(bs: seq<Block>): int {
    if bs == [] then SIZE_MAX
    else
      var rest := SmallestFree(bs[1..]);
      if !bs[0].owned && bs[0].size < rest then bs[0].size else rest
  }

  // ---------------------------------------------------------------- operations

  /** The request rounded as pvPortMalloc rounds it; 0 stands for a refused request. */
  function WantedSize(request: nat): (wanted: nat)
    requires request <= SIZE_MAX
  {
    if request == 0 || request > SIZE_MAX - HEADER_SIZE then 0
    else
      var size := request + HEADER_SIZE;
      if size % ALIGNMENT == 0 then size
      else
        var additional := ALIGNMENT - size % ALIGNMENT;
        if size > SIZE_MAX - additional then 0 else size + additional
  }

  /** Index of the lowest-addressed free block of at least `wanted` bytes, |bs| when there is none. */
  ghost function FirstFit(bs: seq<Block>, wanted: int): nat {
    if bs == [] then 0
    else if !bs[0].owned && bs[0].size >= wanted then 0
    else 1 + FirstFit(bs[1..], wanted)
  }

  /** Hands the block out, splitting it when more than the minimum block size is left over. */
  ghost function Carve(b: Block, wanted: int): seq<Block> {
    if b.size - wanted > MINIMUM_BLOCK_SIZE
    then [Block(b.start, wanted, true), Block(b.start + wanted, b.size - wanted, false)]
    else [b.(owned := true)]
  }

  ghost function Malloc(bs: seq<Block>, wanted: int): seq<Block> {
    var i := FirstFit(bs, wanted);
    if i < |bs| then bs[..i] + Carve(bs[i], wanted) + bs[i + 1..] else bs
  }

  /** Gives the block at index i back, merged with a free neighbour on either side. */
  ghost function Free(bs: seq<Block>, i: nat): seq<Block>
    requires i < |bs|
  {
    var l := if i > 0 && !bs[i - 1].owned then i - 1 else i;
    var r := if i + 1 < |bs| && !bs[i + 1].owned then i + 1 else i;
    bs[..l] + [Merge(bs, l, i, r)] + bs[r + 1..]
  }

  ghost function Merge(bs: seq<Block>, l: nat, i: nat, r: nat): Block
    requires l <= i <= r < |bs|
  {
    Block(bs[l].start,
          (if l < i then bs[l].size else 0) + bs[i].size + (if i < r then bs[r].size else 0), false)
  }

  /** The heap prvHeapInit builds: one free block. */
  ghost function Initial(lo: int, hi: int): seq<Block> {
    [Block(lo, hi - lo, false)]
  }

  // ---------------------------------------------------------------- tiling

  lemma {:induction false} TilesConcat(a: seq<Block>, b: seq<Block>, lo: int, mid: int, hi: int)
    requires Tiles(a, lo, mid) && Tiles(b, mid, hi)
    ensures Tiles(a + b, lo, hi)
  {
    if a == [] {
      assert a + b == b;
    } else {
      TilesConcat(a[1..], b, lo + a[0].size, mid, hi);
      assert (a + b)[1..] == a[1..] + b;
    }
  }

  lemma {:induction false} TilesSplit(a: seq<Block>, b: seq<Block>, lo: int, hi: int) returns (mid: int)
    requires Tiles(a + b, lo, hi)
    ensures Tiles(a, lo, mid) && Tiles(b, mid, hi)
    ensures lo <= mid <= hi
    ensures b != [] ==> mid == b[0].start
  {
    if a == [] {
      assert a + b == b;
      mid := lo;
      TilesBound(b, lo, hi);
    } else {
      assert (a + b)[1..] == a[1..] + b;
      mid := TilesSplit(a[1..], b, lo + a[0].size, hi);
    }
  }

  lemma {:induction false} TilesBound(bs: seq<Block>, lo: int, hi: int)
    requires Tiles(bs, lo, hi)
    ensures lo <= hi && (bs == [] <==> lo == hi)
    ensures forall b :: b in bs ==> lo <= b.start < b.start + b.size <= hi
  {
    if bs != [] {
      TilesBound(bs[1..], lo + bs[0].size, hi);
      assert bs == [bs[0]] + bs[1..];
    }
  }

  /** Blocks lie in address order. */
  lemma {:induction false} TilesOrdered(bs: seq<Block>, lo: int, hi: int, i: nat, j: nat)
    requires Tiles(bs, lo, hi) && i < j < |bs|
    ensures bs[i].start + bs[i].size <= bs[j].start
    ensures j == i + 1 ==> bs[i].start + bs[i].size == bs[j].start
  {
    if i == 0 {
      TilesBound(bs[1..], lo + bs[0].size, hi);
      assert bs[j] == bs[1..][j - 1];
    } else {
      TilesOrdered(bs[1..], lo + bs[0].size, hi, i - 1, j - 1);
    }
  }

  lemma DistinctStarts(bs: seq<Block>, lo: int, hi: int, i: nat, j: nat)
    requires Tiles(bs, lo, hi) && i < |bs| && j < |bs| && i != j
    ensures bs[i].start != bs[j].start
  {
    TilesBound(bs, lo, hi);
    assert bs[i] in bs && bs[j] in bs;
    if i < j { TilesOrdered(bs, lo, hi, i, j); } else { TilesOrdered(bs, lo, hi, j, i); }
  }

  lemma SplitAt(bs: seq<Block>, i: nat, lo: int, hi: int) returns (end: int)
    requires Tiles(bs, lo, hi) && i < |bs|
    ensures Tiles(bs[..i], lo, bs[i].start)
    ensures end == bs[i].start + bs[i].size && bs[i].size > 0 && Tiles(bs[i + 1..], end, hi)
    ensures lo <= bs[i].start && end <= hi
  {
    assert bs == bs[..i] + bs[i..];
    var mid := TilesSplit(bs[..i], bs[i..], lo, hi);
    assert bs[i..][1..] == bs[i + 1..];
    end := bs[i].start + bs[i].size;
    TilesBound(bs, lo, hi);
  }

  lemma {:induction false} FreeBytesConcat(a: seq<Block>, b: seq<Block>)
    ensures FreeBytes(a + b) == FreeBytes(a) + FreeBytes(b)
  {
    if a == [] {
      assert a + b == b;
    } else {
      FreeBytesConcat(a[1..], b);
      assert (a + b)[1..] == a[1..] + b;
    }
  }

  lemma FreeBytesReplace(a: seq<Block>, b: seq<Block>, c: seq<Block>)
    ensures FreeBytes(a + b + c) == FreeBytes(a) + FreeBytes(b) + FreeBytes(c)
  {
    FreeBytesConcat(a + b, c);
    FreeBytesConcat(a, b);
  }

  lemma FreeBytesExchange(bs: seq<Block>, i: nat, j: nat, mid: seq<Block>)
    requires i <= j <= |bs|
    ensures FreeBytes(bs[..i] + mid + bs[j..]) == FreeBytes(bs) - FreeBytes(bs[i..j]) + FreeBytes(mid)
  {
    FreeBytesReplace(bs[..i], mid, bs[j..]);
    FreeBytesReplace(bs[..i], bs[i..j], bs[j..]);
    assert bs[..i] + bs[i..j] + bs[j..] == bs;
  }

  lemma FreeBytesOne(b: Block)
    ensures FreeBytes([b]) == if b.owned then 0 else b.size
  {
    assert [b][1..] == [];
  }

  lemma FreeBytesSmall(bs: seq<Block>)
    requires 1 <= |bs| <= 3
    ensures FreeBytes(bs) ==
            (if bs[0].owned then 0 else bs[0].size)
            + (if |bs| > 1 && !bs[1].owned then bs[1].size else 0)
            + (if |bs| > 2 && !bs[2].owned then bs[2].size else 0)
  {
    if |bs| == 1 {
      assert bs[1..] == [];
    } else {
      assert bs[1..][0] == bs[1];
      FreeBytesSmall(bs[1..]);
    }
  }

  // ---------------------------------------------------------------- requests

  /** Rounding succeeds exactly when the least multiple of 8 that holds the request and the eight
      bytes of its header fits a 32-bit size_t, and then it is that multiple. */
  lemma WantedSizeIsLeast(request: nat, least: nat)
    requires request <= 0xFFFF_FFFF
    requires least % 8 == 0 && request + 8 <= least < request + 16
    ensures WantedSize(request) == if request > 0 && least <= 0xFFFF_FFFF then least else 0
  {
    var size := request + HEADER_SIZE;
    var k := least / ALIGNMENT;
    assert least == k * ALIGNMENT;
    if size % ALIGNMENT == 0 {
      assert least == size;
    } else {
      assert least == size + (ALIGNMENT - size % ALIGNMENT);
    }
  }

  lemma WantedSizeBounds(request: nat)
    requires request <= 0xFFFF_FFFF
    ensures WantedSize(request) > 0 ==> WantedSize(request) % 8 == 0 && request + 8 <= WantedSize(request) < request + 16
  {
    var over := (request + 8) % 8;
    var least := if over == 0 then request + 8 else request + 16 - over;
    WantedSizeIsLeast(request, least);
  }

  /** The block FirstFit names is free, big enough and the lowest such; |bs| means there is none. */
  lemma {:induction false} FirstFitIsLowest(bs: seq<Block>, wanted: int)
    ensures FirstFit(bs, wanted) <= |bs|
    ensures FirstFit(bs, wanted) < |bs| ==>
              var b := bs[FirstFit(bs, wanted)];
              !b.owned && b.size >= wanted
    ensures forall k :: 0 <= k < FirstFit(bs, wanted) ==> bs[k].owned || bs[k].size < wanted
  {
    if bs != [] && (bs[0].owned || bs[0].size < wanted) {
      FirstFitIsLowest(bs[1..], wanted);
      forall k | 0 <= k < FirstFit(bs, wanted)
        ensures bs[k].owned || bs[k].size < wanted
      {
        assert k > 0 ==> bs[k] == bs[1..][k - 1];
      }
    }
  }

  lemma {:induction false} LargestFreeIsMax(bs: seq<Block>)
    ensures forall b :: b in bs && !b.owned ==> b.size <= LargestFree(bs)
    ensures LargestFree(bs) != 0 ==> exists b :: b in bs && !b.owned && b.size == LargestFree(bs)
    ensures LargestFree(bs) >= 0
  {
    if bs != [] {
      LargestFreeIsMax(bs[1..]);
      assert forall b :: b in bs <==> b == bs[0] || b in bs[1..];
    }
  }

  lemma {:induction false} SmallestFreeIsMin(bs: seq<Block>, lo: int, hi: int)
    requires Tiles(bs, lo, hi) && hi - lo < 0xFFFF_FFFF
    ensures forall b :: b in bs && !b.owned ==> SmallestFree(bs) <= b.size
    ensures if FreeBlocks(bs) == [] then SmallestFree(bs) == 0xFFFF_FFFF
            else exists b :: b in bs && !b.owned && b.size == SmallestFree(bs)
  {
    if bs != [] {
      TilesBound(bs, lo, hi);
      TilesBound(bs[1..], lo + bs[0].size, hi);
      SmallestFreeIsMin(bs[1..], lo + bs[0].size, hi);
      assert forall b :: b in bs <==> b == bs[0] || b in bs[1..];
    }
  }

  /** The statistics of a walk, one block further. */
  lemma StatsSnoc(bs: seq<Block>, x: Block)
    ensures FreeBlocks(bs + [x]) == FreeBlocks(bs) + (if x.owned then [] else [x])
    ensures LargestFree(bs + [x]) == (if !x.owned && x.size > LargestFree(bs) then x.size else LargestFree(bs))
    ensures SmallestFree(bs + [x]) == (if !x.owned && x.size < SmallestFree(bs) then x.size else SmallestFree(bs))
  {
    FreeBlocksSnoc(bs, x);
    ExtremesSnoc(bs, x);
  }

  lemma {:induction false} FreeBlocksSnoc(bs: seq<Block>, x: Block)
    ensures FreeBlocks(bs + [x]) == FreeBlocks(bs) + (if x.owned then [] else [x])
  {
    if bs == [] {
      assert [x][1..] == [] && bs + [x] == [x];
    } else {
      assert (bs + [x])[1..] == bs[1..] + [x];
      FreeBlocksSnoc(bs[1..], x);
      var first := if bs[0].owned then [] else [bs[0]];
      assert FreeBlocks(bs) == first + FreeBlocks(bs[1..]);
    }
  }

  lemma {:induction false} ExtremesSnoc(bs: seq<Block>, x: Block)
    ensures LargestFree(bs + [x]) == (if !x.owned && x.size > LargestFree(bs) then x.size else LargestFree(bs))
    ensures SmallestFree(bs + [x]) == (if !x.owned && x.size < SmallestFree(bs) then x.size else SmallestFree(bs))
  {
    if bs == [] {
      assert [x][1..] == [] && bs + [x] == [x];
    } else {
      assert (bs + [x])[1..] == bs[1..] + [x];
      ExtremesSnoc(bs[1..], x);
    }
  }

  /** Completeness: a request is granted if and only if it is not zero, its rounding does not
      overflow, and the rounded size is at most the largest free block. */
  lemma MallocSucceedsIff(bs: seq<Block>, lo: int, hi: int, request: nat)
    requires Inv(bs, lo, hi) && request <= SIZE_MAX
    ensures var wanted := WantedSize(request);
            wanted > 0 && FirstFit(bs, wanted) < |bs| <==> 0 < wanted <= LargestFree(bs)
  {
    var wanted := WantedSize(request);
    FirstFitIsLowest(bs, wanted);
    LargestFreeIsMax(bs);
    if 0 < wanted <= LargestFree(bs) {
      var b :| b in bs && !b.owned && b.size == LargestFree(bs);
      var k :| 0 <= k < |bs| && bs[k] == b;
      assert FirstFit(bs, wanted) <= k;
    }
  }

  /** A free block never has more bytes than all free blocks together. */
  lemma {:induction false} LargestAtMostTotal(bs: seq<Block>, lo: int, hi: int)
    requires Tiles(bs, lo, hi)
    ensures LargestFree(bs) <= FreeBytes(bs)
    ensures 0 <= FreeBytes(bs) <= hi - lo
  {
    if bs != [] {
      LargestAtMostTotal(bs[1..], lo + bs[0].size, hi);
      LargestFreeIsMax(bs[1..]);
    }
  }

  // ---------------------------------------------------------------- invariance

  lemma AlignedSum(a: int, b: int)
    requires a % ALIGNMENT == 0 && b % ALIGNMENT == 0
    ensures (a + b) % ALIGNMENT == 0 && (a - b) % ALIGNMENT == 0
  {
  }

  /** Malloc keeps the invariant and takes exactly the block handed out from the free bytes. */
  lemma MallocInv(bs: seq<Block>, lo: int, hi: int, wanted: int)
    requires Inv(bs, lo, hi) && wanted > 0 && wanted % ALIGNMENT == 0
    ensures Inv(Malloc(bs, wanted), lo, hi)
    ensures var i := FirstFit(bs, wanted);
            i < |bs| ==> FreeBytes(Malloc(bs, wanted)) == FreeBytes(bs) - Malloc(bs, wanted)[i].size
  {
    FirstFitIsLowest(bs, wanted);
    var i := FirstFit(bs, wanted);
    if i < |bs| {
      CarveTiles(bs, lo, hi, i, wanted);
      CarveAligned(bs, i, wanted);
      MallocFreeBytes(bs, i, Carve(bs[i], wanted));
      CarveCoalesced(bs, i, wanted);
    }
  }

  /** No more is handed out than need be: the block taken is at most 16 bytes larger than wanted, and when
      more than that is left over it stays free, directly behind. */
  lemma MallocTakesLittle(bs: seq<Block>, wanted: int)
    requires wanted > 0 && FirstFit(bs, wanted) < |bs|
    ensures var i, after := FirstFit(bs, wanted), Malloc(bs, wanted);
            && i < |after| && after[i].owned && after[i].start == bs[i].start && wanted <= after[i].size <= wanted + 16
            && after[..i] == bs[..i]
            && (bs[i].size <= wanted + 16 ==> after[i].size == bs[i].size && after[i + 1..] == bs[i + 1..])
            && (bs[i].size > wanted + 16 ==>
                  && after[i].size == wanted
                  && after[i + 1..] == [Block(bs[i].start + wanted, bs[i].size - wanted, false)] + bs[i + 1..])
  {
    FirstFitIsLowest(bs, wanted);
    var i, after := FirstFit(bs, wanted), Malloc(bs, wanted);
    var carved := Carve(bs[i], wanted);
    assert after == bs[..i] + carved + bs[i + 1..];
    hide FirstFit, Malloc;
    Around(bs[..i], carved, bs[i + 1..]);
    if |carved| == 2 { assert carved[1..] == [Block(bs[i].start + wanted, bs[i].size - wanted, false)]; }
  }

  lemma Around(a: seq<Block>, m: seq<Block>, b: seq<Block>)
    requires m != []
    ensures var s := a + m + b;
            |a| < |s| && s[|a|] == m[0] && s[..|a|] == a && s[|a| + 1..] == m[1..] + b
  {
  }

  lemma CarveCoalesced(bs: seq<Block>, i: nat, wanted: int)
    requires Coalesced(bs) && i < |bs| && !bs[i].owned
    ensures Coalesced(bs[..i] + Carve(bs[i], wanted) + bs[i + 1..])
  {
    var carved := Carve(bs[i], wanted);
    var after := bs[..i] + carved + bs[i + 1..];
    assert i + 1 < |bs| ==> bs[i + 1].owned;
    forall k | 0 <= k < |after| - 1 ensures after[k].owned || after[k + 1].owned {
      if k + 1 < i {
        assert after[k] == bs[k] && after[k + 1] == bs[k + 1];
      } else if k >= i + |carved| {
        assert after[k] == bs[k + 1 - |carved|] && after[k + 1] == bs[k + 2 - |carved|];
      }
    }
  }

  lemma CarveTiles(bs: seq<Block>, lo: int, hi: int, i: nat, wanted: int)
    requires Tiles(bs, lo, hi) && i < |bs| && 0 < wanted <= bs[i].size
    ensures Tiles(bs[..i] + Carve(bs[i], wanted) + bs[i + 1..], lo, hi)
  {
    var end := SplitAt(bs, i, lo, hi);
    var carved := Carve(bs[i], wanted);
    if |carved| == 2 { assert carved[1..] == [carved[1]] && carved[1..][1..] == []; }
    assert Tiles(carved, bs[i].start, end);
    TilesConcat(bs[..i], carved, lo, bs[i].start, end);
    TilesConcat(bs[..i] + carved, bs[i + 1..], lo, end, hi);
  }

  lemma CarveAligned(bs: seq<Block>, i: nat, wanted: int)
    requires Aligned(bs) && i < |bs| && wanted % ALIGNMENT == 0
    ensures Aligned(bs[..i] + Carve(bs[i], wanted) + bs[i + 1..])
  {
    assert bs[i] in bs;
    AlignedSum(bs[i].start, wanted);
    AlignedSum(bs[i].size, wanted);
  }

  lemma MallocFreeBytes(bs: seq<Block>, i: nat, carved: seq<Block>)
    requires i < |bs| && !bs[i].owned
    requires |carved| == 1 || |carved| == 2
    requires carved[0].owned && (|carved| == 2 ==> !carved[1].owned)
    requires bs[i].size == carved[0].size + (if |carved| == 2 then carved[1].size else 0)
    ensures FreeBytes(bs[..i] + carved + bs[i + 1..]) == FreeBytes(bs) - carved[0].size
  {
    FreeBytesExchange(bs, i, i + 1, carved);
    assert bs[i..i + 1] == [bs[i]];
    FreeBytesOne(bs[i]);
    FreeBytesSmall(carved);
  }

  /** Free keeps the invariant, gives exactly the block's bytes back and removes exactly that
      block from the live ones. */
  lemma FreeInv(bs: seq<Block>, lo: int, hi: int, i: nat)
    requires Inv(bs, lo, hi) && i < |bs| && bs[i].owned
    ensures Inv(Free(bs, i), lo, hi)
    ensures FreeBytes(Free(bs, i)) == FreeBytes(bs) + bs[i].size
    ensures Live(Free(bs, i)) == Live(bs) - {bs[i]}
  {
    var l, r := FreeShape(bs, i);
    hide Free, Tiles, FreeBytes, Live, Merge, Coalesced, Aligned;
    MergeTiles(bs, lo, hi, l, i, r);
    FreeAligned(bs, l, i, r);
    FreeBytesBack(bs, l, i, r);
    FreeLive(bs, lo, hi, l, i, r);
    FreeCoalesced(bs, i);
  }

  /** The neighbours a freed block is merged with. */
  lemma FreeShape(bs: seq<Block>, i: nat) returns (l: nat, r: nat)
    requires i < |bs|
    ensures l <= i <= r < |bs| && i - l <= 1 && r - i <= 1
    ensures (l < i ==> !bs[l].owned) && (i < r ==> !bs[r].owned)
    ensures Free(bs, i) == bs[..l] + [Merge(bs, l, i, r)] + bs[r + 1..]
  {
    l := if i > 0 && !bs[i - 1].owned then i - 1 else i;
    r := if i + 1 < |bs| && !bs[i + 1].owned then i + 1 else i;
  }

  lemma FreeCoalesced(bs: seq<Block>, i: nat)
    requires Coalesced(bs) && i < |bs| && bs[i].owned
    ensures Coalesced(Free(bs, i))
  {
    var l := if i > 0 && !bs[i - 1].owned then i - 1 else i;
    var r := if i + 1 < |bs| && !bs[i + 1].owned then i + 1 else i;
    var after := Free(bs, i);
    assert l > 0 ==> bs[l - 1].owned;
    assert r + 1 < |bs| ==> bs[r + 1].owned;
    forall k | 0 <= k < |after| - 1 ensures after[k].owned || after[k + 1].owned {
      if k + 1 < l {
        assert after[k] == bs[k] && after[k + 1] == bs[k + 1];
      } else if k > l {
        assert after[k] == bs[k - l + r] && after[k + 1] == bs[k + 1 - l + r];
      }
    }
  }

  lemma MergeTiles(bs: seq<Block>, lo: int, hi: int, l: nat, i: nat, r: nat)
    requires Tiles(bs, lo, hi) && l <= i <= r < |bs| && i - l <= 1 && r - i <= 1
    ensures Tiles(bs[..l] + [Merge(bs, l, i, r)] + bs[r + 1..], lo, hi)
  {
    var m := Merge(bs, l, i, r);
    var endL := SplitAt(bs, l, lo, hi);
    var endI := SplitAt(bs, i, lo, hi);
    var endR := SplitAt(bs, r, lo, hi);
    if l < i { TilesOrdered(bs, lo, hi, l, i); }
    if i < r { TilesOrdered(bs, lo, hi, i, r); }
    assert Tiles([m], m.start, endR) by { assert [m][1..] == []; }
    TilesConcat(bs[..l], [m], lo, m.start, endR);
    TilesConcat(bs[..l] + [m], bs[r + 1..], lo, endR, hi);
  }

  lemma FreeAligned(bs: seq<Block>, l: nat, i: nat, r: nat)
    requires Aligned(bs) && l <= i <= r < |bs|
    ensures Aligned(bs[..l] + [Merge(bs, l, i, r)] + bs[r + 1..])
  {
    assert bs[l] in bs && bs[i] in bs && bs[r] in bs;
    AlignedSum(bs[l].size, bs[i].size);
    AlignedSum(bs[i].size, bs[r].size);
    AlignedSum(bs[l].size + bs[i].size, bs[r].size);
  }

  lemma FreeBytesMerged(bs: seq<Block>, l: nat, i: nat, r: nat)
    requires l <= i <= r < |bs| && i - l <= 1 && r - i <= 1
    requires bs[i].owned && (l < i ==> !bs[l].owned) && (i < r ==> !bs[r].owned)
    ensures FreeBytes(bs[l..r + 1]) + bs[i].size == Merge(bs, l, i, r).size
  {
    var mid := bs[l..r + 1];
    FreeBytesSmall(mid);
    assert mid[0] == bs[l] && mid[|mid| - 1] == bs[r] && mid[i - l] == bs[i];
  }

  lemma FreeBytesBack(bs: seq<Block>, l: nat, i: nat, r: nat)
    requires l <= i <= r < |bs| && i - l <= 1 && r - i <= 1
    requires bs[i].owned && (l < i ==> !bs[l].owned) && (i < r ==> !bs[r].owned)
    ensures FreeBytes(bs[..l] + [Merge(bs, l, i, r)] + bs[r + 1..]) == FreeBytes(bs) + bs[i].size
  {
    hide FreeBytes;
    var m := Merge(bs, l, i, r);
    var whole, mid, now := FreeBytes(bs), FreeBytes(bs[l..r + 1]), FreeBytes(bs[..l] + [m] + bs[r + 1..]);
    assert now == whole - mid + m.size by {
      FreeBytesExchange(bs, l, r + 1, [m]);
      FreeBytesOne(m);
    }
    assert mid + bs[i].size == m.size by { FreeBytesMerged(bs, l, i, r); }
  }

  lemma FreeLive(bs: seq<Block>, lo: int, hi: int, l: nat, i: nat, r: nat)
    requires Tiles(bs, lo, hi) && l <= i <= r < |bs| && i - l <= 1 && r - i <= 1
    requires bs[i].owned && (l < i ==> !bs[l].owned) && (i < r ==> !bs[r].owned)
    ensures Live(bs[..l] + [Merge(bs, l, i, r)] + bs[r + 1..]) == Live(bs) - {bs[i]}
  {
    var after := bs[..l] + [Merge(bs, l, i, r)] + bs[r + 1..];
    forall b | b in Live(after) ensures b in Live(bs) && b != bs[i] {
      assert b in bs[..l] || b in bs[r + 1..];
      var k :| 0 <= k < |bs| && k != i && bs[k] == b;
      DistinctStarts(bs, lo, hi, k, i);
    }
    forall b | b in Live(bs) && b != bs[i] ensures b in Live(after) {
      var k :| 0 <= k < |bs| && bs[k] == b;
      if k < l { assert after[k] == b; } else { assert k > r; assert after[k - r + l] == b; }
    }
  }

  // ---------------------------------------------------------------- canonicity

  /** History independence: the live blocks determine the whole heap.  Two reachable heaps over
      the same region with the same live blocks have the same free list. */
  lemma {:induction false} LiveDeterminesHeap(bs: seq<Block>, cs: seq<Block>, lo: int, hi: int)
    requires Tiles(bs, lo, hi) && Coalesced(bs)
    requires Tiles(cs, lo, hi) && Coalesced(cs)
    requires Live(bs) == Live(cs)
    ensures bs == cs
    decreases |bs|
  {
    TilesBound(bs, lo, hi);
    TilesBound(cs, lo, hi);
    if bs != [] {
      HeadsAgree(bs, cs, lo, hi);
      HeadsAgree(cs, bs, lo, hi);
      TailLive(bs, lo, hi);
      TailLive(cs, lo, hi);
      LiveDeterminesHeap(bs[1..], cs[1..], lo + bs[0].size, hi);
      assert bs == [bs[0]] + bs[1..] && cs == [cs[0]] + cs[1..];
    }
  }

  lemma TailLive(bs: seq<Block>, lo: int, hi: int)
    requires Tiles(bs, lo, hi) && bs != []
    ensures Live(bs[1..]) == Live(bs) - {bs[0]}
  {
    TilesBound(bs[1..], lo + bs[0].size, hi);
    assert forall b :: b in bs <==> b == bs[0] || b in bs[1..];
  }

  lemma HeadsAgree(bs: seq<Block>, cs: seq<Block>, lo: int, hi: int)
    requires Tiles(bs, lo, hi) && Coalesced(bs) && bs != []
    requires Tiles(cs, lo, hi) && Coalesced(cs) && cs != []
    requires Live(bs) == Live(cs)
    ensures bs[0].owned ==> bs[0] == cs[0]
    ensures !bs[0].owned && !cs[0].owned ==> cs[0].size <= bs[0].size
  {
    TilesBound(bs[1..], lo + bs[0].size, hi);
    TilesBound(cs[1..], lo + cs[0].size, hi);
    assert forall b :: b in cs <==> b == cs[0] || b in cs[1..];
    if bs[0].owned {
      assert bs[0] in Live(bs);
      assert bs[0] in Live(cs);
    } else if !cs[0].owned && |bs| > 1 {
      assert bs[1] == bs[1..][0] && bs[1].start == lo + bs[0].size;
      assert bs[1] in Live(bs);
      assert bs[1] in Live(cs);
    }
  }

  /** Malloc then free of the block handed out restores the heap exactly. */
  lemma MallocThenFree(bs: seq<Block>, lo: int, hi: int, wanted: int)
    requires Inv(bs, lo, hi) && wanted > 0 && wanted % ALIGNMENT == 0
    requires FirstFit(bs, wanted) < |bs|
    ensures var i := FirstFit(bs, wanted);
            Malloc(bs, wanted)[i].owned && Free(Malloc(bs, wanted), i) == bs
  {
    var i := FirstFit(bs, wanted);
    FirstFitIsLowest(bs, wanted);
    var after := Malloc(bs, wanted);
    MallocInv(bs, lo, hi, wanted);
    FreeInv(after, lo, hi, i);
    MallocLive(bs, lo, hi, wanted);
    forall b | b in Live(bs) ensures b.start != after[i].start {
      var k :| 0 <= k < |bs| && bs[k] == b;
      DistinctStarts(bs, lo, hi, k, i);
    }
    LiveDeterminesHeap(Free(after, i), bs, lo, hi);
  }

  /** The same through the pointers: freeing the address eight bytes behind the start of the block, which is
      what the allocation returned, restores the heap. */
  lemma AllocateAndRelease(bs: seq<Block>, lo: int, hi: int, request: nat, pv: int)
    requires Inv(bs, lo, hi) && lo > 0 && request <= 0xFFFF_FFFF
    requires WantedSize(request) > 0 && FirstFit(bs, WantedSize(request)) < |bs|
    requires pv == bs[FirstFit(bs, WantedSize(request))].start + 8
    ensures Legal(bs, MallocCall(request)) && Legal(Step(bs, MallocCall(request)), FreeCall(pv))
    ensures Step(Step(bs, MallocCall(request)), FreeCall(pv)) == bs
  {
    WantedSizeBounds(request);
    ReleaseFinds(bs, lo, hi, WantedSize(request), pv);
    hide WantedSize, FirstFit, Malloc, Inv, Free, LiveAt;
  }

  lemma ReleaseFinds(bs: seq<Block>, lo: int, hi: int, wanted: int, pv: int)
    requires Inv(bs, lo, hi) && lo > 0 && wanted > 0 && wanted % 8 == 0 && FirstFit(bs, wanted) < |bs|
    requires pv == bs[FirstFit(bs, wanted)].start + 8
    ensures pv > 0 && LiveAt(Malloc(bs, wanted), pv) < |Malloc(bs, wanted)|
    ensures Free(Malloc(bs, wanted), LiveAt(Malloc(bs, wanted), pv)) == bs
  {
    FoundAgain(bs, lo, hi, wanted);
    StartsAbove(bs, lo, hi, FirstFit(bs, wanted));
    hide FirstFit, Malloc, Inv, Free, LiveAt;
  }

  lemma StartsAbove(bs: seq<Block>, lo: int, hi: int, i: nat)
    requires Tiles(bs, lo, hi) && i < |bs|
    ensures lo <= bs[i].start
  {
    var end := SplitAt(bs, i, lo, hi);
  }

  lemma FoundAgain(bs: seq<Block>, lo: int, hi: int, wanted: int)
    requires Inv(bs, lo, hi) && wanted > 0 && wanted % ALIGNMENT == 0 && FirstFit(bs, wanted) < |bs|
    ensures var i, after := FirstFit(bs, wanted), Malloc(bs, wanted);
            i < |after| && LiveAt(after, bs[i].start + 8) == i && Free(after, i) == bs
  {
    MallocThenFree(bs, lo, hi, wanted);
    MallocInv(bs, lo, hi, wanted);
    MallocLive(bs, lo, hi, wanted);
    hide FirstFit, Malloc, Free, LiveAt;
    LiveAtIs(Malloc(bs, wanted), lo, hi, FirstFit(bs, wanted));
  }

  lemma LiveAtIs(bs: seq<Block>, lo: int, hi: int, i: nat)
    requires Tiles(bs, lo, hi) && i < |bs| && bs[i].owned
    ensures LiveAt(bs, bs[i].start + 8) == i
  {
    LiveAtIsLive(bs, bs[i].start + 8);
    var k := LiveAt(bs, bs[i].start + 8);
    hide LiveAt, Tiles;
    if k != i { DistinctStarts(bs, lo, hi, k, i); }
  }

  /** Malloc adds exactly one live block and disturbs no other. */
  lemma MallocLive(bs: seq<Block>, lo: int, hi: int, wanted: int)
    requires Inv(bs, lo, hi) && wanted > 0
    requires FirstFit(bs, wanted) < |bs|
    ensures var i := FirstFit(bs, wanted);
            && i < |Malloc(bs, wanted)|
            && Malloc(bs, wanted)[i].start == bs[i].start
            && Live(Malloc(bs, wanted)) == Live(bs) + {Malloc(bs, wanted)[i]}
  {
    var i := FirstFit(bs, wanted);
    FirstFitIsLowest(bs, wanted);
    var carved := Carve(bs[i], wanted);
    var after := bs[..i] + carved + bs[i + 1..];
    assert after[i] == carved[0];
    forall b | b in Live(after) ensures b in Live(bs) + {after[i]} {
      assert b in bs[..i] || b in carved || b in bs[i + 1..];
    }
    forall b | b in Live(bs) ensures b in Live(after) {
      var k :| 0 <= k < |bs| && bs[k] == b;
      if k < i { assert after[k] == b; } else { assert k > i && after[k - 1 + |carved|] == b; }
    }
  }

  /** Nothing live means one free block: the heap prvHeapInit built. */
  lemma AllFreedIsInitial(bs: seq<Block>, lo: int, hi: int)
    requires Inv(bs, lo, hi) && lo < hi && Live(bs) == {}
    ensures bs == Initial(lo, hi)
  {
    assert Tiles(Initial(lo, hi), lo, hi) by { assert Initial(lo, hi)[1..] == []; }
    LiveDeterminesHeap(bs, Initial(lo, hi), lo, hi);
  }

  // ---------------------------------------------------------------- runs

  datatype Call = MallocCall(request: nat) | FreeCall(pv: int)

  /** The index of the live block whose payload starts at pv, |bs| when there is none. */
  ghost function LiveAt(bs: seq<Block>, pv: int): nat {
    if bs == [] then 0
    else if bs[0].owned && bs[0].start + HEADER_SIZE == pv then 0
    else 1 + LiveAt(bs[1..], pv)
  }

  /** A call the program is entitled to make: freeing NULL or a pointer malloc handed out. */
  ghost predicate Legal(bs: seq<Block>, call: Call) {
    match call
    case MallocCall(request) => request <= SIZE_MAX
    case FreeCall(pv) => pv == 0 || LiveAt(bs, pv) < |bs|
  }

  ghost function Step(bs: seq<Block>, call: Call): seq<Block>
    requires Legal(bs, call)
  {
    match call
    case MallocCall(request) =>
      if WantedSize(request) > 0 then Malloc(bs, WantedSize(request)) else bs
    case FreeCall(pv) =>
      if pv == 0 then bs else Free(bs, LiveAt(bs, pv))
  }

  ghost predicate Reaches(bs: seq<Block>, calls: seq<Call>, cs: seq<Block>)
    decreases |calls|
  {
    if calls == [] then bs == cs
    else Legal(bs, calls[0]) && Reaches(Step(bs, calls[0]), calls[1..], cs)
  }

  lemma {:induction false} LiveAtIsLive(bs: seq<Block>, pv: int)
    ensures LiveAt(bs, pv) < |bs| ==>
              bs[LiveAt(bs, pv)].owned && bs[LiveAt(bs, pv)].start + HEADER_SIZE == pv
    ensures LiveAt(bs, pv) <= |bs|
    ensures forall k :: 0 <= k < |bs| && bs[k].owned && bs[k].start + HEADER_SIZE == pv ==>
              LiveAt(bs, pv) <= k
  {
    if bs != [] && !(bs[0].owned && bs[0].start + HEADER_SIZE == pv) {
      LiveAtIsLive(bs[1..], pv);
      forall k | 0 <= k < |bs| && bs[k].owned && bs[k].start + HEADER_SIZE == pv
        ensures LiveAt(bs, pv) <= k
      {
        assert k > 0 && bs[k] == bs[1..][k - 1];
      }
    }
  }

  lemma StepInv(bs: seq<Block>, lo: int, hi: int, call: Call)
    requires Inv(bs, lo, hi) && Legal(bs, call)
    ensures Inv(Step(bs, call), lo, hi)
  {
    match call
    case MallocCall(request) =>
      WantedSizeBounds(request);
      if WantedSize(request) > 0 { MallocInv(bs, lo, hi, WantedSize(request)); }
    case FreeCall(pv) =>
      LiveAtIsLive(bs, pv);
      if pv != 0 { FreeInv(bs, lo, hi, LiveAt(bs, pv)); }
  }

  /** Every heap any run of malloc and free reaches tiles the region with coalesced, aligned
      blocks; and once nothing is live, in whatever order the blocks were freed, it is again the
      single block of prvHeapInit. */
  lemma {:induction false} ReachableInv(bs: seq<Block>, lo: int, hi: int, calls: seq<Call>, cs: seq<Block>)
    requires Inv(bs, lo, hi) && lo < hi && Reaches(bs, calls, cs)
    ensures Inv(cs, lo, hi)
    ensures Live(cs) == {} ==> cs == Initial(lo, hi)
    decreases |calls|
  {
    if calls == [] {
      if Live(cs) == {} { AllFreedIsInitial(cs, lo, hi); }
    } else {
      StepInv(bs, lo, hi, calls[0]);
      ReachableInv(Step(bs, calls[0]), lo, hi, calls[1..], cs);
    }
  }

  lemma InitialInv(lo: int, hi: int)
    requires lo < hi && lo % ALIGNMENT == 0 && hi % ALIGNMENT == 0
    ensures Inv(Initial(lo, hi), lo, hi)
  {
    assert Initial(lo, hi)[1..] == [];
    AlignedSum(hi, lo);
  }

  /** Two runs from the fresh heap that leave the same blocks live leave the same heap: no order of
      allocations and frees fragments it differently. */
  lemma HistoryIndependence(lo: int, hi: int, calls: seq<Call>, bs: seq<Block>, calls': seq<Call>, cs: seq<Block>)
    requires lo < hi && lo % ALIGNMENT == 0 && hi % ALIGNMENT == 0
    requires Reaches(Initial(lo, hi), calls, bs) && Reaches(Initial(lo, hi), calls', cs)
    requires Live(bs) == Live(cs)
    ensures bs == cs
  {
    InitialInv(lo, hi);
    ReachableInv(Initial(lo, hi), lo, hi, calls, bs);
    ReachableInv(Initial(lo, hi), lo, hi, calls', cs);
    LiveDeterminesHeap(bs, cs, lo, hi);
  }

  // ---------------------------------------------------------------- the free list as gaps

  ghost predicate Covered(bs: seq<Block>, a: int) {
    exists b :: b in bs && b.owned && b.start <= a < b.start + b.size
  }

  /** [from, to) is a maximal stretch of the region that no live block covers. */
  ghost predicate MaximalGap(bs: seq<Block>, lo: int, hi: int, from: int, to: int) {
    && lo <= from < to <= hi
    && (forall a :: from <= a < to ==> !Covered(bs, a))
    && (from == lo || Covered(bs, from - 1))
    && (to == hi || Covered(bs, to))
  }

  /** Every address of the region is in exactly one block. */
  lemma {:induction false} Covering(bs: seq<Block>, lo: int, hi: int, a: int) returns (i: nat)
    requires Tiles(bs, lo, hi) && lo <= a < hi
    ensures i < |bs| && bs[i].start <= a < bs[i].start + bs[i].size
    ensures Covered(bs, a) <==> bs[i].owned
  {
    TilesBound(bs[1..], lo + bs[0].size, hi);
    if a < lo + bs[0].size {
      i := 0;
      assert forall b :: b in bs <==> b == bs[0] || b in bs[1..];
    } else {
      var j := Covering(bs[1..], lo + bs[0].size, hi, a);
      i := j + 1;
      assert forall b :: b in bs <==> b == bs[0] || b in bs[1..];
      assert Covered(bs, a) <==> Covered(bs[1..], a);
    }
  }

  lemma {:induction false} FreeBlocksMembers(bs: seq<Block>)
    ensures forall b :: b in FreeBlocks(bs) <==> b in bs && !b.owned
  {
    if bs != [] {
      FreeBlocksMembers(bs[1..]);
      assert forall b :: b in bs <==> b == bs[0] || b in bs[1..];
    }
  }

  /** The free list is exactly the set of maximal gaps between the live blocks. */
  lemma FreeListIsGaps(bs: seq<Block>, lo: int, hi: int, from: int, to: int)
    requires Inv(bs, lo, hi)
    ensures Block(from, to - from, false) in FreeBlocks(bs) <==> MaximalGap(bs, lo, hi, from, to)
  {
    hide MaximalGap, FreeBlocks, Tiles, Coalesced, Aligned;
    FreeBlocksMembers(bs);
    var b := Block(from, to - from, false);
    if b in bs {
      var i :| 0 <= i < |bs| && bs[i] == b;
      FreeBlockIsGap(bs, lo, hi, i);
    }
    if MaximalGap(bs, lo, hi, from, to) {
      GapIsFreeBlock(bs, lo, hi, from, to);
    }
  }

  lemma FreeBlockIsGap(bs: seq<Block>, lo: int, hi: int, i: nat)
    requires Tiles(bs, lo, hi) && Coalesced(bs) && i < |bs| && !bs[i].owned
    ensures MaximalGap(bs, lo, hi, bs[i].start, bs[i].start + bs[i].size)
  {
    TilesBound(bs, lo, hi);
    var from, to := bs[i].start, bs[i].start + bs[i].size;
    forall a | from <= a < to ensures !Covered(bs, a) {
      SameBlock(bs, lo, hi, i, a);
    }
    if i > 0 {
      TilesOrdered(bs, lo, hi, i - 1, i);
      assert bs[i - 1] in bs && Covered(bs, from - 1);
    }
    if i + 1 < |bs| {
      TilesOrdered(bs, lo, hi, i, i + 1);
      assert bs[i + 1] in bs && Covered(bs, to);
    } else {
      var end := SplitAt(bs, i, lo, hi);
    }
  }

  lemma SameBlock(bs: seq<Block>, lo: int, hi: int, i: nat, a: int)
    requires Tiles(bs, lo, hi) && i < |bs| && bs[i].start <= a < bs[i].start + bs[i].size
    ensures Covered(bs, a) <==> bs[i].owned
  {
    TilesBound(bs, lo, hi);
    assert bs[i] in bs;
    var j := Covering(bs, lo, hi, a);
    if i < j { TilesOrdered(bs, lo, hi, i, j); } else if j < i { TilesOrdered(bs, lo, hi, j, i); }
  }

  lemma GapIsFreeBlock(bs: seq<Block>, lo: int, hi: int, from: int, to: int)
    requires Tiles(bs, lo, hi) && Coalesced(bs) && MaximalGap(bs, lo, hi, from, to)
    ensures Block(from, to - from, false) in bs
  {
    TilesBound(bs, lo, hi);
    assert !Covered(bs, from);
    var i := Covering(bs, lo, hi, from);
    FreeBlockIsGap(bs, lo, hi, i);
    var start, end := bs[i].start, bs[i].start + bs[i].size;
    assert start <= from - 1 < end ==> !Covered(bs, from - 1);
    assert start <= to < end ==> !Covered(bs, to);
    assert from <= end < to ==> !Covered(bs, end);
    assert bs[i] == Block(from, to - from, false);
  }
}
