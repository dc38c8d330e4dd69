/** heap_4.c over memory: block headers linked through their addresses, proved to keep the free list and
    the live blocks of module HeapBlocks. */
module HeapMemory {
  import opened Arithmetic
  import opened EventLists
  import opened HeapBlocks

  const NULL: nat := 0

  datatype BlockLink = BlockLink(pxNextFreeBlock: nat, xBlockSize: nat)

  /** Addresses with a header that has been written, and the headers. */
  type Memory = map<nat, BlockLink>

  /** The header whose next pointer leads to block `i` of the list; `xStart` is the list's head. */
  function Leading(f: seq<Block>, i: nat, xStart: nat): nat
    requires i <= |f|
  {
    if i == 0 then xStart else f[i - 1].addr
  }

  function Led(f: seq<Block>, i: nat, pxEnd: nat): nat {
    if i < |f| then f[i].addr else pxEnd
  }

  ghost predicate Chain(mem: Memory, f: seq<Block>, xStart: nat, pxEnd: nat) {
    && (forall i :: 0 <= i <= |f| ==> Link(mem, f, i, xStart, pxEnd))
    && (forall i :: 0 <= i < |f| ==> f[i].addr in mem && mem[f[i].addr].xBlockSize == f[i].size)
    && xStart in mem && mem[xStart].xBlockSize == 0
    && pxEnd in mem && mem[pxEnd] == BlockLink(NULL, 0)
  }

  ghost predicate Link(mem: Memory, f: seq<Block>, i: nat, xStart: nat, pxEnd: nat)
    requires i <= |f|
  {
    Leading(f, i, xStart) in mem && mem[Leading(f, i, xStart)].pxNextFreeBlock == Led(f, i, pxEnd)
  }

  /** The list's own headers are distinct, and distinct from the static head and the end marker. */
  ghost predicate Separate(f: seq<Block>, xStart: nat, pxEnd: nat) {
    && Gaps(f) && xStart != pxEnd
    && (forall i :: 0 <= i < |f| ==> f[i].addr != xStart && f[i].End() <= pxEnd)
  }

  /** Only the headers of `x` and of the block leading to it were written. */
  ghost predicate Rewritten(mem: Memory, mem': Memory, f: seq<Block>, i: nat, j: nat, x: Block, xStart: nat, pxEnd: nat)
    requires i <= j <= |f|
  {
    var a := Leading(f, i, xStart);
    && x.addr in mem' && mem'[x.addr] == BlockLink(Led(f, j, pxEnd), x.size)
    && a in mem && a in mem' && mem'[a] == BlockLink(x.addr, mem[a].xBlockSize)
    && (forall b :: b in mem && b != a && b != x.addr ==> b in mem' && mem'[b] == mem[b])
  }

  ghost predicate Spliceable(mem: Memory, mem': Memory, f: seq<Block>, i: nat, j: nat, x: Block, xStart: nat,
        pxEnd: nat) {
    && i <= j <= |f| && Chain(mem, f, xStart, pxEnd) && Separate(f, xStart, pxEnd)
    && x.addr != xStart && x.addr < pxEnd
    && (forall k :: 0 <= k < i ==> f[k].addr < x.addr)
    && (forall k :: j <= k < |f| ==> x.addr < f[k].addr)
    && Rewritten(mem, mem', f, i, j, x, xStart, pxEnd)
  }

  lemma SpliceLink(mem: Memory, mem': Memory, f: seq<Block>, i: nat, j: nat, x: Block, xStart: nat, pxEnd: nat, k: nat)
    requires Spliceable(mem, mem', f, i, j, x, xStart, pxEnd) && k <= i + 1 + |f| - j
    ensures Link(mem', f[..i] + [x] + f[j..], k, xStart, pxEnd)
  {
    var r := f[..i] + [x] + f[j..];
    if k <= i {
      assert Link(mem, f, k, xStart, pxEnd);
      assert Leading(r, k, xStart) == Leading(f, k, xStart);
      assert k < i ==> Led(r, k, pxEnd) == Led(f, k, pxEnd);
    } else if k > i + 1 {
      var m := k - i - 1 + j;
      assert Link(mem, f, m, xStart, pxEnd);
      assert Leading(r, k, xStart) == Leading(f, m, xStart) && Led(r, k, pxEnd) == Led(f, m, pxEnd);
    } else {
      assert Leading(r, k, xStart) == x.addr && Led(r, k, pxEnd) == Led(f, j, pxEnd);
    }
  }

  lemma SpliceSize(mem: Memory, mem': Memory, f: seq<Block>, i: nat, j: nat, x: Block, xStart: nat, pxEnd: nat, k: nat)
    requires Spliceable(mem, mem', f, i, j, x, xStart, pxEnd) && k < i + 1 + |f| - j
    ensures var b := (f[..i] + [x] + f[j..])[k]; b.addr in mem' && mem'[b.addr].xBlockSize == b.size
  {
    var r := f[..i] + [x] + f[j..];
    if k < i {
      assert r[k] == f[k];
    } else if k > i {
      assert r[k] == f[k - i - 1 + j];
    }
  }

  /** Replacing blocks i to j - 1 of the list by `x`. */
  lemma ChainSplice(mem: Memory, mem': Memory, f: seq<Block>, i: nat, j: nat, x: Block, xStart: nat, pxEnd: nat)
    requires Spliceable(mem, mem', f, i, j, x, xStart, pxEnd)
    ensures Chain(mem', f[..i] + [x] + f[j..], xStart, pxEnd)
  {
    var r := f[..i] + [x] + f[j..];
    forall k | 0 <= k <= |r| ensures Link(mem', r, k, xStart, pxEnd) {
      SpliceLink(mem, mem', f, i, j, x, xStart, pxEnd, k);
    }
    forall k | 0 <= k < |r| ensures r[k].addr in mem' && mem'[r[k].addr].xBlockSize == r[k].size {
      SpliceSize(mem, mem', f, i, j, x, xStart, pxEnd, k);
    }
  }

  // What prvInsertBlockIntoFreeList writes, as one splice: blocks From to To - 1 give way to Merged.

  function From(f: seq<Block>, b: Block): nat {
    var p := Place(f, b.addr);
    if TouchesLast(f[..p], b) then p - 1 else p
  }

  function Merged(f: seq<Block>, b: Block): Block {
    var p := Place(f, b.addr);
    MergedFront(MergedBack(f[..p], b), f[p..])
  }

  function To(f: seq<Block>, b: Block): nat {
    var p := Place(f, b.addr);
    if TouchesFirst(MergedBack(f[..p], b), f[p..]) then p + 1 else p
  }

  lemma CoalesceAsSplice(f: seq<Block>, b: Block)
    ensures From(f, b) <= To(f, b) <= |f|
    ensures Coalesce(f, b) == f[..From(f, b)] + [Merged(f, b)] + f[To(f, b)..]
  {
    var p := Place(f, b.addr);
    assert TouchesLast(f[..p], b) ==> f[..p][..p - 1] == f[..p - 1];
    assert p < |f| ==> f[p..][1..] == f[p + 1..];
  }

  lemma SpliceOrdered(f: seq<Block>, b: Block, k: nat)
    requires Gaps(f) && b.size > 0 && Apart(f, b) && k < |f|
    ensures k < From(f, b) ==> f[k].addr < Merged(f, b).addr
    ensures k >= To(f, b) ==> Merged(f, b).addr < f[k].addr
    ensures Merged(f, b).addr <= b.addr && f[k].addr != b.addr
  {
    var p := Place(f, b.addr);
    ApartBlocks(f, b, k);
    if TouchesLast(f[..p], b) {
      assert k < p - 1 ==> f[k].End() < f[p - 1].addr;
    }
  }

  lemma InsertedChain(mem: Memory, mem': Memory, f: seq<Block>, b: Block, xStart: nat, pxEnd: nat)
    requires Chain(mem, f, xStart, pxEnd) && Separate(f, xStart, pxEnd)
    requires b.size > 0 && Apart(f, b) && b.End() <= pxEnd && b.addr != xStart
    requires From(f, b) <= To(f, b) <= |f|
    requires Rewritten(mem, mem', f, From(f, b), To(f, b), Merged(f, b), xStart, pxEnd)
    ensures Chain(mem', Coalesce(f, b), xStart, pxEnd)
  {
    hide Chain, Rewritten;
    var i, j, x := From(f, b), To(f, b), Merged(f, b);
    CoalesceAsSplice(f, b);
    forall n | 0 <= n < |f| ensures (n < i ==> f[n].addr < x.addr) && (n >= j ==> x.addr < f[n].addr) {
      SpliceOrdered(f, b, n);
    }
    MergedInside(f, b, xStart, pxEnd);
    ChainSplice(mem, mem', f, i, j, x, xStart, pxEnd);
  }

  lemma MergedInside(f: seq<Block>, b: Block, xStart: nat, pxEnd: nat)
    requires Separate(f, xStart, pxEnd) && b.size > 0 && b.End() <= pxEnd && b.addr != xStart
    ensures Merged(f, b).addr != xStart && Merged(f, b).addr < pxEnd
  {
  }

  /** Insertion writes no header but the list's own, the head and the block's. */
  lemma OthersKept(mem: Memory, mem': Memory, f: seq<Block>, b: Block, xStart: nat, pxEnd: nat, a: nat)
    requires From(f, b) <= To(f, b) <= |f|
    requires Rewritten(mem, mem', f, From(f, b), To(f, b), Merged(f, b), xStart, pxEnd)
    requires a in mem && a != xStart && a != b.addr && forall i :: 0 <= i < |f| ==> f[i].addr != a
    ensures a in mem' && mem'[a] == mem[a]
  {
  }

  lemma MarkedKept(mem: Memory, mem': Memory, f: seq<Block>, b: Block, xStart: nat, pxEnd: nat, live: map<nat, nat>)
    requires Marked(mem, live) && mem.Keys == mem'.Keys && From(f, b) <= To(f, b) <= |f|
    requires Rewritten(mem, mem', f, From(f, b), To(f, b), Merged(f, b), xStart, pxEnd)
    requires xStart !in live && b.addr !in live && forall i :: 0 <= i < |f| ==> f[i].addr !in live
    requires Merged(f, b).size < ALLOCATED_BIT
    ensures Marked(mem', live)
  {
    forall a | a in live ensures a in mem' && mem'[a] == BlockLink(NULL, ALLOCATED_BIT + live[a]) {
      OthersKept(mem, mem', f, b, xStart, pxEnd, a);
    }
  }

  /** Writing a header that is not the list's own leaves the list alone. */
  lemma ChainElsewhere(mem: Memory, f: seq<Block>, xStart: nat, pxEnd: nat, a: nat, v: BlockLink)
    requires Chain(mem, f, xStart, pxEnd) && a != xStart && a != pxEnd && forall i :: 0 <= i < |f| ==> f[i].addr != a
    ensures Chain(mem[a := v], f, xStart, pxEnd)
  {
    var mem' := mem[a := v];
    forall i | 0 <= i <= |f| ensures Link(mem', f, i, xStart, pxEnd) {
      assert Link(mem, f, i, xStart, pxEnd);
    }
  }

  /** In a tiled heap the headers of live blocks are not those of free ones, and none is outside. */
  lemma LiveHeader(l: Layout, y: Arena, xStart: nat, a: nat)
    requires l.Valid() && Inv(l, y) && (xStart < l.start || l.end < xStart)
    ensures Separate(y.free, xStart, l.end)
    ensures xStart !in y.live && forall i :: 0 <= i < |y.free| ==> y.free[i].addr !in y.live
    ensures a in y.live ==>
              && a != xStart && l.start <= a && a + y.live[a] <= l.end && 0 < y.live[a] < ALLOCATED_BIT
              && Apart(y.free, Block(a, y.live[a]))
  {
    forall i | 0 <= i < |y.free| ensures y.free[i].addr !in y.live {
      NewAddress(l, y, i);
    }
    forall i | 0 <= i < |y.free| ensures y.free[i].addr != xStart && y.free[i].End() <= l.end {
      assert WellPlaced(l, y.free[i]);
    }
    assert xStart in y.live ==> WellPlaced(l, Block(xStart, y.live[xStart]));
    if a in y.live {
      assert WellPlaced(l, Block(a, y.live[a]));
      LiveApart(l, y, Block(a, y.live[a]));
    }
  }

  lemma MergedSmall(l: Layout, y: Arena, f: seq<Block>, b: Block)
    requires l.Valid() && WellPlaced(l, b) && forall i :: 0 <= i < |f| ==> WellPlaced(l, f[i])
    ensures Merged(f, b).size < ALLOCATED_BIT
  {
    CoalesceAsSplice(f, b);
    CoalescePlaced(l, f, b);
    assert Coalesce(f, b)[From(f, b)] == Merged(f, b);
  }

  lemma PlaceUnique(f: seq<Block>, addr: nat, k: nat)
    requires k <= |f| && (forall i :: 0 <= i < k ==> f[i].addr < addr) && (k < |f| ==> addr <= f[k].addr)
    ensures k == Place(f, addr)
  {
    var p := Place(f, addr);
    assert !(k < p) && !(p < k);
  }

  class Heap {
    const l: Layout
    const xStart: nat  // the address of the static list head
    var mem: Memory
    var xFreeBytesRemaining: nat
    var xMinimumEverFreeBytesRemaining: nat
    var xNumberOfSuccessfulAllocations: nat
    var xNumberOfSuccessfulFrees: nat
    ghost var y: Arena

    /** The list head lies outside the heap. */
    ghost predicate Placed()
    {
      l.Valid() && (xStart < l.start || l.end < xStart)
    }

    ghost predicate Valid()
      reads this
    {
      && Placed() && Inv(l, y) && Chain(mem, y.free, xStart, l.end)
      && Marked(mem, y.live)
      && xFreeBytesRemaining == Sum(y.free) && xMinimumEverFreeBytesRemaining == y.minEver
      && xNumberOfSuccessfulAllocations == y.mallocs && xNumberOfSuccessfulFrees == y.frees
    }

    /** prvHeapInit, for a heap array at `ucHeap` that has room for a block between alignment losses. */
    constructor (ucHeap: nat, configTotalHeapSize: nat, align: nat, head: nat)
      requires 0 < align && 0 < ucHeap && ucHeap + configTotalHeapSize < SIZE_MOD && configTotalHeapSize < ALLOCATED_BIT
      requires 4 * align + 16 <= configTotalHeapSize
      requires head < ucHeap || ucHeap + configTotalHeapSize <= head
      ensures Valid() && y == Initial(l) && l.align == align && xStart == head
      ensures ucHeap <= l.start < ucHeap + align && 8 <= l.header < 8 + align
      ensures l.end + l.header <= ucHeap + configTotalHeapSize < l.end + l.header + align
    {
      var pucAlignedHeap, pxEnd, header := Bounds(ucHeap, configTotalHeapSize, align);
      l, xStart := Layout(pucAlignedHeap, pxEnd, align, header), head;
      mem := map[head := BlockLink(pucAlignedHeap, 0), pxEnd := BlockLink(NULL, 0),
                 pucAlignedHeap := BlockLink(pxEnd, pxEnd - pucAlignedHeap)];
      xMinimumEverFreeBytesRemaining := pxEnd - pucAlignedHeap;
      xFreeBytesRemaining := pxEnd - pucAlignedHeap;
      xNumberOfSuccessfulAllocations, xNumberOfSuccessfulFrees := 0, 0;
      y := Initial(Layout(pucAlignedHeap, pxEnd, align, header));
      new;
      InitialInv(l);
    }

    /** The address arithmetic of prvHeapInit. */
    static method Bounds(ucHeap: nat, configTotalHeapSize: nat, align: nat) returns (start: nat, end: nat, header: nat)
      requires 0 < align && 0 < ucHeap && ucHeap + configTotalHeapSize < SIZE_MOD && configTotalHeapSize < ALLOCATED_BIT
      requires 4 * align + 16 <= configTotalHeapSize
      ensures Layout(start, end, align, header).Valid() && end - start >= header
      ensures ucHeap <= start < ucHeap + align && 8 <= header < 8 + align
      ensures end + header <= ucHeap + configTotalHeapSize < end + header + align
    {
      RoundedDown(8 + (align - 1), align);
      header := 8 + (align - 1) - (8 + (align - 1)) % align;
      start := ucHeap;
      var total := configTotalHeapSize;
      if start % align != 0 {
        RoundedUp(ucHeap, align);
        RoundedDown(ucHeap + (align - 1), align);
        start := start + (align - 1);
        start := start - start % align;
        total := total - (start - ucHeap);
      }
      end := start + total;
      end := end - header;
      RoundedDown(end, align);
      end := end - end % align;
    }

    /** pvPortCalloc, without the clearing of the block's bytes. */
    method Calloc(xNum: nat, xSize: nat) returns (pv: nat)
      requires Valid() && xNum < SIZE_MOD && xSize < SIZE_MOD
      modifies this
      ensures Valid()
      ensures if xNum * xSize < SIZE_MOD then (y, pv) == HeapBlocks.Malloc(l, old(y), xNum * xSize)
              else y == old(y) && pv == NULL
    {
      pv := NULL;
      OverflowTest(xNum, xSize);
      if !(xNum > 0 && xSize > (SIZE_MOD - 1) / xNum) {
        pv := Malloc(xNum * xSize);
      }
    }

    /** vPortGetHeapStats. */
    method GetHeapStats() returns (blocks: nat, largest: nat, smallest: nat, available: nat)
      requires Valid()
      ensures blocks == |y.free| && available == Sum(y.free)
      ensures Extremes(y.free, blocks, largest, smallest)
    {
      ghost var f := y.free;
      blocks, largest, smallest := 0, 0, PORT_MAX_DELAY;
      FreeBelowEnd(l, y);
      hide Inv;
      assert Link(mem, f, 0, xStart, l.end);
      var pxBlock := mem[xStart].pxNextFreeBlock;
      while pxBlock != l.end
        invariant blocks <= |f| && pxBlock == Led(f, blocks, l.end)
        invariant Extremes(f, blocks, largest, smallest)
        decreases |f| - blocks
      {
        assert Link(mem, f, blocks + 1, xStart, l.end);
        assert f[blocks].size == mem[pxBlock].xBlockSize;
        ghost var max, min := largest, smallest;
        if mem[pxBlock].xBlockSize > largest {
          largest := mem[pxBlock].xBlockSize;
        }
        if mem[pxBlock].xBlockSize < smallest {
          smallest := mem[pxBlock].xBlockSize;
        }
        ExtremesExtend(f, blocks, max, min);
        blocks := blocks + 1;
        pxBlock := mem[pxBlock].pxNextFreeBlock;
      }
      available := xFreeBytesRemaining;
    }

    /** pvPortMalloc, once the heap is initialised. */
    method Malloc(xWantedSize: nat) returns (pvReturn: nat)
      requires Valid() && xWantedSize < SIZE_MOD
      modifies this
      ensures Valid() && (y, pvReturn) == HeapBlocks.Malloc(l, old(y), xWantedSize)
      ensures pvReturn == NULL ==> y == old(y) && xFreeBytesRemaining == old(xFreeBytesRemaining)
      ensures pvReturn != NULL ==>
                && l.header < pvReturn && pvReturn - l.header in y.live
                && var n := y.live[pvReturn - l.header];
                && xWantedSize + l.header < n <= xWantedSize + l.header + l.align + 2 * l.header
                && xFreeBytesRemaining == old(xFreeBytesRemaining) - n
                && xNumberOfSuccessfulAllocations == old(xNumberOfSuccessfulAllocations) + 1
    {
      hide Inv, Chain, Marked, Rounded, Sum, FirstFit;
      pvReturn := NULL;
      var want := WithHeader(xWantedSize);
      FitsInSum(y.free, want);
      if want < ALLOCATED_BIT {
        if want > 0 && want <= xFreeBytesRemaining {
          var pxPreviousBlock, pxBlock, i := FindFit(want);
          if pxBlock != l.end {
            RoundedFits(l, xWantedSize);
            pvReturn := Allocate(pxPreviousBlock, pxBlock, xWantedSize, want, i);
            assert pvReturn - l.header == pxBlock;
          }
        }
      }
    }

    /** The size with header and padding, or 0 if that does not fit a size_t. */
    method WithHeader(xWantedSize: nat) returns (want: nat)
      requires l.Valid() && xWantedSize < SIZE_MOD
      ensures want == Rounded(l, xWantedSize) < SIZE_MOD
    {
      want := xWantedSize;
      if want > 0 {
        var additional := l.header + l.align - want % l.align;
        HeaderBound(l, want);
        if want > SIZE_MOD - 1 - additional {
          want := 0;
        } else {
          want := want + additional;
        }
      }
    }

    /** The traversal of pvPortMalloc; stops at the end marker when nothing fits. */
    method FindFit(want: nat) returns (pxPreviousBlock: nat, pxBlock: nat, ghost i: nat)
      requires Valid() && 0 < want
      ensures i == FirstFit(y.free, want)
      ensures pxPreviousBlock == Leading(y.free, i, xStart) && pxBlock == Led(y.free, i, l.end)
      ensures pxBlock == l.end <==> i == |y.free|
    {
      ghost var f := y.free;
      i := 0;
      assert Link(mem, f, 0, xStart, l.end);
      pxPreviousBlock := xStart;
      pxBlock := mem[xStart].pxNextFreeBlock;
      LiveHeader(l, y, xStart, 0);
      assert forall k :: 0 <= k < |f| ==> f[k].addr < l.end;
      while mem[pxBlock].xBlockSize < want && mem[pxBlock].pxNextFreeBlock != NULL
        invariant i <= |f| && pxPreviousBlock == Leading(f, i, xStart) && pxBlock == Led(f, i, l.end)
        invariant forall k :: 0 <= k < i ==> f[k].size < want
        decreases |f| - i
      {
        i := i + 1;
        assert Link(mem, f, i, xStart, l.end);
        pxPreviousBlock := pxBlock;
        pxBlock := mem[pxBlock].pxNextFreeBlock;
      }
      if i < |f| {
        assert Link(mem, f, i + 1, xStart, l.end);
        assert Led(f, i + 1, l.end) != NULL by {
          assert forall k :: 0 <= k < |f| ==> WellPlaced(l, f[k]);
        }
      }
      FirstFitUnique(f, want, i);
    }

    /** Takes the block out of the list, splits it if enough is left, and marks it as the application's. */
    method Allocate(pxPreviousBlock: nat, pxBlock: nat, ghost wanted: nat, want: nat, ghost i: nat)
      returns (pvReturn: nat)
      requires Valid() && wanted < SIZE_MOD && want == Rounded(l, wanted) && 0 < want < ALLOCATED_BIT
      requires i == FirstFit(y.free, want) < |y.free|
      requires pxPreviousBlock == Leading(y.free, i, xStart) && pxBlock == y.free[i].addr
      modifies this
      ensures Valid() && (y, pvReturn) == HeapBlocks.Malloc(l, old(y), wanted)
      ensures pvReturn == pxBlock + l.header && 0 < pxBlock && pxBlock in y.live
      ensures y.live[pxBlock] == if old(y).free[i].size - want > 2 * l.header then want else old(y).free[i].size
      ensures xFreeBytesRemaining == old(xFreeBytesRemaining) - y.live[pxBlock]
      ensures xNumberOfSuccessfulAllocations == old(xNumberOfSuccessfulAllocations) + 1
    {
      hide Inv, Chain, Marked, Take, Rounded, WellPlaced, HeapBlocks.Malloc, Granted, FirstFit, Sum, Min, Leading, Led;
      MallocInv(l, y, wanted);
      Allocation(l, y, wanted, want, i);
      ghost var f, n := y.free, Granted(l, y.free[i], want);
      pvReturn := Detach(pxPreviousBlock, pxBlock, want, wanted, i);
      Charge(mem[pxBlock].xBlockSize);
      MarkAllocated(pxBlock, want, wanted, i);
      xNumberOfSuccessfulAllocations := xNumberOfSuccessfulAllocations + 1;
      y := Arena(Take(l, f, i, want), y.live[pxBlock := n], Min(y.minEver, Sum(Take(l, f, i, want))), y.mallocs + 1,
          y.frees);
    }

    /** The block leaves the list, and what is too much of it goes back. */
    method Detach(pxPreviousBlock: nat, pxBlock: nat, want: nat, ghost wanted: nat, ghost i: nat)
      returns (pvReturn: nat)
      requires Valid() && wanted < SIZE_MOD && want == Rounded(l, wanted) && 0 < want < ALLOCATED_BIT
      requires i == FirstFit(y.free, want) < |y.free|
      requires pxPreviousBlock == Leading(y.free, i, xStart) && pxBlock == y.free[i].addr
      modifies this`mem
      ensures pvReturn == pxBlock + l.header
      ensures Chain(mem, Take(l, y.free, i, want), xStart, l.end) && Marked(mem, y.live)
      ensures pxBlock in mem && mem[pxBlock].xBlockSize == Granted(l, y.free[i], want)
    {
      hide Inv, Chain, Marked, Take, Rounded, WellPlaced, FirstFit, Sum, Coalesce, Granted;
      ChainFacts(mem, y.free, i, xStart, l.end);
      pvReturn := mem[pxPreviousBlock].pxNextFreeBlock + l.header;
      CutOut(pxPreviousBlock, pxBlock, i);
      Carve(pxBlock, want, wanted, i);
    }

    /** The free bytes and their minimum. */
    method Charge(xBlockSize: nat)
      requires xBlockSize <= xFreeBytesRemaining
      modifies `xFreeBytesRemaining, `xMinimumEverFreeBytesRemaining
      ensures xFreeBytesRemaining == old(xFreeBytesRemaining) - xBlockSize
      ensures xMinimumEverFreeBytesRemaining == Min(old(xMinimumEverFreeBytesRemaining), xFreeBytesRemaining)
    {
      xFreeBytesRemaining := xFreeBytesRemaining - xBlockSize;
      if xFreeBytesRemaining < xMinimumEverFreeBytesRemaining {
        xMinimumEverFreeBytesRemaining := xFreeBytesRemaining;
      }
    }

    /** The mark of an allocated block. */
    method MarkAllocated(pxBlock: nat, want: nat, ghost wanted: nat, ghost i: nat)
      requires Placed() && Inv(l, y) && wanted < SIZE_MOD && want == Rounded(l, wanted) && 0 < want < ALLOCATED_BIT
      requires i == FirstFit(y.free, want) < |y.free| && pxBlock == y.free[i].addr
      requires Chain(mem, Take(l, y.free, i, want), xStart, l.end) && Marked(mem, y.live)
      requires pxBlock in mem && mem[pxBlock].xBlockSize == Granted(l, y.free[i], want)
      modifies this`mem
      ensures Chain(mem, Take(l, y.free, i, want), xStart, l.end)
      ensures Marked(mem, y.live[pxBlock := Granted(l, y.free[i], want)])
    {
      hide Chain, Marked, Take, Granted, Rounded, Inv;
      TakeFacts(l, y, wanted, want, i, xStart);
      ghost var f, n := Take(l, y.free, i, want), Granted(l, y.free[i], want);
      ChainElsewhere(mem, f, xStart, l.end, pxBlock, BlockLink(NULL, ALLOCATED_BIT + n));
      MarkNew(mem, y.live, pxBlock, n);
      mem := mem[pxBlock := mem[pxBlock].(xBlockSize := mem[pxBlock].xBlockSize + ALLOCATED_BIT)];
      mem := mem[pxBlock := mem[pxBlock].(pxNextFreeBlock := NULL)];
      assert mem == old(mem)[pxBlock := BlockLink(NULL, ALLOCATED_BIT + n)];
    }

    method CutOut(pxPreviousBlock: nat, pxBlock: nat, ghost i: nat)
      requires Valid() && i < |y.free|
      requires pxPreviousBlock == Leading(y.free, i, xStart) && pxBlock == y.free[i].addr
      modifies this`mem
      ensures Chain(mem, RemoveAt(y.free, i), xStart, l.end) && Marked(mem, y.live)
      ensures pxBlock in mem && mem[pxBlock].xBlockSize == y.free[i].size
    {
      LiveHeader(l, y, xStart, 0);
      ChainFacts(mem, y.free, i, xStart, l.end);
      MarkedWrite(mem, y.live, pxPreviousBlock, mem[pxPreviousBlock].(pxNextFreeBlock := mem[pxBlock].pxNextFreeBlock));
      hide Inv, Marked, Separate;
      ChainCut(mem, y.free, i, xStart, l.end);
      mem := mem[pxPreviousBlock := mem[pxPreviousBlock].(pxNextFreeBlock := mem[pxBlock].pxNextFreeBlock)];
    }

    method Carve(pxBlock: nat, want: nat, ghost wanted: nat, ghost i: nat)
      requires Placed() && Inv(l, y) && wanted < SIZE_MOD && want == Rounded(l, wanted) && 0 < want < ALLOCATED_BIT
      requires i == FirstFit(y.free, want) < |y.free| && pxBlock == y.free[i].addr
      requires Chain(mem, RemoveAt(y.free, i), xStart, l.end) && Marked(mem, y.live)
      requires pxBlock in mem && mem[pxBlock].xBlockSize == y.free[i].size
      modifies this`mem
      ensures Chain(mem, Take(l, y.free, i, want), xStart, l.end) && Marked(mem, y.live)
      ensures pxBlock in mem && mem[pxBlock].xBlockSize == Granted(l, y.free[i], want)
      ensures var size := y.free[i].size;
              mem[pxBlock].xBlockSize == if size - want > 2 * l.header then want else size
      ensures var rest, size := RemoveAt(y.free, i), y.free[i].size;
              Chain(mem, if size - want > 2 * l.header then Coalesce(rest, Block(pxBlock + want, size - want))
                  else rest,
                    xStart, l.end)
    {
      hide Inv, Chain, Marked, Rounded, Separate, Rewritten, Merged, From, To, Coalesce, Apart;
      if mem[pxBlock].xBlockSize - want > 2 * l.header {
        ghost var rest, tail := RemoveAt(y.free, i), Block(pxBlock + want, y.free[i].size - want);
        CarveFacts(l, y, wanted, want, i, xStart, rest, tail);
        NewInside(l, y, i, tail.addr);
        LiveHeader(l, y, xStart, 0);
        var pxNew := pxBlock + want;
        var link := BlockLink(if pxNew in mem then mem[pxNew].pxNextFreeBlock else NULL,
                              mem[pxBlock].xBlockSize - want);
        ChainElsewhere(mem, rest, xStart, l.end, pxNew, link);
        MarkedWrite(mem, y.live, pxNew, link);
        mem := mem[pxNew := link];
        ChainElsewhere(mem, rest, xStart, l.end, pxBlock, mem[pxBlock].(xBlockSize := want));
        MarkedWrite(mem, y.live, pxBlock, mem[pxBlock].(xBlockSize := want));
        mem := mem[pxBlock := mem[pxBlock].(xBlockSize := want)];
        ghost var split := mem;
        InsertBlockIntoFreeList(pxNew, rest, tail);
        CoalesceAsSplice(rest, tail);
        OthersKept(split, mem, rest, tail, xStart, l.end, pxBlock);
        MarkedKept(split, mem, rest, tail, xStart, l.end, y.live);
      }
    }

    /** vPortFree. */
    method Release(pv: nat)
      requires Valid() && (pv == NULL || (l.header <= pv && pv - l.header in mem))
      modifies this
      ensures Valid()
      ensures y == if pv != NULL && pv - l.header in old(y).live then Free(old(y), pv - l.header) else old(y)
      ensures if pv != NULL && pv - l.header in old(y).live then
                && y.live == old(y).live - {pv - l.header}
                && xFreeBytesRemaining == old(xFreeBytesRemaining) + old(y).live[pv - l.header]
                && xNumberOfSuccessfulFrees == old(xNumberOfSuccessfulFrees) + 1
              else xFreeBytesRemaining == old(xFreeBytesRemaining)
    {
      hide Inv, Chain;
      if pv != NULL {
        var pxLink := pv - l.header;
        if mem[pxLink].xBlockSize >= ALLOCATED_BIT {
          if mem[pxLink].pxNextFreeBlock == NULL {
            ReleaseBlock(pxLink);
          }
        }
      }
    }

    method ReleaseBlock(pxLink: nat)
      requires Valid() && pxLink in y.live
      modifies this
      ensures Valid() && y == Free(old(y), pxLink) && y.live == old(y).live - {pxLink}
      ensures xFreeBytesRemaining == old(xFreeBytesRemaining) + old(y).live[pxLink]
      ensures xNumberOfSuccessfulFrees == old(xNumberOfSuccessfulFrees) + 1
    {
      hide Inv, Chain, Marked, Coalesce, Separate, Apart, Rewritten, Merged, From, To;
      ghost var b := Block(pxLink, y.live[pxLink]);
      ReadyToFree(l, y, mem, xStart, pxLink);
      mem := mem[pxLink := mem[pxLink].(xBlockSize := mem[pxLink].xBlockSize - ALLOCATED_BIT)];
      ghost var unmarked := mem;
      xFreeBytesRemaining := xFreeBytesRemaining + mem[pxLink].xBlockSize;
      InsertBlockIntoFreeList(pxLink, y.free, b);
      CoalesceAsSplice(y.free, b);
      MarkedKept(unmarked, mem, y.free, b, xStart, l.end, y.live - {pxLink});
      xNumberOfSuccessfulFrees := xNumberOfSuccessfulFrees + 1;
      y := Free(y, pxLink);
    }

    /** prvInsertBlockIntoFreeList. */
    method InsertBlockIntoFreeList(pxBlockToInsert: nat, ghost f: seq<Block>, ghost b: Block)
      requires Placed() && Chain(mem, f, xStart, l.end) && Separate(f, xStart, l.end)
      requires b.size > 0 && Apart(f, b) && b.addr == pxBlockToInsert && b.End() <= l.end && b.addr != xStart
      requires b.addr in mem && mem[b.addr].xBlockSize == b.size
      modifies this`mem
      ensures Rewritten(old(mem), mem, f, From(f, b), To(f, b), Merged(f, b), xStart, l.end)
      ensures Chain(mem, Coalesce(f, b), xStart, l.end) && mem.Keys == old(mem).Keys
    {
      var pxIterator := xStart;
      ghost var k := 0;
      assert Link(mem, f, 0, xStart, l.end);
      while mem[pxIterator].pxNextFreeBlock < pxBlockToInsert
        invariant k <= |f| && pxIterator == Leading(f, k, xStart) && Link(mem, f, k, xStart, l.end)
        invariant forall i :: 0 <= i < k ==> f[i].addr < b.addr
        decreases |f| - k
      {
        pxIterator := mem[pxIterator].pxNextFreeBlock;
        k := k + 1;
        assert Link(mem, f, k, xStart, l.end);
      }
      PlaceUnique(f, b.addr, k);
      Inserted(pxIterator, pxBlockToInsert, f, b);
      InsertedChain(old(mem), mem, f, b, xStart, l.end);
    }

    /** The block at `px` takes up its successor, if that begins where it ends, and gets its link. */
    method JoinNext(px: nat, next: nat)
      requires px in mem && px != next && (next != l.end ==> next in mem)
      modifies this`mem
      ensures var was := old(mem);
              mem == was[px :=
                if px + was[px].xBlockSize != next || next == l.end then BlockLink(next, was[px].xBlockSize)
                else BlockLink(was[next].pxNextFreeBlock, was[px].xBlockSize + was[next].xBlockSize)]
    {
      if px + mem[px].xBlockSize == next {
        if next != l.end {
          mem := mem[px := mem[px].(xBlockSize := mem[px].xBlockSize + mem[next].xBlockSize)];
          mem := mem[px := mem[px].(pxNextFreeBlock := mem[next].pxNextFreeBlock)];
        } else {
          mem := mem[px := mem[px].(pxNextFreeBlock := l.end)];
        }
      } else {
        mem := mem[px := mem[px].(pxNextFreeBlock := next)];
      }
    }

    /** The two merges, once the place is found. */
    method Inserted(pxIterator: nat, pxBlockToInsert: nat, ghost f: seq<Block>, ghost b: Block)
      requires Placed() && Chain(mem, f, xStart, l.end) && Separate(f, xStart, l.end)
      requires b.size > 0 && Apart(f, b) && b.addr == pxBlockToInsert && b.End() <= l.end && b.addr != xStart
      requires b.addr in mem && mem[b.addr].xBlockSize == b.size
      requires pxIterator == Leading(f, Place(f, b.addr), xStart)
      modifies this`mem
      ensures Rewritten(old(mem), mem, f, From(f, b), To(f, b), Merged(f, b), xStart, l.end)
              && mem.Keys == old(mem).Keys
    {
      hide Chain, Separate, Gaps, Apart, Place;
      ghost var p := Place(f, b.addr);
      ghost var m := MergedBack(f[..p], b);
      Neighbours(mem, f, b, xStart, l.end);
      var px := pxBlockToInsert;
      if pxIterator + mem[pxIterator].xBlockSize == px {
        mem := mem[pxIterator := mem[pxIterator].(xBlockSize := mem[pxIterator].xBlockSize + mem[px].xBlockSize)];
        px := pxIterator;
      }
      assert px == m.addr && mem[px].xBlockSize == m.size;
      var next := mem[pxIterator].pxNextFreeBlock;
      JoinNext(px, next);
      assert mem[px] == BlockLink(Led(f, To(f, b), l.end), Merged(f, b).size);
      if pxIterator != px {
        mem := mem[pxIterator := mem[pxIterator].(pxNextFreeBlock := px)];
      }
    }
  }

  /** The headers that insertion reads. */
  lemma Neighbours(mem: Memory, f: seq<Block>, b: Block, xStart: nat, pxEnd: nat)
    requires Chain(mem, f, xStart, pxEnd) && Separate(f, xStart, pxEnd)
    requires b.size > 0 && Apart(f, b) && b.End() <= pxEnd && b.addr != xStart
    ensures var p := Place(f, b.addr);
            && Leading(f, p, xStart) in mem && mem[Leading(f, p, xStart)].pxNextFreeBlock == Led(f, p, pxEnd)
            && mem[Leading(f, p, xStart)].xBlockSize == (if p == 0 then 0 else f[p - 1].size)
            && Leading(f, p, xStart) != b.addr
            && (p > 0 ==> Leading(f, p - 1, xStart) in mem && Leading(f, p - 1, xStart) != f[p - 1].addr
                          && mem[Leading(f, p - 1, xStart)].pxNextFreeBlock == f[p - 1].addr)
            && (p < |f| ==> f[p].addr in mem && mem[f[p].addr] == BlockLink(Led(f, p + 1, pxEnd), f[p].size)
                            && b.End() <= f[p].addr && f[p].addr < pxEnd && (p > 0 ==> f[p - 1].addr < f[p].addr))
  {
    var p := Place(f, b.addr);
    assert Link(mem, f, p, xStart, pxEnd);
    assert p > 0 ==> Link(mem, f, p - 1, xStart, pxEnd);
    assert p < |f| ==> Link(mem, f, p + 1, xStart, pxEnd);
    if p > 0 { ApartBlocks(f, b, p - 1); }
    if p < |f| { ApartBlocks(f, b, p); }
  }

  /** Headers of live blocks carry the allocated bit and no next pointer, and no other header does. */
  ghost predicate Marked(mem: Memory, live: map<nat, nat>) {
    && (forall a :: a in live ==> a in mem && mem[a] == BlockLink(NULL, ALLOCATED_BIT + live[a]))
    && (forall a :: a in mem && mem[a].xBlockSize >= ALLOCATED_BIT ==> a in live)
  }

  lemma Unmark(mem: Memory, live: map<nat, nat>, a: nat)
    requires Marked(mem, live) && a in live && live[a] < ALLOCATED_BIT
    ensures a in mem && mem[a] == BlockLink(NULL, ALLOCATED_BIT + live[a])
    ensures Marked(mem[a := BlockLink(NULL, live[a])], live - {a})
  {
  }

  /** A live block once its mark is cleared: everything insertion asks for. */
  lemma ReadyToFree(l: Layout, y: Arena, mem: Memory, xStart: nat, a: nat)
    requires l.Valid() && Inv(l, y) && (xStart < l.start || l.end < xStart) && a in y.live
    requires Chain(mem, y.free, xStart, l.end) && Marked(mem, y.live)
    ensures var b := Block(a, y.live[a]); var mem' := mem[a := BlockLink(NULL, b.size)];
            && a in mem && mem[a] == BlockLink(NULL, ALLOCATED_BIT + b.size)
            && Chain(mem', y.free, xStart, l.end) && Marked(mem', y.live - {a})
            && Separate(y.free, xStart, l.end) && 0 < b.size && Apart(y.free, b) && b.End() <= l.end && a != xStart
            && Merged(y.free, b).size < ALLOCATED_BIT && Sum(Coalesce(y.free, b)) == Sum(y.free) + b.size
    ensures xStart !in y.live && forall i :: 0 <= i < |y.free| ==> y.free[i].addr !in y.live
    ensures Inv(l, Free(y, a))
  {
    hide Coalesce, Merged;
    var b := Block(a, y.live[a]);
    LiveHeader(l, y, xStart, a);
    FreeInv(l, y, a);
    SumCoalesce(y.free, b);
    MergedSmall(l, y, y.free, b);
    Unmark(mem, y.live, a);
    ChainElsewhere(mem, y.free, xStart, l.end, a, BlockLink(NULL, b.size));
  }

  lemma HeaderBound(l: Layout, want: nat)
    requires l.Valid()
    ensures 0 < l.header + l.align - want % l.align < SIZE_MOD
  {
    AlignAtMost(l.start, l.align);
    RemainderBound(want, l.align);
  }

  lemma AlignAtMost(a: nat, b: nat)
    requires 0 < a && 0 < b && a % b == 0
    ensures b <= a
  {
    if a < b {
      SmallQuotient(a, b);
    }
  }

  lemma RemainderBound(a: nat, b: nat)
    requires 0 < b
    ensures 0 <= a % b < b
  {
  }

  lemma FitsInSum(f: seq<Block>, size: nat)
    ensures FirstFit(f, size) < |f| ==> size <= Sum(f)
  {
    if FirstFit(f, size) < |f| {
      SumRemove(f, FirstFit(f, size));
    }
  }

  lemma FirstFitUnique(f: seq<Block>, size: nat, i: nat)
    requires i <= |f| && (i < |f| ==> f[i].size >= size) && forall j :: 0 <= j < i ==> f[j].size < size
    ensures i == FirstFit(f, size)
  {
    var j := FirstFit(f, size);
    assert !(i < j) && !(j < i);
  }

  lemma ChainFacts(mem: Memory, f: seq<Block>, i: nat, xStart: nat, pxEnd: nat)
    requires Chain(mem, f, xStart, pxEnd) && i < |f|
    ensures Leading(f, i, xStart) in mem && mem[Leading(f, i, xStart)].pxNextFreeBlock == f[i].addr
    ensures mem[Leading(f, i, xStart)].xBlockSize == if i == 0 then 0 else f[i - 1].size
    ensures f[i].addr in mem && mem[f[i].addr] == BlockLink(Led(f, i + 1, pxEnd), f[i].size)
  {
    assert Link(mem, f, i, xStart, pxEnd) && Link(mem, f, i + 1, xStart, pxEnd);
  }

  lemma CutLink(mem: Memory, mem': Memory, f: seq<Block>, i: nat, k: nat, xStart: nat, pxEnd: nat)
    requires Chain(mem, f, xStart, pxEnd) && Separate(f, xStart, pxEnd) && i < |f| && k <= |f| - 1
    requires var a := Leading(f, i, xStart);
             a in mem && mem' == mem[a := BlockLink(Led(f, i + 1, pxEnd), mem[a].xBlockSize)]
    ensures Link(mem', RemoveAt(f, i), k, xStart, pxEnd)
  {
    var m, r := if k <= i then k else k + 1, RemoveAt(f, i);
    assert Link(mem, f, m, xStart, pxEnd);
    assert Leading(r, k, xStart) == Leading(f, m, xStart);
    assert k != i ==> Led(r, k, pxEnd) == Led(f, m, pxEnd);
  }

  /** Bypassing block i. */
  lemma ChainCut(mem: Memory, f: seq<Block>, i: nat, xStart: nat, pxEnd: nat)
    requires Chain(mem, f, xStart, pxEnd) && Separate(f, xStart, pxEnd) && i < |f|
    requires Leading(f, i, xStart) in mem && f[i].addr in mem
    ensures var a := Leading(f, i, xStart);
            Chain(mem[a := mem[a].(pxNextFreeBlock := mem[f[i].addr].pxNextFreeBlock)], RemoveAt(f, i), xStart, pxEnd)
  {
    var a, r := Leading(f, i, xStart), RemoveAt(f, i);
    ChainFacts(mem, f, i, xStart, pxEnd);
    var mem' := mem[a := mem[a].(pxNextFreeBlock := mem[f[i].addr].pxNextFreeBlock)];
    forall k | 0 <= k <= |r| ensures Link(mem', r, k, xStart, pxEnd) {
      CutLink(mem, mem', f, i, k, xStart, pxEnd);
    }
  }

  lemma MarkedWrite(mem: Memory, live: map<nat, nat>, a: nat, v: BlockLink)
    requires Marked(mem, live) && a !in live && v.xBlockSize < ALLOCATED_BIT
    ensures Marked(mem[a := v], live)
  {
  }

  lemma MarkNew(mem: Memory, live: map<nat, nat>, a: nat, n: nat)
    requires Marked(mem, live)
    ensures Marked(mem[a := BlockLink(NULL, ALLOCATED_BIT + n)], live[a := n])
  {
  }

  lemma TakeFacts(l: Layout, y: Arena, wanted: nat, want: nat, i: nat, xStart: nat)
    requires (xStart < l.start || l.end < xStart) && l.Valid() && Inv(l, y)
    requires wanted < SIZE_MOD && want == Rounded(l, wanted) && 0 < want < ALLOCATED_BIT
    requires i == FirstFit(y.free, want) < |y.free|
    ensures var b := y.free[i]; var r := Take(l, y.free, i, want);
            && 0 < Granted(l, b, want) <= b.size && Sum(r) == Sum(y.free) - Granted(l, b, want)
            && (forall j :: 0 <= j < |r| ==> r[j].addr != b.addr)
            && y.free[i].addr !in y.live && b.addr != l.end && b.addr != xStart
  {
    hide Coalesce, Take, Rounded;
    var b, r := y.free[i], Take(l, y.free, i, want);
    TakeCovers(l, y.free, i, want, b.addr);
    NewAddress(l, y, i);
    assert WellPlaced(l, b);
    forall j | 0 <= j < |r| ensures r[j].addr != b.addr {
      assert r[j].Has(r[j].addr) && Covers(r, r[j].addr);
    }
  }

  lemma Allocation(l: Layout, y: Arena, wanted: nat, want: nat, i: nat)
    requires l.Valid() && Inv(l, y) && wanted < SIZE_MOD && want == Rounded(l, wanted) && 0 < want < ALLOCATED_BIT
    requires i == FirstFit(y.free, want) < |y.free|
    ensures var (z, pv) := HeapBlocks.Malloc(l, y, wanted);
            var size := y.free[i].size;
            var n := if size - want > 2 * l.header then want else size;
            && pv == y.free[i].addr + l.header && 0 < y.free[i].addr
            && z == Arena(Take(l, y.free, i, want), y.live[y.free[i].addr := n], Min(y.minEver, Sum(z.free)),
                          y.mallocs + 1, y.frees)
            && n == Granted(l, y.free[i], want) && Sum(z.free) == Sum(y.free) - n
  {
    assert WellPlaced(l, y.free[i]);
    hide Take, Inv, Rounded, Sum;
    TakeFacts(l, y, wanted, want, i, 0);
  }

  /** The tail of a split block: everything insertion asks for. */
  lemma CarveFacts(l: Layout, y: Arena, wanted: nat, want: nat, i: nat, xStart: nat, rest: seq<Block>, tail: Block)
    requires l.Valid() && Inv(l, y) && (xStart < l.start || l.end < xStart)
    requires wanted < SIZE_MOD && want == Rounded(l, wanted) && 0 < want < ALLOCATED_BIT
    requires i == FirstFit(y.free, want) < |y.free| && y.free[i].size - want > 2 * l.header
    requires rest == RemoveAt(y.free, i) && tail == Block(y.free[i].addr + want, y.free[i].size - want)
    ensures Separate(rest, xStart, l.end) && Apart(rest, tail) && tail.End() <= l.end
    ensures Merged(rest, tail).size < ALLOCATED_BIT && tail.size < ALLOCATED_BIT
    ensures y.free[i].addr != xStart && tail.addr != xStart && y.free[i].addr < tail.addr < l.end
  {
    hide Inv, Tiled, Merged, Apart, Gaps, Rounded, WellPlaced, Covers;
    AllPlaced(l, y, i);
    LiveHeader(l, y, xStart, 0);
    RemoveBlock(y.free, i, 0);
    ApartPart(rest, y.free[i], tail);
    TailPlaced(l, y.free[i], wanted, want);
    MergedSmall(l, y, rest, tail);
  }

  lemma AllPlaced(l: Layout, y: Arena, i: nat)
    requires l.Valid() && Inv(l, y) && i < |y.free|
    ensures Gaps(y.free) && forall j :: 0 <= j < |y.free| ==> WellPlaced(l, y.free[j])
    ensures l.start <= y.free[i].addr && y.free[i].End() <= l.end && y.free[i].size < ALLOCATED_BIT
  {
    assert WellPlaced(l, y.free[i]);
  }

  /** No header lies inside a free block. */
  lemma NewInside(l: Layout, y: Arena, i: nat, a: nat)
    requires l.Valid() && Inv(l, y) && i < |y.free| && y.free[i].addr < a < y.free[i].End()
    ensures a !in y.live && forall j :: 0 <= j < |RemoveAt(y.free, i)| ==> RemoveAt(y.free, i)[j].addr != a
    ensures forall j :: 0 <= j < |RemoveAt(y.free, i)| ==> RemoveAt(y.free, i)[j].addr != y.free[i].addr
  {
    if a in y.live {
      FreeApart(l, y, i, y.free[i].size, a);
    }
    var rest := RemoveAt(y.free, i);
    forall j | 0 <= j < |rest| ensures rest[j].addr != a && rest[j].addr != y.free[i].addr {
      var k := if j < i then j else j + 1;
      assert rest[j] == y.free[k];
      assert k < i ==> y.free[k].End() < y.free[i].addr;
      assert k > i ==> y.free[i].End() < y.free[k].addr;
    }
  }

  lemma TailPlaced(l: Layout, b: Block, wanted: nat, want: nat)
    requires l.Valid() && WellPlaced(l, b) && wanted < SIZE_MOD && want == Rounded(l, wanted) && 0 < want
    requires b.size - want > 2 * l.header
    ensures WellPlaced(l, Block(b.addr + want, b.size - want))
  {
    RoundedFits(l, wanted);
    SumAligned(b.addr, want, l.align);
    DifferenceAligned(b.size, want, l.align);
  }

  lemma RoundedDown(a: nat, m: nat)
    requires 0 < m
    ensures (a - a % m) % m == 0 && a - m < a - a % m <= a
  {
    MultipleAligned(a / m, m);
    assert a - a % m == a / m * m;
  }

  /** An unaligned address rounds up. */
  lemma RoundedUp(a: nat, m: nat)
    requires 0 < m && a % m != 0
    ensures var b := a + (m - 1); a < b - b % m < a + m
  {
    var q, r := a / m, a % m;
    assert a + (m - 1) == (q + 1) * m + (r - 1);
    QuotientUnique(a + (m - 1), m, q + 1, r - 1);
  }

  lemma OverflowTest(a: nat, b: nat)
    ensures a > 0 && b > (SIZE_MOD - 1) / a <==> a * b >= SIZE_MOD
  {
    if a > 0 {
      var q := (SIZE_MOD - 1) / a;
      assert SIZE_MOD - 1 == q * a + (SIZE_MOD - 1) % a;
      TimesMonotone(b, q, a);
      TimesMonotone(q + 1, b, a);
    }
  }

  /** The largest and the smallest of the first n sizes, or the starting values when there are none. */
  ghost predicate Extremes(f: seq<Block>, n: nat, largest: nat, smallest: nat) {
    && n <= |f|
    && (forall i :: 0 <= i < n ==> smallest <= f[i].size <= largest)
    && (n == 0 ==> largest == 0 && smallest == PORT_MAX_DELAY)
    && (n > 0 ==> exists i :: 0 <= i < n && f[i].size == largest)
    && (n > 0 ==> exists i :: 0 <= i < n && f[i].size == smallest)
  }

  lemma ExtremesExtend(f: seq<Block>, n: nat, largest: nat, smallest: nat)
    requires n < |f| && 0 < f[n].size < PORT_MAX_DELAY && Extremes(f, n, largest, smallest)
    ensures Extremes(f, n + 1, if f[n].size > largest then f[n].size else largest,
                               if f[n].size < smallest then f[n].size else smallest)
  {
  }

  lemma FreeBelowEnd(l: Layout, y: Arena)
    requires l.Valid() && Inv(l, y)
    ensures forall i :: 0 <= i < |y.free| ==> y.free[i].addr < l.end && 0 < y.free[i].size < ALLOCATED_BIT
  {
    forall i | 0 <= i < |y.free| ensures y.free[i].addr < l.end && 0 < y.free[i].size < ALLOCATED_BIT {
      assert WellPlaced(l, y.free[i]);
    }
  }
}
