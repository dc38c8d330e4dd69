/** The allocator of heap_4.c on values: an address-ordered list of free blocks and the live blocks,
    with its rounding, first fit, splitting and coalescing. */
module HeapBlocks {
  import opened Arithmetic
  import opened EventLists

  datatype Block = Block(addr: nat, size: nat) {
    function End(): nat { addr + size }
    ghost predicate Has(x: int) { addr <= x < addr + size }
  }

  /** Where the heap lies, the byte alignment and the size of a block header. */
  datatype Layout = Layout(start: nat, end: nat, align: nat, header: nat) {
    ghost predicate Valid() {
      && 0 < align && 0 < start < end && start % align == 0 && end % align == 0
      && 0 < header && header % align == 0 && end + header < SIZE_MOD && end - start < ALLOCATED_BIT
    }
  }

  /** size_t is 32 bits wide and its top bit marks a block as allocated. */
  const SIZE_MOD: nat := 0x1_0000_0000
  const ALLOCATED_BIT: nat := 0x8000_0000

  // ---------------------------------------------------------------- free lists

  ghost predicate Covers(f: seq<Block>, x: int) {
    exists i :: 0 <= i < |f| && f[i].Has(x)
  }

  /** Address order with a gap between neighbours: every block is a maximal run of free bytes. */
  ghost predicate Gaps(f: seq<Block>) {
    && (forall i :: 0 <= i < |f| ==> f[i].size > 0)
    && (forall i, j :: 0 <= i < j < |f| ==> f[i].End() < f[j].addr)
  }

  /** Where the search of prvInsertBlockIntoFreeList stops. */
  function Place(f: seq<Block>, addr: nat): (p: nat)
    ensures p <= |f|
    ensures forall i :: 0 <= i < p ==> f[i].addr < addr
    ensures p < |f| ==> addr <= f[p].addr
  {
    if f == [] || addr <= f[0].addr then 0 else 1 + Place(f[1..], addr)
  }

  /** `b` swallows the block that ends where it starts. */
  function MergedBack(a: seq<Block>, b: Block): Block {
    if TouchesLast(a, b) then Block(a[|a| - 1].addr, a[|a| - 1].size + b.size) else b
  }

  predicate TouchesLast(a: seq<Block>, b: Block) { a != [] && a[|a| - 1].End() == b.addr }
  predicate TouchesFirst(b: Block, c: seq<Block>) { c != [] && b.End() == c[0].addr }

  function RestBack(a: seq<Block>, b: Block): seq<Block> {
    if TouchesLast(a, b) then a[..|a| - 1] else a
  }

  /** `b` swallows the block that starts where it ends. */
  function MergedFront(b: Block, c: seq<Block>): Block {
    if TouchesFirst(b, c) then Block(b.addr, b.size + c[0].size) else b
  }

  function RestFront(b: Block, c: seq<Block>): seq<Block> {
    if TouchesFirst(b, c) then c[1..] else c
  }

  /** Puts `b` into the list, merged with the block before it and the block behind it if they touch. */
  function Coalesce(f: seq<Block>, b: Block): seq<Block> {
    var a, c := f[..Place(f, b.addr)], f[Place(f, b.addr)..];
    RestBack(a, b) + [MergedFront(MergedBack(a, b), c)] + RestFront(MergedBack(a, b), c)
  }

  ghost predicate Apart(f: seq<Block>, b: Block) {
    forall x {:trigger b.Has(x)} :: b.Has(x) ==> !Covers(f, x)
  }

  lemma ApartBlocks(f: seq<Block>, b: Block, i: nat)
    requires Gaps(f) && b.size > 0 && Apart(f, b) && i < |f|
    ensures f[i].End() <= b.addr || b.End() <= f[i].addr
  {
    if b.addr < f[i].End() && f[i].addr < b.End() {
      var x := if b.addr < f[i].addr then f[i].addr else b.addr;
      assert b.Has(x) && f[i].Has(x);
    }
  }

  ghost predicate Before(a: seq<Block>, x: nat) { forall i :: 0 <= i < |a| ==> a[i].End() <= x }
  ghost predicate WellBefore(a: seq<Block>, x: nat) { forall i :: 0 <= i < |a| ==> a[i].End() < x }
  ghost predicate After(x: nat, c: seq<Block>) { forall i :: 0 <= i < |c| ==> x <= c[i].addr }
  ghost predicate WellAfter(x: nat, c: seq<Block>) { forall i :: 0 <= i < |c| ==> x < c[i].addr }

  lemma MergeBack(a: seq<Block>, b: Block, x: int)
    requires Gaps(a) && Before(a, b.addr) && b.size > 0
    ensures Gaps(RestBack(a, b)) && WellBefore(RestBack(a, b), MergedBack(a, b).addr)
    ensures MergedBack(a, b).End() == b.End() && MergedBack(a, b).size > 0
    ensures Covers(RestBack(a, b), x) || MergedBack(a, b).Has(x) <==> Covers(a, x) || b.Has(x)
  {
    var n := |a| - 1;
    forall i | 0 <= i < n ensures a[i].End() < a[n].addr {}
    if TouchesLast(a, b) {
      assert a == a[..n] + [a[n]];
      CoversConcat(a[..n], [a[n]], x);
      CoversOne(a[n], x);
    }
  }

  lemma MergeFront(b: Block, c: seq<Block>, x: int)
    requires Gaps(c) && After(b.End(), c) && b.size > 0
    ensures Gaps(RestFront(b, c)) && WellAfter(MergedFront(b, c).End(), RestFront(b, c))
    ensures MergedFront(b, c).addr == b.addr && MergedFront(b, c).size > 0
    ensures Covers(RestFront(b, c), x) || MergedFront(b, c).Has(x) <==> Covers(c, x) || b.Has(x)
  {
    forall i | 1 <= i < |c| ensures c[0].End() < c[i].addr && c[1..][i - 1] == c[i] {}
    if TouchesFirst(b, c) {
      assert c == [c[0]] + c[1..];
      CoversConcat([c[0]], c[1..], x);
      CoversOne(c[0], x);
    }
  }

  lemma CoversOne(b: Block, x: int)
    ensures Covers([b], x) <==> b.Has(x)
  {
    assert [b][0] == b;
  }

  lemma CoversConcat(a: seq<Block>, c: seq<Block>, x: int)
    ensures Covers(a + c, x) <==> Covers(a, x) || Covers(c, x)
  {
    if i :| 0 <= i < |a| && a[i].Has(x) {
      assert (a + c)[i].Has(x);
    }
    if i :| 0 <= i < |c| && c[i].Has(x) {
      assert (a + c)[|a| + i].Has(x);
    }
  }

  lemma GapsJoin(a: seq<Block>, b: Block, c: seq<Block>)
    requires Gaps(a) && Gaps(c) && b.size > 0 && WellBefore(a, b.addr) && WellAfter(b.End(), c)
    ensures Gaps(a + [b] + c)
  {
    var r := a + [b] + c;
    forall i, j | 0 <= i < j < |r| ensures r[i].End() < r[j].addr {
      assert i < |a| ==> r[i] == a[i];
      assert j > |a| ==> r[j] == c[j - |a| - 1];
    }
  }

  lemma Split(f: seq<Block>, b: Block)
    requires Gaps(f) && b.size > 0 && Apart(f, b)
    ensures var p := Place(f, b.addr);
            Gaps(f[..p]) && Gaps(f[p..]) && Before(f[..p], b.addr) && After(b.End(), f[p..])
  {
    forall i | 0 <= i < |f| ensures f[i].End() <= b.addr || b.End() <= f[i].addr {
      ApartBlocks(f, b, i);
    }
  }

  /** Inserting a block frees exactly its bytes and keeps the list in its only possible form. */
  lemma CoalesceFrees(f: seq<Block>, b: Block, x: int)
    requires Gaps(f) && b.size > 0 && Apart(f, b)
    ensures Gaps(Coalesce(f, b))
    ensures Covers(Coalesce(f, b), x) <==> Covers(f, x) || b.Has(x)
  {
    hide Gaps, Covers, Before, WellBefore, After, WellAfter, RestBack, RestFront, MergedBack, MergedFront, Block.Has;
    var a, c := f[..Place(f, b.addr)], f[Place(f, b.addr)..];
    Split(f, b);
    MergeBack(a, b, x);
    MergeFront(MergedBack(a, b), c, x);
    var l, m, r := RestBack(a, b), MergedFront(MergedBack(a, b), c), RestFront(MergedBack(a, b), c);
    GapsJoin(l, m, r);
    CoversConcat(l, [m], x);
    CoversConcat(l + [m], r, x);
    CoversOne(m, x);
    CoversConcat(a, c, x);
    assert f == a + c;
  }

  lemma FirstCovered(f: seq<Block>)
    requires Gaps(f)
    ensures f != [] ==> Covers(f, f[0].addr)
    ensures f == [] ==> forall x :: !Covers(f, x)
  {
    if f != [] {
      assert f[0].Has(f[0].addr);
    }
  }

  /** There is only one list of maximal runs for a set of free bytes. */
  lemma {:induction false} GapsUnique(f: seq<Block>, g: seq<Block>)
    requires Gaps(f) && Gaps(g)
    requires forall x :: Covers(f, x) <==> Covers(g, x)
    ensures f == g
    decreases |f|
  {
    FirstCovered(f);
    FirstCovered(g);
    if f != [] && g != [] {
      FirstBlock(f, g);
      FirstBlock(g, f);
      forall x ensures Covers(f[1..], x) <==> Covers(g[1..], x) {
        CoversTail(f, x);
        CoversTail(g, x);
      }
      GapsTail(f);
      GapsTail(g);
      GapsUnique(f[1..], g[1..]);
    }
  }

  lemma GapsTail(f: seq<Block>)
    requires Gaps(f) && f != []
    ensures Gaps(f[1..])
  {
    assert forall i :: 0 <= i < |f[1..]| ==> f[1..][i] == f[i + 1];
  }

  lemma CoversTail(f: seq<Block>, x: int)
    requires Gaps(f) && f != []
    ensures Covers(f[1..], x) <==> Covers(f, x) && !f[0].Has(x)
  {
    if i :| 0 <= i < |f[1..]| && f[1..][i].Has(x) {
      assert f[i + 1].Has(x);
    }
    if i :| 0 <= i < |f| && f[i].Has(x) && !f[0].Has(x) {
      assert f[1..][i - 1].Has(x);
    }
  }

  lemma FirstBlock(f: seq<Block>, g: seq<Block>)
    requires Gaps(f) && Gaps(g) && f != [] && g != []
    requires forall x :: Covers(f, x) <==> Covers(g, x)
    ensures f[0].addr <= g[0].addr
    ensures f[0].addr == g[0].addr ==> f[0].End() <= g[0].End()
  {
    assert g[0].Has(g[0].addr) && Covers(g, g[0].addr);
    var i :| 0 <= i < |f| && f[i].Has(g[0].addr);
    assert !Covers(g, g[0].End());
    assert !Covers(f, g[0].End()) && !f[0].Has(g[0].End());
  }

  // ---------------------------------------------------------------- the arena

  function Sum(f: seq<Block>): nat {
    if f == [] then 0 else f[0].size + Sum(f[1..])
  }

  lemma {:induction false} SumConcat(a: seq<Block>, c: seq<Block>)
    ensures Sum(a + c) == Sum(a) + Sum(c)
  {
    if a == [] {
      assert a + c == c;
    } else {
      assert (a + c)[1..] == a[1..] + c;
      SumConcat(a[1..], c);
    }
  }

  lemma SumCoalesce(f: seq<Block>, b: Block)
    ensures Sum(Coalesce(f, b)) == Sum(f) + b.size
  {
    var a, c := f[..Place(f, b.addr)], f[Place(f, b.addr)..];
    var m := MergedBack(a, b);
    assert f == a + c;
    SumConcat(a, c);
    SumConcat(RestBack(a, b) + [MergedFront(m, c)], RestFront(m, c));
    SumConcat(RestBack(a, b), [MergedFront(m, c)]);
    if TouchesLast(a, b) {
      assert a == a[..|a| - 1] + [a[|a| - 1]];
      SumConcat(a[..|a| - 1], [a[|a| - 1]]);
    }
  }

  lemma SumOne(b: Block)
    ensures Sum([b]) == b.size
  {
    assert [b][1..] == [];
  }

  lemma CutOut(f: seq<Block>, i: nat)
    requires i < |f|
    ensures f == f[..i] + ([f[i]] + f[i + 1..]) && RemoveAt(f, i) == f[..i] + f[i + 1..]
  {
  }

  lemma SumRemove(f: seq<Block>, i: nat)
    requires i < |f|
    ensures Sum(RemoveAt(f, i)) == Sum(f) - f[i].size && f[i].size <= Sum(f)
  {
    var b := f[i];
    hide Sum, RemoveAt;
    CutOut(f, i);
    SumOne(b);
    SumConcat(f[..i], [b] + f[i + 1..]);
    SumConcat([b], f[i + 1..]);
    SumConcat(f[..i], f[i + 1..]);
  }

  datatype Arena = Arena(
    free: seq<Block>,
    live: map<nat, nat>,  // address and size, header included, of every allocated block
    minEver: nat,         // fewest free bytes so far
    mallocs: nat,
    frees: nat
  )

  ghost predicate Lived(live: map<nat, nat>, x: int) {
    exists a :: a in live && Block(a, live[a]).Has(x)
  }

  ghost predicate WellPlaced(l: Layout, b: Block)
    requires l.Valid()
  {
    l.start <= b.addr && b.End() <= l.end && b.addr % l.align == 0 && b.size % l.align == 0 && b.size >= l.header
  }

  /** Free and live blocks tile the heap: every byte is in exactly one block, and the free list is the
      address-ordered list of the maximal runs of free bytes. */
  ghost predicate Tiled(l: Layout, y: Arena)
    requires l.Valid()
  {
    && Gaps(y.free)
    && (forall i :: 0 <= i < |y.free| ==> WellPlaced(l, y.free[i]))
    && (forall a :: a in y.live ==> WellPlaced(l, Block(a, y.live[a])))
    && (forall a, b :: a in y.live && b in y.live && a < b ==> a + y.live[a] <= b)
    && (forall x :: Covers(y.free, x) <==> l.start <= x < l.end && !Lived(y.live, x))
  }

  ghost predicate Inv(l: Layout, y: Arena)
    requires l.Valid()
  {
    Tiled(l, y) && y.minEver <= Sum(y.free)
  }

  /** The free list is a function of the live blocks alone. */
  lemma FreeListCanonical(l: Layout, y: Arena, z: Arena)
    requires l.Valid() && Tiled(l, y) && Tiled(l, z) && y.live == z.live
    ensures y.free == z.free
  {
    GapsUnique(y.free, z.free);
  }

  function Initial(l: Layout): Arena
    requires l.start < l.end
  {
    Arena([Block(l.start, l.end - l.start)], map[], l.end - l.start, 0, 0)
  }

  lemma InitialInv(l: Layout)
    requires l.Valid() && l.end - l.start >= l.header
    ensures Inv(l, Initial(l))
  {
    DifferenceAligned(l.end, l.start, l.align);
    forall x ensures Covers(Initial(l).free, x) <==> l.start <= x < l.end {
      CoversOne(Initial(l).free[0], x);
    }
  }

  /** Freeing everything, in whatever order, restores the single block of prvHeapInit. */
  lemma AllFreed(l: Layout, y: Arena)
    requires l.Valid() && l.end - l.start >= l.header && Tiled(l, y) && y.live == map[]
    ensures y.free == [Block(l.start, l.end - l.start)]
  {
    InitialInv(l);
    FreeListCanonical(l, y, Initial(l));
  }

  // ---------------------------------------------------------------- allocation

  /** The block size for a request of `want` bytes, or 0 when there is none. */
  function Rounded(l: Layout, want: nat): nat
    requires 0 < l.align
  {
    if want == 0 then 0
    else
      var additional := l.header + l.align - want % l.align;
      if want + additional >= SIZE_MOD then 0 else want + additional
  }

  lemma RoundedFits(l: Layout, want: nat)
    requires l.Valid() && want < SIZE_MOD && Rounded(l, want) > 0
    ensures var r := Rounded(l, want); r % l.align == 0 && want + l.header < r <= want + l.header + l.align
  {
    var m := want % l.align;
    assert want == want / l.align * l.align + m;
    MultipleAligned(want / l.align, l.align);
    SumAligned(want / l.align * l.align, l.align, l.align);
    SumAligned(want / l.align * l.align + l.align, l.header, l.align);
  }

  /** There is no block size for a request of nothing, nor for one whose sum with the header and the padding does not
      fit a size_t. */
  lemma NoSize(l: Layout, want: nat)
    requires l.Valid()
    ensures Rounded(l, want) == 0 <==> want == 0 || want + l.header + (l.align - want % l.align) >= SIZE_MOD
  {
  }

  /** The lowest-addressed free block of at least `size` bytes. */
  function FirstFit(f: seq<Block>, size: nat): (i: nat)
    ensures i <= |f|
    ensures i < |f| ==> f[i].size >= size
    ensures forall j :: 0 <= j < i ==> f[j].size < size
  {
    if f == [] || f[0].size >= size then 0 else 1 + FirstFit(f[1..], size)
  }

  predicate Serviceable(l: Layout, y: Arena, want: nat)
    requires 0 < l.align
  {
    && 0 < Rounded(l, want) < ALLOCATED_BIT
    && FirstFit(y.free, Rounded(l, want)) < |y.free|
  }

  function Min(a: nat, b: nat): nat { if a < b then a else b }

  /** The size the block gets: the request, or the whole free block when too little would be left. */
  function Granted(l: Layout, b: Block, r: nat): nat
    requires r <= b.size
  {
    if b.size - r > 2 * l.header then r else b.size
  }

  function Take(l: Layout, f: seq<Block>, i: nat, r: nat): seq<Block>
    requires i < |f| && r <= f[i].size
  {
    var rest := RemoveAt(f, i);
    if f[i].size - r > 2 * l.header then Coalesce(rest, Block(f[i].addr + r, f[i].size - r)) else rest
  }

  /** pvPortMalloc: the new arena and the pointer returned, 0 standing for NULL. */
  function Malloc(l: Layout, y: Arena, want: nat): (Arena, nat)
    requires 0 < l.align
  {
    if Serviceable(l, y, want) then
      var r := Rounded(l, want);
      var i := FirstFit(y.free, r);
      var b := y.free[i];
      var free := Take(l, y.free, i, r);
      (Arena(free, y.live[b.addr := Granted(l, b, r)], Min(y.minEver, Sum(free)), y.mallocs + 1, y.frees),
          b.addr + l.header)
    else (y, 0)
  }

  /** vPortFree of the block whose header is at `addr`. */
  function Free(y: Arena, addr: nat): Arena
    requires addr in y.live
  {
    Arena(Coalesce(y.free, Block(addr, y.live[addr])), y.live - {addr}, y.minEver, y.mallocs, y.frees + 1)
  }

  lemma FreeInv(l: Layout, y: Arena, addr: nat)
    requires l.Valid() && Inv(l, y) && addr in y.live
    ensures Inv(l, Free(y, addr))
  {
    var b, z := Block(addr, y.live[addr]), Free(y, addr);
    LiveApart(l, y, b);
    SumCoalesce(y.free, b);
    CoalescePlaced(l, y.free, b);
    forall x ensures Covers(z.free, x) <==> l.start <= x < l.end && !Lived(z.live, x) {
      CoalesceFrees(y.free, b, x);
      LivedWithout(l, y, addr, x);
    }
    CoalesceFrees(y.free, b, 0);
    assert forall a :: a in z.live ==> z.live[a] == y.live[a];
  }

  lemma LiveApart(l: Layout, y: Arena, b: Block)
    requires l.Valid() && Tiled(l, y) && b.addr in y.live && b.size == y.live[b.addr]
    ensures Apart(y.free, b)
  {
    forall x | b.Has(x) ensures !Covers(y.free, x) {
      assert Lived(y.live, x);
    }
  }

  lemma LivedWithout(l: Layout, y: Arena, addr: nat, x: int)
    requires l.Valid() && Tiled(l, y) && addr in y.live
    ensures Lived(y.live - {addr}, x) <==> Lived(y.live, x) && !Block(addr, y.live[addr]).Has(x)
  {
    var live := y.live - {addr};
    if a :| a in y.live && Block(a, y.live[a]).Has(x) && a != addr {
      assert a in live && live[a] == y.live[a] && Block(a, live[a]).Has(x);
      assert !Block(addr, y.live[addr]).Has(x);
    }
    if a :| a in live && Block(a, live[a]).Has(x) {
      assert a in y.live && Block(a, y.live[a]).Has(x);
    }
  }

  lemma CoalescePlaced(l: Layout, f: seq<Block>, b: Block)
    requires l.Valid() && WellPlaced(l, b)
    requires forall i :: 0 <= i < |f| ==> WellPlaced(l, f[i])
    ensures forall i :: 0 <= i < |Coalesce(f, b)| ==> WellPlaced(l, Coalesce(f, b)[i])
  {
    var a, c := f[..Place(f, b.addr)], f[Place(f, b.addr)..];
    var m := MergedBack(a, b);
    if TouchesLast(a, b) {
      assert WellPlaced(l, a[|a| - 1]);
      SumAligned(a[|a| - 1].size, b.size, l.align);
    }
    if TouchesFirst(m, c) {
      assert WellPlaced(l, c[0]);
      SumAligned(m.size, c[0].size, l.align);
    }
    assert WellPlaced(l, MergedFront(m, c));
  }

  lemma RemoveBlock(f: seq<Block>, i: nat, x: int)
    requires Gaps(f) && i < |f|
    ensures Gaps(RemoveAt(f, i)) && Apart(RemoveAt(f, i), f[i])
    ensures Covers(RemoveAt(f, i), x) <==> Covers(f, x) && !f[i].Has(x)
  {
    RemoveCovers(f, i, x);
    forall y | f[i].Has(y) ensures !Covers(RemoveAt(f, i), y) {
      RemoveCovers(f, i, y);
    }
  }

  lemma RemoveGaps(f: seq<Block>, i: nat)
    requires Gaps(f) && i < |f|
    ensures Gaps(RemoveAt(f, i))
  {
  }

  lemma RemoveCovers(f: seq<Block>, i: nat, x: int)
    requires Gaps(f) && i < |f|
    ensures Gaps(RemoveAt(f, i))
    ensures Covers(RemoveAt(f, i), x) <==> Covers(f, x) && !f[i].Has(x)
  {
    RemoveGaps(f, i);
    hide RemoveAt;
    var r := RemoveAt(f, i);
    if j :| 0 <= j < |f| && f[j].Has(x) && !f[i].Has(x) {
      assert r[if j < i then j else j - 1].Has(x);
    }
    if j :| 0 <= j < |r| && r[j].Has(x) {
      assert f[if j < i then j else j + 1].Has(x);
    }
  }

  lemma ApartPart(f: seq<Block>, b: Block, part: Block)
    requires Apart(f, b) && b.addr <= part.addr && part.End() <= b.End()
    ensures Apart(f, part)
  {
    forall y | part.Has(y) ensures !Covers(f, y) {
      assert b.Has(y);
    }
  }

  /** Taking the front of a free block leaves exactly the other free bytes. */
  lemma TakeCovers(l: Layout, f: seq<Block>, i: nat, r: nat, x: int)
    requires Gaps(f) && i < |f| && 0 < r <= f[i].size
    ensures var n := Granted(l, f[i], r);
            && Gaps(Take(l, f, i, r)) && Sum(Take(l, f, i, r)) == Sum(f) - n && 0 < n <= f[i].size
            && (Covers(Take(l, f, i, r), x) <==> Covers(f, x) && !Block(f[i].addr, n).Has(x))
  {
    hide Coalesce, Gaps, Covers, Apart, Sum;
    var b, rest := f[i], RemoveAt(f, i);
    RemoveBlock(f, i, x);
    SumRemove(f, i);
    BlockCovered(f, i, x);
    if b.size - r > 2 * l.header {
      var tail := Block(b.addr + r, b.size - r);
      ApartPart(rest, b, tail);
      CoalesceFrees(rest, tail, x);
      SumCoalesce(rest, tail);
    }
  }

  lemma BlockCovered(f: seq<Block>, i: nat, x: int)
    requires i < |f|
    ensures f[i].Has(x) ==> Covers(f, x)
    ensures Gaps(f) ==> f[i].size > 0
  {
  }

  lemma TakePlaced(l: Layout, f: seq<Block>, i: nat, r: nat)
    requires l.Valid() && i < |f| && l.header <= r <= f[i].size && r % l.align == 0
    requires forall j :: 0 <= j < |f| ==> WellPlaced(l, f[j])
    ensures forall j :: 0 <= j < |Take(l, f, i, r)| ==> WellPlaced(l, Take(l, f, i, r)[j])
    ensures WellPlaced(l, Block(f[i].addr, Granted(l, f[i], r)))
  {
    hide Coalesce;
    var b, rest := f[i], RemoveAt(f, i);
    assert WellPlaced(l, b);
    if b.size - r > 2 * l.header {
      var tail := Block(b.addr + r, b.size - r);
      SumAligned(b.addr, r, l.align);
      DifferenceAligned(b.size, r, l.align);
      CoalescePlaced(l, rest, tail);
    }
  }

  lemma LivedAlso(l: Layout, y: Arena, b: Block, x: int)
    requires l.Valid() && Tiled(l, y) && b.addr !in y.live
    ensures Lived(y.live[b.addr := b.size], x) <==> Lived(y.live, x) || b.Has(x)
  {
    var live := y.live[b.addr := b.size];
    if a :| a in y.live && Block(a, y.live[a]).Has(x) {
      assert a in live && Block(a, live[a]).Has(x);
    }
    if b.Has(x) {
      assert b.addr in live && Block(b.addr, live[b.addr]).Has(x);
    }
    if a :| a in live && Block(a, live[a]).Has(x) && a != b.addr {
      assert a in y.live && Block(a, y.live[a]).Has(x);
    }
  }

  /** A part of a free block is disjoint from every live block. */
  lemma FreeApart(l: Layout, y: Arena, i: nat, n: nat, a: nat)
    requires l.Valid() && Tiled(l, y) && i < |y.free| && 0 < n <= y.free[i].size && a in y.live
    ensures a != y.free[i].addr
    ensures a < y.free[i].addr ==> a + y.live[a] <= y.free[i].addr
    ensures y.free[i].addr < a ==> y.free[i].addr + n <= a
  {
    var b, c := y.free[i], Block(a, y.live[a]);
    assert WellPlaced(l, c);
    assert b.Has(b.addr) && Covers(y.free, b.addr);
    assert c.Has(a) && Lived(y.live, a);
    assert !c.Has(b.addr);
    assert !b.Has(a);
  }

  lemma MallocInv(l: Layout, y: Arena, want: nat)
    requires l.Valid() && Inv(l, y) && want < SIZE_MOD
    ensures Inv(l, Malloc(l, y, want).0)
  {
    hide Gaps, Covers, Lived, Take, WellPlaced, Rounded, Granted;
    if Serviceable(l, y, want) {
      var r := Rounded(l, want);
      var i := FirstFit(y.free, r);
      var b := Block(y.free[i].addr, Granted(l, y.free[i], r));
      var z := Malloc(l, y, want).0;
      RoundedFits(l, want);
      TakePlaced(l, y.free, i, r);
      TakeCovers(l, y.free, i, r, 0);
      forall a | a in y.live ensures a != b.addr && (a < b.addr ==> a + y.live[a] <= b.addr)
          && (b.addr < a ==> b.End() <= a) {
        FreeApart(l, y, i, b.size, a);
      }
      forall x ensures Covers(z.free, x) <==> l.start <= x < l.end && !Lived(z.live, x) {
        TakeCovers(l, y.free, i, r, x);
        LivedAlso(l, y, b, x);
      }
    }
  }

  // ---------------------------------------------------------------- what callers get

  /** pvPortMalloc returns non-NULL exactly when the rounded size neither overflows nor sets the top bit
      and some free block is that large. */
  lemma MallocSucceeds(l: Layout, y: Arena, want: nat)
    requires l.Valid() && Inv(l, y)
    ensures var size := want + l.header + (l.align - want % l.align);
            Malloc(l, y, want).1 != 0 <==>
            0 < want && size < ALLOCATED_BIT && exists i :: 0 <= i < |y.free| && y.free[i].size >= size
    ensures Malloc(l, y, want).1 == 0 ==> Malloc(l, y, want).0 == y
  {
    NoSize(l, want);
  }

  /** The region returned is aligned and at least as large as requested, lies in the lowest-addressed free
      block that is large enough, and overlaps no live block. */
  lemma MallocRegion(l: Layout, y: Arena, want: nat, a: nat)
    requires l.Valid() && Inv(l, y) && want < SIZE_MOD && Malloc(l, y, want).1 != 0
    ensures var (z, pv) := Malloc(l, y, want);
            && pv % l.align == 0 && l.header < pv && l.start <= pv - l.header
            && pv - l.header !in y.live && z.live.Keys == y.live.Keys + {pv - l.header}
            && pv + want <= pv - l.header + z.live[pv - l.header] <= l.end
            && (a in y.live ==> z.live[a] == y.live[a] && (a + y.live[a] <= pv - l.header || pv + want <= a))
    ensures var pv := Malloc(l, y, want).1;
            forall i :: 0 <= i < |y.free| && y.free[i].size >= Rounded(l, want) ==> pv - l.header <= y.free[i].addr
  {
    hide Coalesce;
    var r := Rounded(l, want);
    var i := FirstFit(y.free, r);
    RoundedFits(l, want);
    assert WellPlaced(l, y.free[i]);
    SumAligned(y.free[i].addr, l.header, l.align);
    if a in y.live {
      FreeApart(l, y, i, Granted(l, y.free[i], r), a);
    }
    NewAddress(l, y, i);
  }

  /** What an allocation of `want` bytes at `addr` has taken from block `i` of the free list: its header, its padding,
      and what would be left of the block if that is not more than two headers, but nothing else.  `most` is the most
      that the request itself can need. */
  ghost predicate TakenFrom(l: Layout, y: Arena, z: Arena, want: nat, addr: nat, i: nat) {
    var most := want + l.header + l.align;
    && i < |y.free| && y.free[i].addr == addr && addr in z.live
    && (forall j :: 0 <= j < |y.free| && y.free[j].size >= most ==> i <= j)
    && var n, size := z.live[addr], y.free[i].size;
    && want + l.header < n <= most + 2 * l.header && n <= size
    && (n < size ==> n <= most && size - n > 2 * l.header)
    && z.live == y.live[addr := n] && Sum(z.free) == Sum(y.free) - n && z.minEver == Min(y.minEver, Sum(z.free))
    && z.mallocs == y.mallocs + 1 && z.frees == y.frees
  }

  /** No more is taken than the request needs, and the rest stays free. */
  lemma MallocSplits(l: Layout, y: Arena, want: nat, z: Arena, addr: nat, x: int) returns (i: nat)
    requires l.Valid() && Inv(l, y) && want < SIZE_MOD && Malloc(l, y, want) == (z, addr + l.header)
    ensures TakenFrom(l, y, z, want, addr, i)
    ensures Covers(z.free, x) <==> Covers(y.free, x) && !(addr <= x < addr + z.live[addr])
  {
    hide Coalesce, Gaps, Covers, Sum, Take, Rounded, Lived, WellPlaced;
    var r := Rounded(l, want);
    i := FirstFit(y.free, r);
    RoundedFits(l, want);
    TakeCovers(l, y.free, i, r, x);
  }

  /** A free gives back exactly the bytes of the block. */
  lemma FreeReturns(l: Layout, y: Arena, addr: nat, x: int)
    requires l.Valid() && Inv(l, y) && addr in y.live
    ensures var z, n := Free(y, addr), y.live[addr];
            && z.live == y.live - {addr} && Sum(z.free) == Sum(y.free) + n && z.minEver == y.minEver
            && (Covers(z.free, x) <==> Covers(y.free, x) || addr <= x < addr + n)
            && z.mallocs == y.mallocs && z.frees == y.frees + 1
  {
    var b := Block(addr, y.live[addr]);
    LiveApart(l, y, b);
    CoalesceFrees(y.free, b, x);
    SumCoalesce(y.free, b);
  }

  lemma NewAddress(l: Layout, y: Arena, i: nat)
    requires l.Valid() && Tiled(l, y) && i < |y.free|
    ensures y.free[i].addr !in y.live
  {
    if y.free[i].addr in y.live {
      FreeApart(l, y, i, y.free[i].size, y.free[i].addr);
    }
  }

  lemma InvTiled(l: Layout, y: Arena)
    requires l.Valid() && Inv(l, y)
    ensures Tiled(l, y)
  {
  }

  /** A malloc followed at once by a free of its result restores the free list and the live blocks. */
  lemma MallocThenFree(l: Layout, y: Arena, want: nat, z: Arena, addr: nat)
    requires l.Valid() && Inv(l, y) && want < SIZE_MOD
    requires Malloc(l, y, want) == (z, addr + l.header)
    ensures addr in z.live && Free(z, addr).free == y.free && Free(z, addr).live == y.live
  {
    hide Coalesce, Inv, Tiled, Take, Rounded, Granted;
    MallocRegion(l, y, want, 0);
    MallocInv(l, y, want);
    FreeInv(l, z, addr);
    InvTiled(l, y);
    InvTiled(l, Free(z, addr));
    assert Free(z, addr).live == y.live;
    FreeListCanonical(l, Free(z, addr), y);
  }

  /** The order in which two blocks are freed does not matter. */
  lemma FreeCommutes(l: Layout, y: Arena, a: nat, b: nat)
    requires l.Valid() && Inv(l, y) && a in y.live && b in y.live && a != b
    ensures Free(Free(y, a), b) == Free(Free(y, b), a)
  {
    hide Coalesce, Inv, Tiled;
    FreeInv(l, y, a);
    FreeInv(l, y, b);
    var p, q := Free(Free(y, a), b), Free(Free(y, b), a);
    FreeInv(l, Free(y, a), b);
    FreeInv(l, Free(y, b), a);
    InvTiled(l, p);
    InvTiled(l, q);
    assert p.live == q.live;
    FreeListCanonical(l, p, q);
  }

  datatype Op = Request(want: nat) | Release(addr: nat)

  function Apply(l: Layout, y: Arena, op: Op): Arena
    requires 0 < l.align
  {
    match op
    case Request(want) => Malloc(l, y, want % SIZE_MOD).0
    case Release(addr) => if addr in y.live then Free(y, addr) else y
  }

  function Run(l: Layout, y: Arena, ops: seq<Op>): Arena
    requires 0 < l.align
    decreases |ops|
  {
    if ops == [] then y else Run(l, Apply(l, y, ops[0]), ops[1..])
  }

  /** The fewest free bytes in any arena of the run. */
  function Lowest(l: Layout, y: Arena, ops: seq<Op>): nat
    requires 0 < l.align
    decreases |ops|
  {
    if ops == [] then Sum(y.free) else Min(Sum(y.free), Lowest(l, Apply(l, y, ops[0]), ops[1..]))
  }

  lemma ApplyInv(l: Layout, y: Arena, op: Op)
    requires l.Valid() && Inv(l, y)
    ensures Inv(l, Apply(l, y, op))
    ensures Apply(l, y, op).minEver == Min(y.minEver, Sum(Apply(l, y, op).free))
  {
    match op
    case Request(want) => MallocInv(l, y, want % SIZE_MOD);
    case Release(addr) =>
      if addr in y.live {
        FreeInv(l, y, addr);
      }
  }

  /** After any sequence of calls the heap is tiled, and the minimum-ever counter is the running minimum. */
  lemma {:induction false} RunInv(l: Layout, y: Arena, ops: seq<Op>)
    requires l.Valid() && Inv(l, y)
    ensures Inv(l, Run(l, y, ops))
    ensures Run(l, y, ops).minEver == Min(y.minEver, Lowest(l, y, ops))
    decreases |ops|
  {
    if ops != [] {
      ApplyInv(l, y, ops[0]);
      RunInv(l, Apply(l, y, ops[0]), ops[1..]);
    }
  }

  /** Two histories that end with the same live blocks end with the same free list; if nothing is live it
      is the single block that initialisation made. */
  lemma HistoryForgotten(l: Layout, ops: seq<Op>, others: seq<Op>)
    requires l.Valid() && l.end - l.start >= l.header
    ensures var y, z := Run(l, Initial(l), ops), Run(l, Initial(l), others);
            && Inv(l, y) && Inv(l, z) && y.minEver == Lowest(l, Initial(l), ops)
            && (y.live == z.live ==> y.free == z.free)
            && (y.live == map[] ==> y.free == Initial(l).free)
  {
    hide Inv, Tiled, Sum, Run, Lowest, Apply;
    InitialInv(l);
    RunInv(l, Initial(l), ops);
    RunInv(l, Initial(l), others);
    StartsLowest(l, ops);
    var y, z := Run(l, Initial(l), ops), Run(l, Initial(l), others);
    InvTiled(l, y);
    InvTiled(l, z);
    if y.live == z.live { FreeListCanonical(l, y, z); }
    if y.live == map[] { AllFreed(l, y); }
  }

  /** The counter starts at the sum of the first free list. */
  lemma StartsLowest(l: Layout, ops: seq<Op>)
    requires l.Valid()
    ensures Min(Initial(l).minEver, Lowest(l, Initial(l), ops)) == Lowest(l, Initial(l), ops)
  {
    var y := Initial(l);
    SumOne(y.free[0]);
    hide Apply, Sum;
    if ops != [] {
      assert Lowest(l, y, ops) == Min(Sum(y.free), Lowest(l, Apply(l, y, ops[0]), ops[1..]));
    }
  }
}
