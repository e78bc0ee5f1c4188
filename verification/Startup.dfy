/**
  From power-on to the first process: the memory map (kernel/init.c), `init_mem` (kernel/mem.c), and the chunks that
  `load_initrd` (kernel/fs.c) and `init_pmm` (kernel/proc.c) take, in the order of `kmain`.
 */
module Startup {
  import opened Words
  import opened IntrusiveLists
  import opened MemoryMap
  import opened Memory
  import opened Paging
  import opened AddressSpaces
  import opened Supplies
  import D = Devices
  import TF = TrapFrames
  import T = Threads
  import Sys = Systems
  import R = ProcessRuns
  import B = Blocks
  import P = PageAllocator
  import H = KernelHeap

  /** No slot below the bound is empty: `init_mem` takes an empty one for a block of no bytes at the bottom of memory. */
  ghost predicate NoGaps(t: Table) {
    forall i :: 0 <= i < t.n && i < |t.slots| ==> t.slots[i].len > 0
  }

  /** The block `init_mem` makes of a slot. */
  ghost function BlockOf(s: Slot): B.Block {
    B.Block(s.addr + KERNEL_OFFSET, s.len)
  }

  /** The blocks of a table's slots below its bound. */
  ghost function MapBlocks(t: Table): seq<B.Block> {
    if t.n <= |t.slots| then BlocksOf(t.slots[..t.n]) else []
  }

  ghost function BlocksOf(slots: seq<Slot>): seq<B.Block> {
    seq(|slots|, i requires 0 <= i < |slots| => BlockOf(slots[i]))
  }

  /** The chunks taken before the first process: the kernel heap, two for the ramdisk's tables, and the region table. */
  const CHUNKS: seq<u32> := [0x1_0000, 0x2000, 0x2000, 0x400]

  /** The requests can be served one after the other. */
  ghost predicate Serves(bs: seq<B.Block>, ns: seq<u32>)
    decreases |ns|
  {
    ns == [] || (P.AllocatedAt(bs, ns[0]) != NULL && Serves(P.AllocatedRest(bs, ns[0]), ns[1..]))
  }

  ghost function Served(bs: seq<B.Block>, ns: seq<u32>): seq<B.Block>
    decreases |ns|
  {
    if ns == [] then bs else Served(P.AllocatedRest(bs, ns[0]), ns[1..])
  }

  /** Pages of the chunks. */
  ghost function Taken(bs: seq<B.Block>, ns: seq<u32>): set<int>
    decreases |ns|
  {
    if ns == [] then {}
    else P.Span(B.Block(P.AllocatedAt(bs, ns[0]), PgUp(ns[0]))) + Taken(P.AllocatedRest(bs, ns[0]), ns[1..])
  }

  /** Pages of remainders that the splits did not put back. */
  ghost function Lost(bs: seq<B.Block>, ns: seq<u32>): set<int>
    decreases |ns|
  {
    if ns == [] then {} else P.LostPages(bs, ns[0]) + Lost(P.AllocatedRest(bs, ns[0]), ns[1..])
  }

  /** Every page there was is free, in a chunk or lost, and in one of them only. */
  lemma {:induction false} ServedConserves(bs: seq<B.Block>, ns: seq<u32>)
    requires P.AllWellFormed(bs) && P.Disjoint(bs) && Serves(bs, ns)
    ensures P.Pages(Served(bs, ns)) + Taken(bs, ns) + Lost(bs, ns) == P.Pages(bs)
    ensures P.Pages(Served(bs, ns)) !! Taken(bs, ns) && Lost(bs, ns) !! (P.Pages(Served(bs, ns)) + Taken(bs, ns))
    decreases |ns|
  {
    hide P.AllWellFormed, P.Disjoint, P.AllocatedAt, P.AllocatedRest, P.Pages, P.Span;
    if ns != [] {
      P.AllocConserves(bs, ns[0]);
      ServedConserves(P.AllocatedRest(bs, ns[0]), ns[1..]);
    }
  }

  /** Page `f` of memory is free, in one of the four chunks, or lost. */
  ghost predicate Accounted(bs: seq<B.Block>, free: seq<B.Block>, f: int) {
    var ns := [0x1_0000, 0x2000, 0x2000, 0x400];
    FreeFrame(free, f) || f + USER_PAGES in Taken(bs, ns) || f + USER_PAGES in Lost(bs, ns)
  }

  /** Frames of the part of the kernel image that is cut out of the memory map. */
  ghost function ImageFrames(kstart: u32, kend: u32): set<nat> {
    set f: nat | f < U32 && InFrames(f, PgDown(kstart), PgUp(kend))
  }

  ghost predicate InFrames(f: nat, lo: nat, hi: nat) {
    lo <= f * PAGE < hi
  }

  /** Available memory exists and lies in the half that the kernel maps. */
  ghost predicate Backed(entries: seq<Entry>, size: nat) {
    forall x :: AvailableAt(entries, x) ==> 0 <= x < size
  }

  lemma SlotsBelow(t: Table, size: nat)
    requires WellFormed(t) && size <= KERNEL_OFFSET && (forall x :: Covers(t.slots, x) ==> 0 <= x < size)
    ensures forall i :: 0 <= i < t.n && t.slots[i].len > 0 ==> t.slots[i].addr + t.slots[i].len <= size
  {
    forall i | 0 <= i < t.n && t.slots[i].len > 0
      ensures t.slots[i].addr + t.slots[i].len <= size
    {
      var x := t.slots[i].addr + t.slots[i].len - 1;
      assert InSlot(t.slots[i], x);
      assert Covers(t.slots, x);
    }
  }

  /** The blocks are in order, and their frames are exactly those of the map. */
  lemma BlocksInOrder(t: Table, size: nat)
    requires WellFormed(t) && NoGaps(t) && size <= KERNEL_OFFSET && (forall x :: Covers(t.slots, x) ==> 0 <= x < size)
    ensures var bs := MapBlocks(t);
      && P.AllWellFormed(bs) && P.Disjoint(bs) && (forall f :: FreeFrame(bs, f) ==> Covers(t.slots, f * PAGE) && f >= 0)
      && forall x :: Covers(t.slots, x) <==> FreeFrame(bs, x / PAGE)
  {
    var bs := MapBlocks(t);
    SlotsBelow(t, size);
    forall i | 0 <= i < |bs|
      ensures P.WellFormed(bs[i])
    {
      assert PageSlot(t.slots[i]) && t.slots[i].len > 0;
    }
    forall i, j | 0 <= i < j < |bs|
      ensures P.Span(bs[i]) !! P.Span(bs[j])
    {
      SpansApart(t, i, j);
    }
    forall f | FreeFrame(bs, f)
      ensures Covers(t.slots, f * PAGE) && f >= 0
    {
      var i :| 0 <= i < |bs| && f + USER_PAGES in P.Span(bs[i]);
      FrameInSlot(t.slots[i], f);
      assert InSlot(t.slots[i], f * PAGE);
    }
    forall x
      ensures Covers(t.slots, x) <==> FreeFrame(bs, x / PAGE)
    {
      CoveredFree(t, x);
    }
  }

  lemma CoveredFree(t: Table, x: int)
    requires WellFormed(t)
    ensures Covers(t.slots, x) <==> FreeFrame(MapBlocks(t), x / PAGE)
  {
    hide DisjointSlots;
    var bs := MapBlocks(t);
    if Covers(t.slots, x) {
      var i :| 0 <= i < |t.slots| && InSlot(t.slots[i], x);
      SlotFrames(t.slots[i], x);
      assert i < t.n && bs[i] == BlockOf(t.slots[i]);
    }
    if FreeFrame(bs, x / PAGE) {
      var i :| 0 <= i < |bs| && x / PAGE + USER_PAGES in P.Span(bs[i]);
      SlotFrames(t.slots[i], x);
      assert InSlot(t.slots[i], x);
    }
  }

  lemma SlotFrames(s: Slot, x: int)
    requires PageSlot(s)
    ensures InSlot(s, x) <==> x / PAGE + USER_PAGES in P.Span(BlockOf(s))
  {
    assert (s.addr + KERNEL_OFFSET) / PAGE == s.addr / PAGE + USER_PAGES;
    assert (s.addr + KERNEL_OFFSET + s.len) / PAGE == (s.addr + s.len) / PAGE + USER_PAGES;
  }

  lemma FrameInSlot(s: Slot, f: int)
    requires PageSlot(s) && f + USER_PAGES in P.Span(BlockOf(s))
    ensures InSlot(s, f * PAGE) && f >= 0
  {
    assert (s.addr + KERNEL_OFFSET) / PAGE == s.addr / PAGE + USER_PAGES;
    assert (s.addr + KERNEL_OFFSET + s.len) / PAGE == (s.addr + s.len) / PAGE + USER_PAGES;
  }

  lemma SpansApart(t: Table, i: nat, j: nat)
    requires WellFormed(t) && i < j < t.n && j < |t.slots|
    ensures P.Span(BlockOf(t.slots[i])) !! P.Span(BlockOf(t.slots[j]))
  {
    forall q | q in P.Span(BlockOf(t.slots[i])) && q in P.Span(BlockOf(t.slots[j]))
      ensures false
    {
      FrameInSlot(t.slots[i], q - USER_PAGES);
      FrameInSlot(t.slots[j], q - USER_PAGES);
    }
  }

  // ---------- slots in use are marked available

  ghost predicate Marked(t: Table) {
    && |t.slots| == SLOTS && t.n <= SLOTS && (forall i :: t.n <= i < SLOTS ==> t.slots[i].len == 0)
    && forall i :: 0 <= i < t.n ==> t.slots[i].available
  }

  lemma AddedMarked(t: Table, addr: nat, len: nat)
    requires Marked(t)
    ensures Marked(Added(t, addr, len)) && Added(t, addr, len).n >= t.n
  {
    FirstEmptyIs(t.slots);
  }

  lemma EmptiedMarked(t: Table, m: nat)
    requires Marked(t) && m < t.n
    ensures Marked(t.(slots := t.slots[m := Slot(0, 0, t.slots[m].available)]))
  {
  }

  lemma SlotCutMarked(t: Table, m: nat, lo: nat, hi: nat)
    requires Marked(t) && m < t.n && m < |t.slots|
    ensures Marked(SlotCut(t, m, lo, hi))
  {
    hide Marked, Added;
    EmptiedMarked(t, m);
    var e := t.slots[m];
    var first, last := e.addr % U32, (e.addr + e.len) % U32;
    var from, to := Max(lo, first), Min(hi, last);
    if from < to {
      var t1 := t.(slots := t.slots[m := Slot(0, 0, e.available)]);
      var t2 := if from > first then Added(t1, first, from - first) else t1;
      if from > first {
        AddedMarked(t1, first, from - first);
      }
      if to < last {
        AddedMarked(t2, to, last - to);
      }
    }
  }

  lemma {:induction false} CutMarked(t: Table, m: nat, lo: nat, hi: nat)
    requires Marked(t)
    ensures Marked(CutFrom(t, m, lo, hi))
    decreases SLOTS - m
  {
    if m < t.n && !t.panicked {
      SlotCutMarked(t, m, lo, hi);
      CutMarked(SlotCut(t, m, lo, hi), m + 1, lo, hi);
    }
  }

  lemma {:induction false} AddAllMarked(entries: seq<Entry>)
    ensures Marked(AddAll(NewTable(), entries))
  {
    if entries != [] {
      var e, t := entries[|entries| - 1], AddAll(NewTable(), entries[..|entries| - 1]);
      AddAllMarked(entries[..|entries| - 1]);
      AddedMarked(t, e.addr, e.len);
    }
  }

  lemma BootMarked(entries: seq<Entry>, kstart: u32, kend: u32, mstart: u32, mend: u32)
    ensures Marked(Boot(entries, kstart, kend, mstart, mend))
  {
    hide AddAll, CutFrom, Marked;
    AddAllMarked(entries);
    var t := AddAll(NewTable(), entries);
    CutMarked(t, 0, PgDown(kstart), PgUp(kend));
    CutMarked(Cut(t, kstart, kend), 0, PgDown(0), PgUp(0x1000));
    CutMarked(Cut(Cut(t, kstart, kend), 0, 0x1000), 0, PgDown(mstart), PgUp(mend));
  }

  // ---------- the boot sequence

  /** Boot gets as far as `initsys`: the map holds, no slot is empty, and all chunks are to be had. */
  ghost predicate ComesUp(t: Table) {
    !t.panicked && NoGaps(t) && Serves(P.InitList(MapBlocks(t)), CHUNKS)
  }

  /** Address `x` is available and in none of the three cuts. */
  ghost predicate Left(entries: seq<Entry>, kstart: u32, kend: u32, mstart: u32, mend: u32, x: int) {
    && AvailableAt(entries, x) && !(PgDown(kstart) <= x < PgUp(kend)) && !(0 <= x < 0x1000) && !(PgDown(mstart) <= x < PgUp(mend))
  }

  /**
    Two slots of more than 21 pages, the size of the four chunks together, are enough; a map of a single slot never
    is, because the first split finds an empty list and loses all that remains.
   */
  lemma ComesUpWhen(t: Table)
    requires WellFormed(t) && (forall i :: 0 <= i < t.n ==> t.slots[i].addr + t.slots[i].len <= KERNEL_OFFSET)
    ensures !t.panicked && NoGaps(t) && Long(MapBlocks(t), 0x1_5001) >= 2 ==> ComesUp(t)
    ensures t.n <= 1 ==> !ComesUp(t)
  {
    hide DisjointSlots, Long, Serves;
    if NoGaps(t) {
      var bs, es := P.InitList(MapBlocks(t)), MapBlocks(t);
      MapInOrder(t);
      InitInOrder(es);
      InitLong(es, 0x1_5001);
      if Long(bs, 0x1_5001) >= 2 {
        TwoServe(bs);
      }
      if t.n <= 1 {
        OneFails(bs);
      }
    }
  }

  lemma MapInOrder(t: Table)
    requires WellFormed(t) && NoGaps(t) && (forall i :: 0 <= i < t.n ==> t.slots[i].addr + t.slots[i].len <= KERNEL_OFFSET)
    ensures P.AllWellFormed(MapBlocks(t)) && P.Disjoint(MapBlocks(t)) && |MapBlocks(t)| == t.n
  {
    hide DisjointSlots;
    var bs := MapBlocks(t);
    forall i | 0 <= i < |bs|
      ensures P.WellFormed(bs[i])
    {
      assert PageSlot(t.slots[i]) && t.slots[i].len > 0;
    }
    forall i, j | 0 <= i < j < |bs|
      ensures P.Span(bs[i]) !! P.Span(bs[j])
    {
      SpansApart(t, i, j);
    }
  }

  lemma {:induction false} InitInOrder(entries: seq<B.Block>)
    requires P.AllWellFormed(entries) && P.Disjoint(entries)
    ensures P.AllWellFormed(P.InitList(entries)) && P.Disjoint(P.InitList(entries)) && P.Pages(P.InitList(entries)) == P.Pages(entries)
  {
    hide P.InitInserted, P.Pages;
    if entries != [] {
      var n := |entries| - 1;
      var es, e := entries[..n], entries[n];
      assert entries == Inserted(es, n, e);
      P.PagesInserted(es, n, e);
      LastApart(entries);
      InitInOrder(es);
      P.InitInsertedPages(P.InitList(es), e);
    } else {
      assert P.Pages([]) == P.Pages(P.InitList([]));
    }
  }

  lemma LastApart(entries: seq<B.Block>)
    requires P.AllWellFormed(entries) && P.Disjoint(entries) && entries != []
    ensures var n := |entries| - 1;
      P.AllWellFormed(entries[..n]) && P.Disjoint(entries[..n]) && P.WellFormed(entries[n]) && P.Pages(entries[..n]) !! P.Span(entries[n])
  {
  }

  /** `init_mem` keeps all entries. */
  lemma {:induction false} InitLong(entries: seq<B.Block>, n: nat)
    ensures Long(P.InitList(entries), n) == Long(entries, n) && |P.InitList(entries)| == |entries|
  {
    hide Long, P.InitPosition;
    if entries != [] {
      var es, e := entries[..|entries| - 1], entries[|entries| - 1];
      InitLong(es, n);
      LongConcat(es, [e], n);
      LongOne(e, n);
      assert entries == es + [e];
      var bs := P.InitList(es);
      if bs != [] {
        LongInserted(bs, P.InitPosition(bs, e.len) + 1, e, n);
      } else {
        LongConcat([], [], n);
      }
    }
  }

  lemma TwoServe(bs: seq<B.Block>)
    requires P.AllWellFormed(bs) && P.Disjoint(bs) && Long(bs, 0x1_5001) >= 2
    ensures Serves(bs, CHUNKS)
  {
    hide P.AllWellFormed, P.Disjoint, P.AllocatedAt, P.AllocatedRest, Long, Serves;
    TakeKeeps(bs, 0x1_0000, 0x1_5001);
    var b1 := P.AllocatedRest(bs, 0x1_0000);
    TakeKeeps(b1, 0x2000, 0x5001);
    var b2 := P.AllocatedRest(b1, 0x2000);
    TakeKeeps(b2, 0x2000, 0x3001);
    var b3 := P.AllocatedRest(b2, 0x2000);
    TakeKeeps(b3, 0x400, 0x1001);
    ServesFour(bs);
  }

  lemma ServesFour(bs: seq<B.Block>)
    ensures var b1 := P.AllocatedRest(bs, 0x1_0000); var b2 := P.AllocatedRest(b1, 0x2000); var b3 := P.AllocatedRest(b2, 0x2000);
      Serves(bs, CHUNKS) <==>
        && P.AllocatedAt(bs, 0x1_0000) != NULL && P.AllocatedAt(b1, 0x2000) != NULL && P.AllocatedAt(b2, 0x2000) != NULL
        && P.AllocatedAt(b3, 0x400) != NULL
  {
    hide P.AllocatedAt, P.AllocatedRest;
    ServesOne(bs, 0x1_0000, [0x2000, 0x2000, 0x400]);
    var b1 := P.AllocatedRest(bs, 0x1_0000);
    ServesOne(b1, 0x2000, [0x2000, 0x400]);
    var b2 := P.AllocatedRest(b1, 0x2000);
    ServesOne(b2, 0x2000, [0x400]);
    ServesOne(P.AllocatedRest(b2, 0x2000), 0x400, []);
  }

  lemma ServesOne(bs: seq<B.Block>, n: u32, ns: seq<u32>)
    ensures Serves(bs, [n] + ns) <==> P.AllocatedAt(bs, n) != NULL && Serves(P.AllocatedRest(bs, n), ns)
    ensures Serves(bs, [])
  {
    assert ([n] + ns)[1..] == ns;
  }

  lemma OneFails(bs: seq<B.Block>)
    requires |bs| <= 1
    ensures !Serves(bs, CHUNKS)
  {
    ServesFour(bs);
    var b1 := P.AllocatedRest(bs, 0x1_0000);
    if P.AllocatedAt(bs, 0x1_0000) != NULL {
      assert b1 == [];
    }
  }

  lemma BootedMap(entries: seq<Entry>, kstart: u32, kend: u32, mstart: u32, mend: u32, size: nat)
    requires CleanEntries(entries) && Backed(entries, size) && size <= KERNEL_OFFSET
    ensures var t := Boot(entries, kstart, kend, mstart, mend);
      !t.panicked ==>
        && WellFormed(t) && (forall x :: Covers(t.slots, x) ==> 0 <= x < size && !InCut(x, PgDown(kstart), PgUp(kend)))
        && forall x :: Covers(t.slots, x) <==> Left(entries, kstart, kend, mstart, mend, x)
  {
    hide WellFormed, Covers, AddAll, Cut;
    BootExact(entries, kstart, kend, mstart, mend);
  }

  /** `init_mem` up to the heap: the blocks of the available slots, in table order. */
  method InitBlocks(info: KernelInfo) returns (ok: bool, blocks: seq<B.Block>)
    requires info.Valid() && Marked(info.Abstract())
    ensures ok == NoGaps(info.Abstract()) && (ok ==> blocks == MapBlocks(info.Abstract()))
  {
    ok, blocks := true, [];
    ghost var t := info.Abstract();
    var m := 0;
    while m < info.mmap_n
      invariant 0 <= m <= t.n && |blocks| == m && (forall i :: 0 <= i < m ==> t.slots[i].len > 0 && blocks[i] == BlockOf(t.slots[i]))
    {
      assert t.slots[m] == info.memmap[m] && t.slots[m].available;
      if info.memmap[m].len == 0 {
        return false, [];
      }
      blocks := blocks + [B.Block(info.memmap[m].addr + KERNEL_OFFSET, info.memmap[m].len)];
      m := m + 1;
    }
    assert blocks == MapBlocks(t);
  }

  /** The four chunks, in order; the heap is the first. */
  method TakeChunks(pages: P.PageAllocator) returns (ok: bool, heap: Ptr)
    requires pages.Valid()
    modifies pages, pages.freelist
    ensures pages.Valid() && ok == Serves(old(pages.Blocks()), CHUNKS)
    ensures ok ==> pages.Blocks() == Served(old(pages.Blocks()), CHUNKS) && heap == P.AllocatedAt(old(pages.Blocks()), 0x1_0000)
  {
    hide P.PageAllocator.Valid, P.AllocatedAt, P.AllocatedRest;
    heap := 0;
    ghost var bs := pages.Blocks();
    var i := 0;
    while i < |CHUNKS|
      invariant 0 <= i <= |CHUNKS| && pages.Valid()
      invariant Serves(bs, CHUNKS) == Serves(pages.Blocks(), CHUNKS[i..])
      invariant Served(bs, CHUNKS) == Served(pages.Blocks(), CHUNKS[i..])
      invariant i == 0 ==> pages.Blocks() == bs
      invariant i > 0 ==> heap == P.AllocatedAt(bs, 0x1_0000)
    {
      assert CHUNKS[i..][0] == CHUNKS[i] && CHUNKS[i..][1..] == CHUNKS[i + 1..];
      var a := pages.AllocPages(CHUNKS[i]);
      if a == NULL {
        return false, 0;
      }
      if i == 0 {
        heap := a;
      }
      i := i + 1;
    }
    ok := true;
  }

  /** Chunks come from the free pages. */
  lemma {:induction false} ServedFewer(bs: seq<B.Block>, ns: seq<u32>)
    requires P.AllWellFormed(bs) && P.Disjoint(bs) && Serves(bs, ns)
    ensures forall f :: FreeFrame(Served(bs, ns), f) ==> FreeFrame(bs, f)
    decreases |ns|
  {
    hide P.AllWellFormed, P.Disjoint, P.AllocatedAt, P.AllocatedRest, FreeFrame;
    if ns != [] {
      AllocatedFrames(bs, ns[0]);
      RestInOrder(bs, ns[0]);
      ServedFewer(P.AllocatedRest(bs, ns[0]), ns[1..]);
    }
  }

  lemma RestInOrder(bs: seq<B.Block>, sz: u32)
    requires P.AllWellFormed(bs) && P.Disjoint(bs)
    ensures P.AllWellFormed(P.AllocatedRest(bs, sz)) && P.Disjoint(P.AllocatedRest(bs, sz))
  {
    hide P.AllWellFormed, P.Disjoint, P.AllocatedRest, P.AllocatedAt;
    P.AllocConserves(bs, sz);
  }

  /** The image is not free, the rest is in memory. */
  lemma FreeAfterBoot(t: Table, bs: seq<B.Block>, rest: seq<B.Block>, kstart: u32, kend: u32, size: nat)
    requires size % PAGE == 0 && size <= KERNEL_OFFSET
    requires forall x :: Covers(t.slots, x) ==> 0 <= x < size && !InCut(x, PgDown(kstart), PgUp(kend))
    requires forall f :: FreeFrame(bs, f) ==> Covers(t.slots, f * PAGE) && f >= 0
    requires forall f :: FreeFrame(rest, f) ==> FreeFrame(bs, f)
    ensures forall f :: FreeFrame(rest, f) ==> 0 <= f < size / PAGE
    ensures forall f :: f in ImageFrames(kstart, kend) ==> !FreeFrame(rest, f)
  {
    hide FreeFrame, Covers;
  }

  /** The first chunk becomes the heap, in the kernel half. */
  lemma HeapPlaced(bs: seq<B.Block>)
    requires P.AllWellFormed(bs) && P.Disjoint(bs) && P.AllocatedAt(bs, 0x1_0000) != NULL
    ensures InKernelHalf([B.Block(P.AllocatedAt(bs, 0x1_0000), H.ARENA)])
  {
    hide P.AllWellFormed, P.Disjoint, P.AllocatedAt;
    AllocatedFrames(bs, 0x1_0000);
    assert PgUp(0x1_0000) == 0x1_0000;
  }

  /**
    From the memory map the boot loader hands over to the state in which `initsys` starts: everything the
    address spaces assume of it holds, and boot gets there exactly when `ComesUp` says. All available memory outside the
    three cuts, and nothing else, is then free, in one of the four chunks, or in a remainder lost by a split.
   */
  method PowerOn(info: KernelInfo, entries: seq<Entry>, kstart: u32, kend: u32, mstart: u32, mend: u32, ram: array<Byte>,
                 bootdir: nat, directory: seq<Pte>, console: D.Node, fb: D.Node) returns (up: bool, spaces: AddressSpaces?)
    requires info.Valid() && info.Abstract() == NewTable()
    requires CleanEntries(entries) && Backed(entries, ram.Length) && ram.Length % PAGE == 0 && ram.Length <= KERNEL_OFFSET
    requires PgUp(kend) <= ram.Length && bootdir in ImageFrames(kstart, kend)
    requires |directory| == ENTRIES && forall i :: USER_ENTRIES <= i < ENTRIES && directory[i].flags.p ==> directory[i].flags.ps
    modifies info, info.memmap
    ensures up == ComesUp(Boot(entries, kstart, kend, mstart, mend)) && (up ==> spaces != null)
    ensures up <==> var t := Boot(entries, kstart, kend, mstart, mend);
      && !t.panicked && (forall i :: 0 <= i < t.n && i < |t.slots| ==> t.slots[i].len > 0)
      && Serves(P.InitList(MapBlocks(t)), [0x1_0000, 0x2000, 0x2000, 0x400])
    ensures up ==> fresh(spaces) && fresh(spaces.alloc) && fresh(spaces.alloc.freelist) && fresh(spaces.heap) && fresh(spaces.heap.heap)
    ensures up ==> spaces.Valid() && spaces.procs == map[] && spaces.ram == ram && spaces.kdir == bootdir
    ensures up ==> spaces.devconsole == console && spaces.devfb == fb
    ensures up ==> forall f :: f in ImageFrames(kstart, kend) && f != bootdir ==> f in spaces.owner && spaces.owner[f] == Kernel
    ensures up ==> var bs := P.InitList(MapBlocks(Boot(entries, kstart, kend, mstart, mend)));
      && spaces.Free() == Served(bs, [0x1_0000, 0x2000, 0x2000, 0x400]) && spaces.Nodes() == [B.Block(P.AllocatedAt(bs, 0x1_0000), 0x1_0000)]
      && forall x :: Left(entries, kstart, kend, mstart, mend, x) <==> Accounted(bs, spaces.Free(), x / PAGE)
  {
    hide Boot, AddressSpaces.Valid, P.AllWellFormed, P.Disjoint, FreeFrame, WellFormed, Covers, NoGaps, P.AllocatedAt, P.AllocatedRest,
      P.PageAllocator.Valid, H.KernelHeap.Valid, InCut, InKernelHalf, Served, Serves, Accounted, Left;
    ghost var t := Boot(entries, kstart, kend, mstart, mend);
    up, spaces := false, null;
    ComesUpIs(t);
    info.InitTrunix(entries, kstart, kend, mstart, mend);
    if info.panicked {
      return;
    }
    BootMarked(entries, kstart, kend, mstart, mend);
    BootedMap(entries, kstart, kend, mstart, mend, ram.Length);
    var ok, blocks := InitBlocks(info);
    if !ok {
      return;
    }
    BlocksInOrder(t, ram.Length);
    var pages := new P.PageAllocator();
    pages.InitMem(blocks);
    ghost var bs := pages.Blocks();
    SameFrames(blocks, bs);
    PagesInOrder(pages);
    var heapAt;
    ok, heapAt := TakeChunks(pages);
    if !ok {
      return;
    }
    ServedFewer(bs, CHUNKS);
    FirstChunk(bs);
    HeapPlaced(bs);
    AllAccounted(bs);
    FreeAfterBoot(t, blocks, pages.Blocks(), kstart, kend, ram.Length);
    ImageBelow(kstart, kend, ram.Length);
    var heap := new H.KernelHeap(heapAt);
    spaces := new AddressSpaces(pages, heap, ram, bootdir, directory, ImageFrames(kstart, kend) - {bootdir}, console, fb);
    up := true;
  }

  lemma ComesUpIs(t: Table)
    ensures ComesUp(t) <==>
      && !t.panicked && (forall i :: 0 <= i < t.n && i < |t.slots| ==> t.slots[i].len > 0)
      && Serves(P.InitList(MapBlocks(t)), [0x1_0000, 0x2000, 0x2000, 0x400])
  {
    hide Serves;
  }

  lemma SameFrames(blocks: seq<B.Block>, bs: seq<B.Block>)
    requires P.Pages(bs) == P.Pages(blocks)
    ensures forall f :: FreeFrame(bs, f) <==> FreeFrame(blocks, f)
  {
  }

  lemma AllAccounted(bs: seq<B.Block>)
    requires P.AllWellFormed(bs) && P.Disjoint(bs) && Serves(bs, CHUNKS)
    ensures forall f :: FreeFrame(bs, f) <==> Accounted(bs, Served(bs, CHUNKS), f)
  {
    hide Served, Serves, Taken, Lost, P.AllWellFormed, P.Disjoint, P.Pages;
    ServedConserves(bs, CHUNKS);
  }

  lemma PagesInOrder(pages: P.PageAllocator)
    requires pages.Valid()
    ensures P.AllWellFormed(pages.Blocks()) && P.Disjoint(pages.Blocks())
  {
  }

  lemma FirstChunk(bs: seq<B.Block>)
    requires Serves(bs, CHUNKS)
    ensures P.AllocatedAt(bs, 0x1_0000) != NULL
  {
  }

  lemma ImageBelow(kstart: u32, kend: u32, size: nat)
    requires PgUp(kend) <= size && size % PAGE == 0
    ensures forall f :: f in ImageFrames(kstart, kend) ==> f < size / PAGE
  {
  }

  /** Everything from power-on: the boot sequence, then a run of the whole system. */
  method RunFromPowerOn(info: KernelInfo, entries: seq<Entry>, kstart: u32, kend: u32, mstart: u32, mend: u32, ram: array<Byte>,
                        bootdir: nat, directory: seq<Pte>, console: D.Node, fb: D.Node, lay: TF.Layout, r: TF.Regs, mem: TF.Memory,
                        init: Image, js: TF.Junk, es: seq<Sys.Event>, ns: seq<T.Noise>)
    returns (up: bool, spaces: AddressSpaces?, kernel: T.Kernel?, rs: seq<Sys.Answer>, ghost h: seq<Sys.State>)
    requires info.Valid() && info.Abstract() == NewTable()
    requires CleanEntries(entries) && Backed(entries, ram.Length) && ram.Length % PAGE == 0 && ram.Length <= KERNEL_OFFSET
    requires PgUp(kend) <= ram.Length && bootdir in ImageFrames(kstart, kend)
    requires |directory| == ENTRIES && forall i :: USER_ENTRIES <= i < ENTRIES && directory[i].flags.p ==> directory[i].flags.ps
    requires Sys.Linkage(lay) && r.esp == lay.boot && TF.Fits(js, lay.bootLow, lay.boot) && R.GoodFile(init)
    requires KERNEL_OFFSET + PgDown(kstart) <= lay.bootLow && lay.boot <= KERNEL_OFFSET + PgUp(kend)
    requires |ns| == |es| && forall i :: 0 <= i < |es| && es[i].Trap? ==> R.GoodFile(es[i].x.img)
    modifies info, info.memmap, ram
    ensures up == ComesUp(Boot(entries, kstart, kend, mstart, mend))
    ensures up ==> spaces != null && kernel != null
    ensures up ==> var bs := P.InitList(MapBlocks(Boot(entries, kstart, kend, mstart, mend)));
      h == [] <==> BootStops(Served(bs, [0x1_0000, 0x2000, 0x2000, 0x400]), [B.Block(P.AllocatedAt(bs, 0x1_0000), 0x1_0000)], init, console, fb)
    ensures up && h != [] ==> Sys.Linked(h, es, rs) && Sys.Begins(h[0], init, console)
    ensures up && h != [] && |rs| < |es| ==> Sys.Over(kernel.m.k, h[|rs|], es[|rs|], ns[|rs|])
    ensures up && h != [] && |rs| == |es| ==> Sys.Embodies(kernel, spaces, h[|rs|]) && R.Isolated(spaces.Tabled(), spaces.procs)
  {
    hide ComesUp, Boot, AddressSpaces.Valid, Sys.Linked, Sys.Begins, Sys.Over, Sys.Embodies, Sys.Linkage, R.Isolated, R.GoodFile, TF.Fits,
      BootStops, Served, P.AllocatedAt;
    rs, h, kernel := [], [], null;
    up, spaces := PowerOn(info, entries, kstart, kend, mstart, mend, ram, bootdir, directory, console, fb);
    if !up {
      return;
    }
    StackInImage(kstart, kend, lay.bootLow, lay.boot);
    spaces.KernelOwned();
    kernel, rs, h := Sys.Run(spaces, lay, r, mem, init, js, es, ns);
  }

  lemma StackInImage(kstart: u32, kend: u32, lo: nat, hi: nat)
    requires KERNEL_OFFSET + PgDown(kstart) <= lo && hi <= KERNEL_OFFSET + PgUp(kend)
    ensures forall x: nat :: lo <= x < hi ==> Sys.FrameOf(x) in ImageFrames(kstart, kend)
  {
    forall x: nat | lo <= x < hi
      ensures Sys.FrameOf(x) in ImageFrames(kstart, kend)
    {
      var f := Sys.FrameOf(x);
      assert InFrames(f, PgDown(kstart), PgUp(kend));
    }
  }
}
