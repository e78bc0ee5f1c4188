/**
  Address spaces as the kernel builds them: `copykvm`, `alloc_pt`, `sys_mmap` of kernel/mem.c and
  `loadelf`, `sys_fork` of kernel/proc.c, on the page allocator, the page tables and physical memory.
 */
module AddressSpaces {
  import opened Words
  import opened IntrusiveLists
  import opened Paging
  import opened Regions
  import opened ElfLayout
  import opened Memory
  import opened Supplies
  import opened Devices
  import opened ProcLayout
  import P = PageAllocator
  import B = Blocks
  import H = KernelHeap

  // ---------- what one operation keeps for everyone else

  /** Frames keep their owners. */
  ghost predicate OwnersStay(before: map<nat, Owner>, after: map<nat, Owner>) {
    forall f :: f in before ==> f in after && after[f] == before[f]
  }

  /** The page map of `pd` is the one the region list stands for. */
  ghost predicate Shows(m: Mem, pd: nat, rs: seq<Region>) {
    forall vp :: 0 <= vp < USER_PAGES ==> Walk(m.tables, pd, vp) == Lookup(rs, vp)
  }

  ghost predicate FramesIn(m: Mem, r: Region) {
    forall f :: r.pa / PAGE <= f < r.pa / PAGE + Count(r) ==> f in m.owner
  }

  ghost predicate RegionsOwned(m: Mem, rs: seq<Region>) {
    forall i :: 0 <= i < |rs| ==> FramesIn(m, rs[i])
  }

  /** From `m0` to `m` nothing changed for any directory but `pd`. */
  ghost predicate Kept(m0: Mem, m: Mem, pd: nat) {
    && m0.dirs <= m.dirs && m.kdir == m0.kdir
    && OwnersStay(m0.owner, m.owner)
    && (forall d :: d in m0.dirs && d != pd ==> SameUserPages(m0, m, d))
    && m0.kdir in m0.tables && m0.kdir in m.tables && m.tables[m0.kdir] == m0.tables[m0.kdir]
  }

  lemma KeptTransitive(m0: Mem, m1: Mem, m2: Mem, pd: nat)
    requires Kept(m0, m1, pd) && Kept(m1, m2, pd)
    ensures Kept(m0, m2, pd)
  {
    hide Walk;
    forall d | d in m0.dirs && d != pd
      ensures SameUserPages(m0, m2, d)
    {
      assert SameUserPages(m0, m1, d) && SameUserPages(m1, m2, d);
    }
  }

  /** The address space of a process: directory, next `mmap` address, regions, recorded size, entry state, open files. */
  datatype Space = Space(pd: nat, mmapBase: nat, regions: seq<Region>, sz: u32, eip: u32, esp: u32,
                         files: seq<Device>)

  /** Size of a `struct vm_region`. */
  const NODE := 16

  ghost predicate SpaceOk(m: Mem, s: Space) {
    s.mmapBase % PAGE == 0 && s.mmapBase <= MMAP_LIMIT && |s.files| <= MAXFILES + 1 && Present(m, s.pd) == TablesOf(s.regions) &&
    s.pd in m.dirs && AllOk(s.regions) && RegionsOwned(m, s.regions) && Shows(m, s.pd, s.regions)
  }

  ghost predicate SpacesOk(m: Mem, procs: map<nat, Space>) {
    && (forall p :: p in procs ==> SpaceOk(m, procs[p]))
    && (forall p, q :: p in procs && q in procs && procs[p].pd == procs[q].pd ==> p == q)
  }

  lemma SpaceKept(m0: Mem, m: Mem, pd: nat, s: Space)
    requires SpaceOk(m0, s) && Kept(m0, m, pd) && s.pd != pd
    ensures SpaceOk(m, s)
  {
    hide Walk, Lookup;
    assert SameUserPages(m0, m, s.pd);
    forall i | 0 <= i < |s.regions|
      ensures FramesIn(m, s.regions[i])
    {
      assert FramesIn(m0, s.regions[i]);
    }
  }

  /** Claiming a region's frames and mapping it puts it in front of the list. */
  lemma RegionMapped(m0: Mem, m: Mem, pd: nat, r: Region, rs: seq<Region>)
    requires Core(m0) && pd in m0.dirs && Shows(m0, pd, rs)
    requires forall f :: r.pa / PAGE <= f < r.pa / PAGE + Count(r) ==> f !in m0.owner
    requires MappedRange(Claimed(m0, pd, FirstPage(r), r.pa / PAGE, Count(r)), m, pd, FirstPage(r), r.pa / PAGE, Count(r))
    ensures Shows(m, pd, [r] + rs) && Kept(m0, m, pd) && FramesIn(m, r)
    ensures Present(m, pd) == Present(m0, pd) + Entries(r)
  {
    hide Walk, Core, Interval, Needed;
    var m1 := Claimed(m0, pd, FirstPage(r), r.pa / PAGE, Count(r));
    assert m1.tables == m0.tables && forall d :: Present(m1, d) == Present(m0, d);
    ClaimedOwners(m0, pd, FirstPage(r), r.pa / PAGE, Count(r));
    forall d | d in m0.dirs && d != pd
      ensures SameUserPages(m0, m, d)
    {
      assert SameUserPages(m1, m, d);
    }
    forall vp | 0 <= vp < USER_PAGES
      ensures Walk(m.tables, pd, vp) == Lookup([r] + rs, vp)
    {
      assert ([r] + rs)[1..] == rs;
    }
  }

  lemma ClaimedOwners(m: Mem, pd: nat, first: nat, lo: nat, n: nat)
    requires forall f :: lo <= f < lo + n ==> f !in m.owner
    ensures forall f :: f in Claimed(m, pd, first, lo, n).owner <==> f in m.owner || lo <= f < lo + n
    ensures forall f :: f in m.owner ==> Claimed(m, pd, first, lo, n).owner[f] == m.owner[f]
    ensures forall f :: lo <= f < lo + n ==> Claimed(m, pd, first, lo, n).owner[f] == DataOf(pd, first + (f - lo))
  {
    forall f: nat
      ensures InRange(f, lo, n) <==> lo <= f < lo + n
    {
    }
  }

  // ---------- frames from the page allocator

  /** Frame `f` is on the free list. */
  ghost predicate FreeFrame(bs: seq<B.Block>, f: int) {
    f + USER_PAGES in P.Pages(bs)
  }

  /** The frames of an allocated block. */
  lemma AllocatedFrames(bs: seq<B.Block>, sz: u32)
    requires P.AllWellFormed(bs) && P.Disjoint(bs) && P.AllocatedAt(bs, sz) != NULL
    ensures var addr, n := P.AllocatedAt(bs, sz), PgUp(sz) / PAGE;
      && addr % PAGE == 0 && KERNEL_OFFSET <= addr < U32 && addr + PgUp(sz) <= U32 && sz <= PgUp(sz)
      && (forall f :: V2P(addr) / PAGE <= f < V2P(addr) / PAGE + n ==>
            FreeFrame(bs, f) && !FreeFrame(P.AllocatedRest(bs, sz), f))
      && (forall f :: FreeFrame(P.AllocatedRest(bs, sz), f) ==> FreeFrame(bs, f))
  {
    hide P.Pages, P.AllWellFormed, P.Disjoint, P.AllocatedRest;
    P.AllocConserves(bs, sz);
    var addr: nat := P.AllocatedAt(bs, sz);
    var got := B.Block(addr, PgUp(sz));
    B.FirstFitIsFirst(bs, sz);
    AllocatedBelowTop(bs, sz);
    var a, n := addr / PAGE, PgUp(sz) / PAGE;
    assert V2P(addr) == addr - KERNEL_OFFSET && V2P(addr) / PAGE == a - USER_PAGES;
    assert (addr + PgUp(sz)) / PAGE == a + n;
    forall f | V2P(addr) / PAGE <= f < V2P(addr) / PAGE + n
      ensures FreeFrame(bs, f) && !FreeFrame(P.AllocatedRest(bs, sz), f)
    {
      assert f + USER_PAGES in P.Span(got);
    }
  }

  /** `now` is what `bs` has left once the tables for `n` pages from `first` on are there. */
  ghost predicate DrawnFor(bs: seq<B.Block>, now: seq<B.Block>, m0: Mem, pd: nat, first: nat, n: nat) {
    CanDraw(bs, |Needed(first, n) - Present(m0, pd)|) && now == Drawn(bs, |Needed(first, n) - Present(m0, pd)|)
  }

  lemma AllDrawn(bs: seq<B.Block>, now: seq<B.Block>, m0: Mem, pd: nat, first: nat, n: nat)
    requires DrawnFor(bs, now, m0, pd, first, n)
    ensures var need := |Needed(first, n) - Present(m0, pd)|; CanDraw(bs, need) && now == Drawn(bs, need)
  {
  }

  lemma PageOf(a: nat, v: nat)
    requires a == PAGE * v
    ensures a / PAGE == v && a / 0x40_0000 == v / ENTRIES
  {
  }

  lemma NothingNeeded(bs: seq<B.Block>, m0: Mem, pd: nat, first: nat)
    ensures DrawnFor(bs, bs, m0, pd, first, 0)
  {
    assert Needed(first, 0) == {};
  }

  /** One more page needs one more table exactly when its directory entry has none yet. */
  lemma OneMoreTable(bs: seq<B.Block>, now: seq<B.Block>, m0: Mem, m: Mem, pd: nat, first: nat, k: nat, n: nat)
    requires DrawnFor(bs, now, m0, pd, first, k) && Present(m, pd) == Present(m0, pd) + Needed(first, k)
    requires k < n && first + k < USER_PAGES
    ensures var need := if HasTable(m.tables, pd, (first + k) / ENTRIES) then 0 else 1;
      && (CanDraw(now, need) ==> DrawnFor(bs, Drawn(now, need), m0, pd, first, k + 1))
      && (!CanDraw(now, need) ==> !CanDraw(bs, |Needed(first, n) - Present(m0, pd)|))
  {
    hide CanDraw, Drawn, Needed, Present, HasTable;
    var e, s, t := (first + k) / ENTRIES, Needed(first, k) - Present(m0, pd), Needed(first, k + 1) - Present(m0, pd);
    var need := if HasTable(m.tables, pd, e) then 0 else 1;
    NeededOneMore(first, k);
    PresentIs(m, pd, e);
    assert t == if e in Present(m, pd) then s else s + {e};
    assert |t| == |s| + need;
    DrawSplit(bs, |s|, need);
    if !CanDraw(now, need) {
      NeededGrows(first, k + 1, n);
      SubsetSize(t, Needed(first, n) - Present(m0, pd));
      if CanDraw(bs, |Needed(first, n) - Present(m0, pd)|) {
        DrawFewer(bs, |t|, |Needed(first, n) - Present(m0, pd)|);
      }
    }
  }

  lemma PresentIs(m: Mem, pd: nat, e: nat)
    requires e < USER_ENTRIES
    ensures e in Present(m, pd) <==> HasTable(m.tables, pd, e)
  {
  }

  lemma {:induction false} NeededGrows(first: nat, k: nat, n: nat)
    requires k <= n
    ensures Needed(first, k) <= Needed(first, n)
  {
    forall i: nat | i in Needed(first, k)
      ensures i in Needed(first, n)
    {
      assert Touched(i, first, k);
    }
  }

  lemma DrawNone(bs: seq<B.Block>)
    ensures CanDraw(bs, 0) && Drawn(bs, 0) == bs
  {
  }

  lemma NullWhenNone(bs: seq<B.Block>, sz: u32)
    requires P.AllWellFormed(bs) && P.Disjoint(bs)
    ensures P.AllocatedAt(bs, sz) == NULL <==> NoBlock(bs, sz)
  {
    hide P.AllWellFormed, P.Disjoint, P.AllocatedAt;
    P.AllocConserves(bs, sz);
  }

  lemma AllocatedBelowTop(bs: seq<B.Block>, sz: u32)
    requires P.AllWellFormed(bs) && P.AllocatedAt(bs, sz) != NULL
    ensures P.AllocatedAt(bs, sz) < U32
  {
    assert P.WellFormed(bs[B.FirstFit(bs, sz)]);
  }

  /** Free frames exist in memory, owned ones too, and no frame is both. */
  ghost predicate FramesOk(m: Mem, bs: seq<B.Block>, frames: nat) {
    && (forall f :: FreeFrame(bs, f) ==> 0 <= f < frames)
    && (forall f :: f in m.owner ==> f < frames && !FreeFrame(bs, f))
  }

  /** Frames in no use at all: not free, not owned. */
  ghost predicate Unclaimed(m: Mem, bs: seq<B.Block>, frames: nat, lo: nat, n: nat) {
    && (n > 0 ==> lo + n <= frames)
    && (forall f :: lo <= f < lo + n ==> f !in m.owner)
    && (forall f :: lo <= f < lo + n ==> !FreeFrame(bs, f))
  }

  /** New owners hold frames that were free, or frames among the `n` from `lo`. */
  ghost predicate TakenFrom(m0: Mem, m: Mem, bs0: seq<B.Block>, lo: nat, n: nat) {
    forall f :: f in m.owner && f !in m0.owner ==> lo <= f < lo + n || FreeFrame(bs0, f)
  }

  ghost predicate FewerFree(bs0: seq<B.Block>, bs: seq<B.Block>) {
    forall f :: FreeFrame(bs, f) ==> FreeFrame(bs0, f)
  }

  lemma StillUnclaimed(m0: Mem, m: Mem, bs0: seq<B.Block>, bs: seq<B.Block>, frames: nat, lo: nat, n: nat, lo': nat, n': nat)
    requires Unclaimed(m0, bs0, frames, lo, n) && TakenFrom(m0, m, bs0, lo', n') && FewerFree(bs0, bs)
    requires lo + n <= lo' || lo' + n' <= lo
    ensures Unclaimed(m, bs, frames, lo, n)
  {
    hide FreeFrame;
  }

  lemma TakenUnclaimed(m: Mem, bs0: seq<B.Block>, bs: seq<B.Block>, frames: nat, lo: nat, n: nat)
    requires FramesOk(m, bs0, frames)
    requires forall f :: lo <= f < lo + n ==> FreeFrame(bs0, f) && !FreeFrame(bs, f)
    ensures Unclaimed(m, bs, frames, lo, n)
  {
    hide FreeFrame;
    assert n > 0 ==> FreeFrame(bs0, lo + n - 1);
    forall f | lo <= f < lo + n
      ensures f !in m.owner && !FreeFrame(bs, f)
    {
      assert FreeFrame(bs0, f);
    }
  }

  /** Frames `lo`, `lo + 1`, .. belong to pages `first`, `first + 1`, .. of `pd`. */
  ghost predicate ClaimedFor(m: Mem, pd: nat, first: nat, lo: nat, n: nat) {
    forall f :: lo <= f < lo + n ==> f in m.owner && m.owner[f] == DataOf(pd, first + (f - lo))
  }

  lemma ClaimedAt(m0: Mem, m: Mem, pd: nat, first: nat, lo: nat, n: nat, k: nat)
    requires ClaimedFor(m0, pd, first, lo, n) && k < n && OwnersGrow(m0, m, pd)
    ensures Owned(m, lo + k, DataOf(pd, first + k))
  {
    var f := lo + k;
    assert f in m0.owner;
  }

  class AddressSpaces {
    const alloc: P.PageAllocator
    const heap: H.KernelHeap
    const ram: array<Byte>
    const kdir: nat
    /** What `/dev/console` and `/dev/fb` name. */
    const devconsole: Node
    const devfb: Node
    var tables: Tables
    ghost var owner: map<nat, Owner>
    ghost var dirs: set<nat>
    /** Address spaces by pid. */
    var procs: map<nat, Space>

    ghost function Tabled(): Mem
      reads this`tables, this`owner, this`dirs
    {
      Mem(tables, owner, dirs, kdir)
    }

    ghost function Free(): seq<B.Block>
      reads alloc, alloc.freelist
    {
      alloc.Blocks()
    }

    /** The kernel heap's free list. */
    ghost function Nodes(): seq<B.Block>
      reads heap, heap.heap
    {
      heap.Free()
    }

    ghost function Frames(): nat {
      ram.Length / PAGE
    }

    /** The tables are in order and agree with the allocator and the memory. */
    ghost predicate Base()
      reads this`tables, this`owner, this`dirs, alloc, alloc.freelist
    {
      && alloc.Valid() && Core(Tabled()) && FramesOk(Tabled(), Free(), Frames())
      && ram.Length % PAGE == 0 && ram.Length <= KERNEL_OFFSET
    }

    ghost predicate HeapOk()
      reads heap, heap.heap
    {
      heap.Valid() && InKernelHalf(Nodes())
    }

    ghost predicate Valid()
      reads this, alloc, alloc.freelist, heap, heap.heap
    {
      Base() && SpacesOk(Tabled(), procs) && HeapOk()
    }

    /**
      The state boot hands over: both allocators, the boot page directory, frames of the kernel image, and what two
      paths name; no processes.
     */
    constructor (pages: P.PageAllocator, bytes: H.KernelHeap, memory: array<Byte>, bootdir: nat, entries: seq<Pte>,
                 ghost image: set<nat>, console: Node, fb: Node)
      requires pages.Valid() && bytes.Valid() && InKernelHalf(bytes.Free())
      requires memory.Length % PAGE == 0 && memory.Length <= KERNEL_OFFSET
      requires |entries| == ENTRIES && bootdir < memory.Length / PAGE && !FreeFrame(pages.Blocks(), bootdir) && bootdir !in image
      requires forall i :: USER_ENTRIES <= i < ENTRIES && entries[i].flags.p ==> entries[i].flags.ps
      requires forall f :: FreeFrame(pages.Blocks(), f) ==> 0 <= f < memory.Length / PAGE
      requires forall f :: f in image ==> f < memory.Length / PAGE && !FreeFrame(pages.Blocks(), f)
      ensures Valid() && procs == map[] && alloc == pages && heap == bytes && ram == memory && kdir == bootdir
      ensures devconsole == console && devfb == fb && forall f :: f in image ==> f in owner && owner[f] == Kernel
    {
      alloc, heap, ram, kdir, devconsole, devfb := pages, bytes, memory, bootdir, console, fb;
      tables, dirs, procs := map[bootdir := entries], {}, map[];
      owner := (map f | f in image :: Kernel)[bootdir := KernelDirectory];
    }

    lemma KernelTableKnown()
      requires Base()
      ensures kdir in tables && kdir !in dirs
    {
      forall d | d in dirs
        ensures d != kdir
      {
        NotKernel(Tabled(), d);
      }
    }

    lemma KernelOwned()
      requires Valid()
      ensures kdir in owner
    {
    }

    lemma DrawKnown()
      requires Base()
      ensures CanDraw(Free(), 1) <==> !NoBlock(Free(), 0x1000)
      ensures Drawn(Free(), 1) == P.AllocatedRest(Free(), 0x1000)
    {
      hide P.AllWellFormed, P.Disjoint, P.AllocatedRest, CanDraw, Drawn;
      DrawOne(Free());
    }

    lemma FramesKnown()
      requires Base()
      ensures FramesOk(Tabled(), Free(), ram.Length / PAGE) && ram.Length % PAGE == 0
    {
    }

    /** A chunk taken from the allocator lies in memory, and none of its bytes belong to an owned frame. */
    lemma MemoryFacts(pa: nat, n: nat)
      requires Base() && pa % PAGE == 0 && n % PAGE == 0 && Unclaimed(Tabled(), Free(), Frames(), pa / PAGE, n / PAGE)
      ensures n > 0 ==> pa + n <= ram.Length
      ensures forall x :: pa <= x < pa + n ==> x / PAGE !in owner
    {
      UnclaimedBytes(Tabled(), Free(), ram.Length, pa, n);
    }

    /** `alloc_pages`, seen as frames. */
    method Take(size: u32) returns (addr: u32)
      requires Base()
      modifies alloc, alloc.freelist
      ensures Base() && FewerFree(old(Free()), Free()) && (addr == NULL <==> NoBlock(old(Free()), size))
      ensures Free() == P.AllocatedRest(old(Free()), size)
      ensures addr != NULL ==> addr % PAGE == 0 && KERNEL_OFFSET <= addr && addr + PgUp(size) <= U32 && size <= PgUp(size)
      ensures addr != NULL ==> Unclaimed(Tabled(), Free(), Frames(), V2P(addr) / PAGE, PgUp(size) / PAGE)
      ensures addr != NULL ==>
        forall f :: V2P(addr) / PAGE <= f < V2P(addr) / PAGE + PgUp(size) / PAGE ==> FreeFrame(old(Free()), f)
    {
      hide Core, PgUp, V2P, P.AllWellFormed, P.Disjoint, P.Pages;
      ghost var bs := Free();
      NullWhenNone(bs, size);
      var a := alloc.AllocPages(size);
      if a == NULL {
        AllocatedNone(bs, size);
        return NULL;
      }
      AllocatedFrames(bs, size);
      addr := a;
      TakenUnclaimed(Tabled(), bs, Free(), Frames(), V2P(addr) / PAGE, PgUp(size) / PAGE);
    }

    /** `kmalloc` as its callers use it: they need a block, and access it unasked. */
    method Node(n: u32) returns (ok: bool, a: u32)
      requires HeapOk() && H.Need(n) > 0
      modifies heap, heap.heap
      ensures HeapOk() && ok == Allots(old(Nodes()), n)
      ensures ok ==> Nodes() == Allotted(old(Nodes()), n) && a == AllotAt(old(Nodes()), n) && a > KERNEL_OFFSET
    {
      hide H.KernelHeap.Valid, H.Need, InKernelHalf;
      ghost var hs := Nodes();
      var aborted, p := heap.Kmalloc(n);
      ok, a := !aborted && p != NULL, 0;
      if ok {
        AllottedInHalf(hs, n);
        a := p;
      } else if !aborted {
        NotAllotted(hs, n);
      }
    }

    /** `copykvm`; fails where the source would write through NULL. */
    method CopyKvm() returns (ok: bool, pd: nat)
      requires Base()
      modifies this`tables, this`owner, this`dirs, alloc, alloc.freelist
      ensures ok ==> Base() && pd in dirs && pd !in old(dirs) && Kept(old(Tabled()), Tabled(), pd)
      ensures ok ==> Shows(Tabled(), pd, []) && Present(Tabled(), pd) == {} && FewerFree(old(Free()), Free())
      ensures ok <==> CanDraw(old(Free()), 1)
      ensures ok ==> Free() == Drawn(old(Free()), 1)
      ensures ok ==> TakenFrom(old(Tabled()), Tabled(), old(Free()), 0, 0)
    {
      hide Core, PgUp, V2P, P.PageAllocator.Valid, Walk, CanDraw, Drawn, Present, P.AllocatedRest, NoBlock;
      DrawKnown();
      var addr := Take(0x1000);
      if addr == NULL {
        return false, 0;
      }
      OnePage();
      pd := V2P(addr) / PAGE;
      ghost var m := Tabled();
      KernelTable(m);
      WithDirectoryCore(m, pd);
      tables := tables[pd := ZeroTable()[..USER_ENTRIES] + tables[kdir][USER_ENTRIES..]];
      owner := owner[pd := Directory];
      dirs := dirs + {pd};
      assert Tabled() == WithDirectory(m, pd);
      ok := true;
    }

    /** One iteration of the loop of `alloc_pt`; fails where the source would write through NULL. */
    method MapOne(pd: nat, va: u32, pa: u32) returns (ok: bool, ghost spare: nat)
      requires Base() && pd in dirs && va < KERNEL_OFFSET && Owned(Tabled(), pa / PAGE, DataOf(pd, va / PAGE))
      modifies this`tables, this`owner, alloc, alloc.freelist
      ensures var need := if HasTable(old(tables), pd, va / 0x40_0000) then 0 else 1;
        (ok <==> CanDraw(old(Free()), need)) && (ok ==> Free() == Drawn(old(Free()), need))
      ensures ok ==> MayMap(old(Tabled()), pd, va / PAGE, pa / PAGE, spare)
      ensures ok ==> Tabled() == MapPage(old(Tabled()), pd, va / PAGE, pa / PAGE, spare)
      ensures ok ==> Base() && FewerFree(old(Free()), Free())
      ensures ok ==> TakenFrom(old(Tabled()), Tabled(), old(Free()), 0, 0)
    {
      hide Core, PgUp, V2P, P.PageAllocator.Valid, Walk, NoBlock, P.AllocatedRest, CanDraw, Drawn;
      ghost var m := Tabled();
      DrawKnown();
      DrawNone(Free());
      var pde, pte := va / 0x40_0000, va / PAGE % ENTRIES;
      EntryFor(m, pd, va);
      var pt;
      if !tables[pd][pde].flags.p {
        var addr := Take(0x1000);
        if addr == NULL {
          return false, 0;
        }
        OnePage();
        pt := V2P(addr) / PAGE;
        spare := pt;
        MapPageCore(m, pd, va / PAGE, pa / PAGE, spare);
        tables := tables[pt := ZeroTable()];
        owner := owner[pt := TableOf(pd, pde)];
        tables := tables[pd := tables[pd][pde := Pte(pt, USER)]];
      } else {
        pt := tables[pd][pde].frame;
        spare := 0;
        MapPageCore(m, pd, va / PAGE, pa / PAGE, spare);
        tables := tables[pd := tables[pd][pde := Pte(pt, Or(tables[pd][pde].flags, USER))]];
      }
      tables := tables[pt := tables[pt][pte := Pte(pa / PAGE, USER)]];
      assert tables == MapPage(m, pd, va / PAGE, pa / PAGE, spare).tables;
      ok := true;
    }

    /**
      `alloc_pt` for user pages with full user access: the page map of `pd` is overridden by `n` pages
      from `va` to frames from `pa`, across any number of new tables.
     */
    method AllocPt(pd: nat, va0: u32, pa0: u32, len0: u32) returns (ok: bool)
      requires Base() && pd in dirs
      requires PgDown(va0) + PgUp(len0) <= KERNEL_OFFSET && PgDown(pa0) + PgUp(len0) <= KERNEL_OFFSET
      requires ClaimedFor(Tabled(), pd, va0 / PAGE, pa0 / PAGE, PgUp(len0) / PAGE)
      modifies this`tables, this`owner, alloc, alloc.freelist
      ensures var need := |Needed(va0 / PAGE, PgUp(len0) / PAGE) - Present(old(Tabled()), pd)|;
        (ok <==> CanDraw(old(Free()), need)) && (ok ==> Free() == Drawn(old(Free()), need))
      ensures ok ==> Base() && FewerFree(old(Free()), Free())
      ensures ok ==> MappedRange(old(Tabled()), Tabled(), pd, va0 / PAGE, pa0 / PAGE, PgUp(len0) / PAGE)
      ensures ok ==> TakenFrom(old(Tabled()), Tabled(), old(Free()), 0, 0)
    {
      hide Core, P.PageAllocator.Valid, Walk, MapPage, FramesOk, PgUp, PgDown, CanDraw, Drawn, Present, Needed, HasTable, DrawnFor, OwnersGrow,
        Overridden, SameUserPages;
      RoundedRange(va0, pa0, len0);
      var va, pa, len := PgDown(va0), PgDown(pa0), PgUp(len0);
      ghost var m0, first, frame, n := Tabled(), va0 / PAGE, pa0 / PAGE, PgUp(len0) / PAGE;
      ghost var k := 0;
      ghost var bs := Free();
      NothingMapped(m0, pd, first, frame);
      NothingNeeded(bs, m0, pd, first);
      while len > 0
        invariant 0 <= k <= n && va == PAGE * (first + k) && pa == PAGE * (frame + k) && len == PAGE * (n - k)
        invariant Base() && dirs == m0.dirs && FewerFree(old(Free()), Free())
        invariant MappedRange(m0, Tabled(), pd, first, frame, k)
        invariant TakenFrom(m0, Tabled(), old(Free()), 0, 0)
        invariant DrawnFor(bs, Free(), m0, pd, first, k)
        decreases len
      {
        ghost var m := Tabled();
        ghost var spare;
        PageOf(va, first + k);
        PageOf(pa, frame + k);
        ClaimedAt(m0, m, pd, first, frame, n, k);
        OneMoreTable(bs, Free(), m0, m, pd, first, k, n);
        ok, spare := MapOne(pd, va, pa);
        if !ok {
          return;
        }
        MappedOneMore(m0, m, pd, first, frame, k, spare);
        pa := pa + PAGE;
        va := va + PAGE;
        len := len - PAGE;
        k := k + 1;
      }
      AllDrawn(bs, Free(), m0, pd, first, n);
      ok := true;
    }

    /** Claims the frames of `r` for `pd` and maps them: the region goes in front of what `pd` shows. */
    method MapRegion(pd: nat, r: Region, ghost rs: seq<Region>) returns (ok: bool)
      requires Base() && pd in dirs && RegionOk(r) && Shows(Tabled(), pd, rs)
      requires Unclaimed(Tabled(), Free(), Frames(), r.pa / PAGE, Count(r))
      modifies this`tables, this`owner, alloc, alloc.freelist
      ensures var need := |Entries(r) - Present(old(Tabled()), pd)|;
        (ok <==> CanDraw(old(Free()), need)) && (ok ==> Free() == Drawn(old(Free()), need))
      ensures ok ==> Present(Tabled(), pd) == Present(old(Tabled()), pd) + Entries(r)
      ensures ok ==> Base() && FewerFree(old(Free()), Free())
      ensures ok ==> Shows(Tabled(), pd, [r] + rs) && Kept(old(Tabled()), Tabled(), pd) && FramesIn(Tabled(), r)
      ensures ok ==> TakenFrom(old(Tabled()), Tabled(), old(Free()), r.pa / PAGE, Count(r)) && dirs == old(dirs)
    {
      hide Core, P.PageAllocator.Valid, Walk, PgUp, PgDown, Lookup, MappedRange, CanDraw, Drawn, Needed, HasTable;
      ghost var m := Tabled();
      RegionRounds(r);
      ClaimedOwners(m, pd, FirstPage(r), r.pa / PAGE, Count(r));
      ClaimedCore(m, pd, FirstPage(r), r.pa / PAGE, Count(r));
      owner := Claimed(m, pd, FirstPage(r), r.pa / PAGE, Count(r)).owner;
      assert Tabled() == Claimed(m, pd, FirstPage(r), r.pa / PAGE, Count(r));
      ok := AllocPt(pd, r.va, r.pa, r.len);
      if ok {
        RegionMapped(m, Tabled(), pd, r, rs);
      }
    }

    // ---------- sys_mmap

    /**
      Anonymous `sys_mmap`. Zero, and nothing changes, if no length is given or the end, rounded up in 32 bits, is not
      below the limit; else the next mapping address.
     */
    method SysMmap(pid: nat, len0: u32) returns (r: Outcome)
      requires Valid() && pid in procs
      modifies this`tables, this`owner, this`procs, alloc, alloc.freelist, heap, heap.heap, ram
      ensures r == Fault <==>
        && len0 != 0 && (old(procs)[pid].mmapBase + PgUp(len0)) % U32 < MMAP_LIMIT
        && MmapStops(old(Free()), old(Nodes()), old(procs)[pid], PgUp(len0))
      ensures len0 == 0 || (old(procs)[pid].mmapBase + PgUp(len0)) % U32 >= MMAP_LIMIT ==>
        r == Returned(0) && Valid() && procs == old(procs) && Nodes() == old(Nodes())
      ensures r != Fault ==> Valid() && OthersUntouched(old(owner), old(ram[..]), ram[..]) && tables[kdir] == old(tables)[kdir]
      ensures r != Fault ==> OwnersStay(old(owner), owner)
      ensures r != Fault && len0 != 0 && (old(procs)[pid].mmapBase + PgUp(len0)) % U32 < MMAP_LIMIT ==>
        pid in procs && procs == old(procs)[pid := procs[pid]] && r == Returned(old(procs)[pid].mmapBase)
        && Mapped(old(procs)[pid], procs[pid], PgUp(len0), ram[..]) && Nodes() == Allotted(old(Nodes()), NODE)
    {
      hide Core, P.PageAllocator.Valid, Walk, PgUp, V2P, Lookup, Base, SpacesOk, Unclaimed, FewerFree, TakenFrom, MmapStops;
      KernelTableKnown();
      var s := procs[pid];
      if len0 == 0 {
        return Returned(0);
      }
      var len := PgUp(len0);
      if (s.mmapBase + len) % U32 >= MMAP_LIMIT {
        return Returned(0);
      }
      r := MapAnonymous(pid, len0);
    }

    /** `sys_mmap` once the request is granted. */
    method MapAnonymous(pid: nat, len0: u32) returns (r: Outcome)
      requires Valid() && pid in procs && MmapGranted(procs[pid].mmapBase, len0)
      modifies this`tables, this`owner, this`procs, alloc, alloc.freelist, heap, heap.heap, ram
      ensures r == Fault <==> MmapStops(old(Free()), old(Nodes()), old(procs)[pid], PgUp(len0))
      ensures r != Fault ==> Valid() && OthersUntouched(old(owner), old(ram[..]), ram[..]) && tables[kdir] == old(tables)[kdir]
      ensures r != Fault ==> OwnersStay(old(owner), owner)
      ensures r != Fault ==>
        pid in procs && procs == old(procs)[pid := procs[pid]] && r == Returned(old(procs)[pid].mmapBase)
        && Mapped(old(procs)[pid], procs[pid], PgUp(len0), ram[..]) && Nodes() == Allotted(old(Nodes()), NODE)
    {
      hide Core, P.PageAllocator.Valid, Walk, PgUp, V2P, Lookup, Shows, SpacesOk, Unclaimed, FewerFree, TakenFrom, FramesOk,
        H.KernelHeap.Valid, InKernelHalf, Allots, Allotted, CanDraw, Drawn, NoBlock, Needed, Present, TablesOf, P.AllocatedRest, OthersUntouched, Mapped;
      ghost var m := Tabled();
      KernelTableKnown();
      NodeNeed();
      var s, len := procs[pid], PgUp(len0);
      SpaceOf(m, procs, pid);
      var ok, node := Node(NODE);
      if !ok {
        return Fault;
      }
      var page := Take(len);
      if page == NULL {
        return Fault;
      }
      MmapNoWrap(s, len0, page);
      var pa := V2P(page);
      UnclaimedBytes(Tabled(), Free(), ram.Length, pa, len);
      ghost var before := ram[..];
      Memset(ram, pa, 0, len);
      Zeroed(before, ram[..], pa, len);
      OutsideIsOther(m.owner, before, ram[..], pa, len);
      var region := Region(s.mmapBase, pa, len);
      ok := MapRegion(s.pd, region, s.regions);
      if !ok {
        return Fault;
      }
      TablesCons(region, s.regions);
      var s' := s.(mmapBase := s.mmapBase + len, regions := [region] + s.regions);
      SpaceGrown(m, Tabled(), s, s');
      SpaceReplaced(m, Tabled(), procs, pid, s');
      procs := procs[pid := s'];
      MmapMapped(s, region, ram[..]);
      r := Returned(region.va);
    }

    // ---------- loadelf and sys_execve

    /** One segment: its file bytes are copied into the zeroed chunk at `at`, then its pages are mapped. */
    method PlaceSegment(pd: nat, s: Segment, bytes: seq<Byte>, at: nat, ghost rs: seq<Region>) returns (ok: bool)
      requires Base() && pd in dirs && GoodSegment(s) && s.off + s.filesz <= |bytes| && Shows(Tabled(), pd, rs)
      requires at % PAGE == 0 && at + Advance(s) <= ram.Length
      requires Unclaimed(Tabled(), Free(), Frames(), at / PAGE, Advance(s) / PAGE) && ZeroBytes(ram[..], at, at + Advance(s))
      modifies this`tables, this`owner, alloc, alloc.freelist, ram
      ensures var need := |Entries(SegRegion(s, at)) - Present(old(Tabled()), pd)|;
        (ok <==> CanDraw(old(Free()), need)) && (ok ==> Free() == Drawn(old(Free()), need))
      ensures ok ==> Present(Tabled(), pd) == Present(old(Tabled()), pd) + Entries(SegRegion(s, at))
      ensures SegmentBytes(ram[..], at, s, bytes) && SameOutside(old(ram[..]), ram[..], at, at + Advance(s))
      ensures ok ==> Base() && FewerFree(old(Free()), Free()) && dirs == old(dirs)
      ensures ok ==> Shows(Tabled(), pd, [SegRegion(s, at)] + rs) && Kept(old(Tabled()), Tabled(), pd)
      ensures ok ==> FramesIn(Tabled(), SegRegion(s, at))
      ensures ok ==> TakenFrom(old(Tabled()), Tabled(), old(Free()), at / PAGE, Advance(s) / PAGE)
    {
      hide Core, P.PageAllocator.Valid, Walk, Shows, Unclaimed, FewerFree, TakenFrom, FramesOk, Kept, FramesIn, GoodSegment,
        Advance, MappedLen, CanDraw, Drawn, Present, Entries;
      SegmentFacts(s, at);
      CopyIn(ram, at + s.va % PAGE, bytes, s.off, s.filesz);
      SegRegionPages(s, at);
      ok := MapRegion(pd, Region(s.va, at, MappedLen(s)), rs);
    }

    /** The second pass of the loader over the program headers, up to the stack. */
    method PlaceSegments(pd: nat, phs: seq<Segment>, bytes: seq<Byte>, pa: nat, size: nat)
      returns (ok: bool, at: nat, regions: seq<Region>)
      requires Base() && pd in dirs && Shows(Tabled(), pd, []) && GoodImage(Loads(phs)) && FileHolds(Loads(phs), bytes)
      requires Present(Tabled(), pd) == {}
      requires pa % PAGE == 0 && size % PAGE == 0 && ChunkAt(Loads(phs)) + STACK_SIZE <= size && pa + size <= ram.Length
      requires Unclaimed(Tabled(), Free(), Frames(), pa / PAGE, size / PAGE) && ZeroBytes(ram[..], pa, pa + size)
      modifies this`tables, this`owner, alloc, alloc.freelist, ram
      ensures !ok ==> !CanDraw(old(Free()), |TablesOf(SegRegions(Loads(phs), pa))|)
      ensures ok ==> Base() && regions == SegRegions(Loads(phs), pa) && at == pa + ChunkAt(Loads(phs))
      ensures ok ==>
        Stage(old(Tabled()), Tabled(), old(Free()), Free(), pd, regions, Frames(), at, size - ChunkAt(Loads(phs)))
      ensures ok ==> AllPlaced(ram[..], Loads(phs), |Loads(phs)|, pa, bytes) && ZeroBytes(ram[..], at, pa + size)
      ensures ok ==> SameOutside(old(ram[..]), ram[..], pa, pa + size)
    {
      hide Base, Shows, Unclaimed, FewerFree, TakenFrom, Kept, FramesIn, GoodImage, GoodSegment, Advance, Stage,
        SegmentBytes, ZeroBytes, SameOutside, AllPlaced, FileHolds, Loads, ChunkAt, SegRegions, SegRegion, MappedLen, CanDraw,
        Drawn, Present, Entries, TablesOf;
      ghost var m0, bs0, before0, ls := Tabled(), Free(), ram[..], Loads(phs);
      KernelTableKnown();
      StageStart(m0, bs0, pd, Frames(), pa, size);
      NothingPlaced(ls, phs, pa, bytes, ram[..], size);
      at, regions := pa, [];
      var i := 0;
      ghost var k := 0;
      while i < |phs|
        invariant 0 <= i <= |phs| && k == |Loads(phs[..i])| <= |ls| && Base() && pd in dirs
        invariant at == pa + ChunkAt(ls[..k]) && at + STACK_SIZE <= pa + size && regions == SegRegions(ls[..k], pa)
        invariant Stage(m0, Tabled(), bs0, Free(), pd, regions, Frames(), at, pa + size - at)
        invariant AllPlaced(ram[..], ls, k, pa, bytes) && ZeroBytes(ram[..], at, pa + size)
        invariant SameOutside(before0, ram[..], pa, pa + size)
      {
        LoadsSnoc(phs, i);
        LoadsPrefix(phs, i);
        if phs[i].ptype == LOAD {
          ghost var m, bs, before := Tabled(), Free(), ram[..];
          NextSegment(ls, k, pa, size, bytes);
          var s := phs[i];
          StageUse(m0, m, bs0, bs, pd, regions, Frames(), at, pa + size - at, Advance(s));
          ZeroPart(before, at, pa + size, at + Advance(s));
          ok := PlaceSegment(pd, s, bytes, at, regions);
          if !ok {
            StageFails(m0, m, bs0, bs, pd, regions, Frames(), at, pa + size - at, SegRegion(s, at));
            SegTablesGrow(ls, k + 1, pa);
            TablesTooMany(bs0, SegRegions(ls[..k + 1], pa), SegRegions(ls, pa));
            return;
          }
          StageNext(m0, m, Tabled(), bs0, bs, Free(), pd, regions, Frames(), at, pa + size - at, SegRegion(s, at));
          PlacedOneMore(before, ram[..], ls, k, pa, bytes, pa + size);
          OutsideGrows(before0, before, ram[..], pa, pa + size, at, at + Advance(s));
          regions := [Region(s.va, at, MappedLen(s))] + regions;
          at := at + Advance(s);
          k := k + 1;
        }
        i := i + 1;
      }
      assert phs[..i] == phs && ls[..k] == ls;
      ok := true;
    }

    /**
      `loadelf`. Minus one: the image is refused. Zero: `s` is the new address space. The directory
      built for a refused image stays behind unused, as in the source.
     */
    method LoadElf(img: Image, files: seq<Device>) returns (r: Outcome, s: Space)
      requires Base() && HeapOk() && |files| <= MAXFILES + 1
      requires Accepted(img) ==> GoodImage(Loads(img.phs)) && FileHolds(Loads(img.phs), img.bytes)
      modifies this`tables, this`owner, this`dirs, alloc, alloc.freelist, heap, heap.heap, ram
      ensures HeapOk() && (r == Fault <==> LoadStops(old(Free()), old(Nodes()), img))
      ensures r == Returned(0) ==> Nodes() == Allotted(old(Nodes()), NodesSize(img))
      ensures r == Returned(-1) ==> Nodes() == old(Nodes())
      ensures r != Fault ==> r == Returned(if Accepted(img) then 0 else -1)
      ensures r != Fault ==> Base() && s.pd !in old(dirs) && Kept(old(Tabled()), Tabled(), s.pd)
      ensures r != Fault ==> OthersUntouched(old(owner), old(ram[..]), ram[..])
      ensures r == Returned(0) ==> SpaceOk(Tabled(), s) && s.files == files && Loaded(Tabled(), ram[..], s, img)
      ensures r == Returned(0) ==> Free() == FilledPages(Drawn(old(Free()), 1), img)
    {
      hide Base, Shows, Unclaimed, FewerFree, TakenFrom, Kept, RegionsOwned, FramesIn, GoodImage, GoodSegment, Advance, SpaceOk,
        ZeroBytes, SameOutside, AllPlaced, FileHolds, Loads, SegRegions, MappedLen, PgUp, V2P, Loaded, ElfRegions, ChunkAt,
        ChunkSize, MinStart, MaxEnd, Refused, CanDraw, Drawn, Present, TablesOf, NoBlock, Allots, Allotted, H.KernelHeap.Valid, InKernelHalf,
        P.AllocatedRest;
      ghost var m0 := Tabled();
      s := Space(kdir, 0, [], 0, 0, 0, files);
      KernelTableKnown();
      KeptReflexive(m0, kdir);
      if img.magic != ELFMAGIC {
        return Returned(-1), s;
      }
      var ok, pd := CopyKvm();
      if !ok {
        return Fault, s;
      }
      s := s.(pd := pd);
      var refused, n, min, max := ScanHeaders(img.phs);
      if refused {
        return Returned(-1), s;
      }
      LoadsFewer(img.phs);
      ghost var m1 := Tabled();
      r, s := LoadInto(img, files, pd, n, min, max);
      if r != Fault {
        KeptTransitive(m0, m1, Tabled(), pd);
        FewerOthers(m0, m1, pd, old(ram[..]), ram[..]);
      }
    }

    /** `loadelf` from the allocation of the chunk on. */
    method LoadInto(img: Image, files: seq<Device>, pd: nat, n: nat, min: u32, max: u32) returns (r: Outcome, s: Space)
      requires Base() && HeapOk() && |files| <= MAXFILES + 1
      requires pd in dirs && Shows(Tabled(), pd, []) && Present(Tabled(), pd) == {}
      requires GoodImage(Loads(img.phs)) && FileHolds(Loads(img.phs), img.bytes) && n == |Loads(img.phs)| < 0x1_0000
      requires min == MinStart(Loads(img.phs)) && max == MaxEnd(Loads(img.phs))
      modifies this`tables, this`owner, alloc, alloc.freelist, heap, heap.heap, ram
      ensures HeapOk() && (r == Fault || r == Returned(0)) && (r == Fault <==> FillStops(old(Free()), old(Nodes()), img))
      ensures r != Fault ==> Nodes() == Allotted(old(Nodes()), NodesSize(img))
      ensures r != Fault ==> Base() && s.pd == pd && dirs == old(dirs) && Kept(old(Tabled()), Tabled(), pd)
      ensures r != Fault ==> OthersUntouched(old(owner), old(ram[..]), ram[..])
      ensures r != Fault ==> SpaceOk(Tabled(), s) && s.files == files && Loaded(Tabled(), ram[..], s, img)
      ensures r != Fault ==> Free() == FilledPages(old(Free()), img)
    {
      hide Base, Shows, Unclaimed, FewerFree, TakenFrom, Kept, RegionsOwned, FramesIn, GoodImage, GoodSegment, Advance, SpaceOk,
        ZeroBytes, SameOutside, AllPlaced, FileHolds, Loads, SegRegions, MappedLen, V2P, Loaded, ElfRegions, ChunkAt,
        ChunkSize, MinStart, MaxEnd, PgUp, CanDraw, Drawn, Present, TablesOf, NoBlock, Allots, Allotted, H.KernelHeap.Valid, InKernelHalf,
        Entries, P.AllocatedRest;
      ghost var m0, before, ls := Tabled(), ram[..], Loads(img.phs);
      s := Space(pd, max, [], 0, 0, 0, files);
      var sz := ChunkSize(min, max);
      var mem := Take(sz);
      if mem == NULL {
        return Fault, s;
      }
      var pa := V2P(mem);
      ChunkFacts(ls, mem);
      MemoryFacts(pa, sz);
      Memset(ram, pa, 0, sz);
      Zeroed(before, ram[..], pa, sz);
      NodesFit(n + 1);
      var ok, node := Node(NODE * (n + 1));
      if !ok {
        return Fault, s;
      }
      ghost var zeroed, m1 := ram[..], Tabled();
      var regions;
      ok, regions := PlaceImage(img, pd, pa, sz);
      if !ok {
        return Fault, s;
      }
      OutsideGrows(before, zeroed, ram[..], pa, pa + sz, pa, pa + sz);
      OutsideIsOther(m0.owner, before, ram[..], pa, sz);
      s := Space(pd, max, regions, sz, img.entry, KERNEL_OFFSET, files);
      r := Returned(0);
      LoadedSpace(Tabled(), ram[..], s, img, pa);
    }

    /** The segments and the stack in the chunk at `pa`. */
    method PlaceImage(img: Image, pd: nat, pa: nat, size: nat) returns (ok: bool, regions: seq<Region>)
      requires Base() && pd in dirs && Shows(Tabled(), pd, []) && Present(Tabled(), pd) == {}
      requires GoodImage(Loads(img.phs)) && FileHolds(Loads(img.phs), img.bytes) && ZeroBytes(ram[..], pa, pa + size)
      requires pa % PAGE == 0 && size % PAGE == 0 && pa + size <= KERNEL_OFFSET && pa + size <= ram.Length
      requires ChunkAt(Loads(img.phs)) + STACK_SIZE <= size && ChunkAt(Loads(img.phs)) % PAGE == 0
      requires Unclaimed(Tabled(), Free(), Frames(), pa / PAGE, size / PAGE)
      modifies this`tables, this`owner, alloc, alloc.freelist, ram
      ensures ok <==> CanDraw(old(Free()), |TablesOf(ElfRegions(Loads(img.phs), 0))|)
      ensures ok ==> Base() && dirs == old(dirs) && Kept(old(Tabled()), Tabled(), pd) && regions == ElfRegions(Loads(img.phs), pa)
      ensures ok ==> Shows(Tabled(), pd, regions) && RegionsOwned(Tabled(), regions) && Present(Tabled(), pd) == TablesOf(regions)
      ensures ok ==> AllPlaced(ram[..], Loads(img.phs), |Loads(img.phs)|, pa, img.bytes)
      ensures ok ==> ZeroBytes(ram[..], pa + ChunkAt(Loads(img.phs)), pa + size) && SameOutside(old(ram[..]), ram[..], pa, pa + size)
      ensures ok ==> Free() == Drawn(old(Free()), |TablesOf(ElfRegions(Loads(img.phs), 0))|)
    {
      hide Base, Shows, Unclaimed, FewerFree, TakenFrom, Kept, RegionsOwned, FramesIn, GoodImage, GoodSegment, Advance, SpaceOk,
        ZeroBytes, SameOutside, AllPlaced, FileHolds, Loads, SegRegions, MappedLen, ElfRegions, ChunkAt, CanDraw, Drawn, Present,
        TablesOf, Entries, Stage;
      ghost var ls, m2, bs2 := Loads(img.phs), Tabled(), Free();
      ElfTables(ls, pa);
      ElfRegionsIs(ls, pa);
      StackIsFront(ls, pa);
      var at;
      ok, at, regions := PlaceSegments(pd, img.phs, img.bytes, pa, size);
      if !ok {
        TablesTooMany(bs2, SegRegions(ls, pa), ElfRegions(ls, pa));
        return;
      }
      ghost var m1, bs1 := Tabled(), Free();
      StageUse(m2, m1, bs2, bs1, pd, regions, Frames(), at, pa + size - at, STACK_SIZE);
      var stack := Region(KERNEL_OFFSET - STACK_SIZE, at, STACK_SIZE);
      ok := MapRegion(pd, stack, regions);
      if !ok {
        StageFails(m2, m1, bs2, bs1, pd, regions, Frames(), at, pa + size - at, stack);
        return;
      }
      StageDone(m2, m1, Tabled(), bs2, bs1, Free(), pd, regions, Frames(), at, pa + size - at, stack);
      KeptTransitive(m2, m1, Tabled(), pd);
      RegionsOwnedCons(m1, Tabled(), pd, stack, regions);
      regions := [stack] + regions;
    }

    /** The address-space part of `sys_execve`: on success the process continues in the new program. */
    method SysExecve(pid: nat, img: Image) returns (r: Outcome)
      requires Valid() && pid in procs && (Accepted(img) ==> GoodImage(Loads(img.phs)) && FileHolds(Loads(img.phs), img.bytes))
      modifies this`tables, this`owner, this`dirs, this`procs, alloc, alloc.freelist, heap, heap.heap, ram
      ensures r == Fault <==> LoadStops(old(Free()), old(Nodes()), img)
      ensures r != Fault ==> Valid() && r == Returned(if Accepted(img) then 0 else -1) && tables[kdir] == old(tables)[kdir]
      ensures r != Fault ==> OwnersStay(old(owner), owner)
      ensures r != Fault ==> OthersUntouched(old(owner), old(ram[..]), ram[..])
      ensures r == Returned(-1) ==> procs == old(procs) && Nodes() == old(Nodes())
      ensures r == Returned(0) ==> Nodes() == Allotted(old(Nodes()), NodesSize(img))
      ensures r == Returned(0) ==>
        pid in procs && procs == old(procs)[pid := procs[pid]] && procs[pid].files == old(procs)[pid].files
        && Loaded(Tabled(), ram[..], procs[pid], img)
    {
      hide Base, SpacesOk, Loaded, GoodImage, FileHolds, Loads, Refused, LoadStops, H.KernelHeap.Valid, InKernelHalf;
      FilesKnown(Tabled(), procs, pid);
      KernelTableKnown();
      r := LoadFor(pid, img, procs[pid].files);
    }

    method LoadFor(pid: nat, img: Image, files: seq<Device>) returns (r: Outcome)
      requires Valid() && (Accepted(img) ==> GoodImage(Loads(img.phs)) && FileHolds(Loads(img.phs), img.bytes)) && |files| <= MAXFILES + 1
      modifies this`tables, this`owner, this`dirs, this`procs, alloc, alloc.freelist, heap, heap.heap, ram
      ensures r == Fault <==> LoadStops(old(Free()), old(Nodes()), img)
      ensures r == Returned(0) ==> Nodes() == Allotted(old(Nodes()), NodesSize(img))
      ensures r == Returned(0) ==> Free() == FilledPages(Drawn(old(Free()), 1), img)
      ensures r != Fault ==> OwnersStay(old(owner), owner)
      ensures kdir in old(tables) && (r != Fault ==> kdir in tables && tables[kdir] == old(tables)[kdir])
      ensures r != Fault ==> Valid() && r == Returned(if Accepted(img) then 0 else -1)
      ensures r != Fault ==> OthersUntouched(old(owner), old(ram[..]), ram[..])
      ensures r == Returned(-1) ==> procs == old(procs) && Nodes() == old(Nodes())
      ensures r == Returned(0) ==>
        pid in procs && procs == old(procs)[pid := procs[pid]] && procs[pid].files == files
        && Loaded(Tabled(), ram[..], procs[pid], img)
    {
      hide Base, SpacesOk, Loaded, GoodImage, FileHolds, Loads, OthersUntouched, Refused, SpaceOk, LoadStops, Allotted,
        H.KernelHeap.Valid, InKernelHalf, NodesSize, SameUserPages;
      ghost var m := Tabled();
      KernelTableKnown();
      var s;
      r, s := LoadElf(img, files);
      if r != Fault {
        SpacesKept(m, Tabled(), s.pd, procs);
        if r == Returned(0) {
          SpaceReplaced(m, Tabled(), procs, pid, s);
          procs := procs[pid := s];
        }
      }
    }

    /** `sys_open`: a seventeenth file still finds a place, behind the array; an eighteenth does not. */
    method SysOpen(pid: nat, node: Devices.Node) returns (r: Outcome, record: u32)
      requires Valid() && pid in procs
      modifies this`procs, alloc, alloc.freelist, heap, heap.heap
      ensures r == Fault <==> |old(procs)[pid].files| <= MAXFILES && !OpenReturns(old(Nodes()), node, devfb)
      ensures r != Fault ==> Valid()
      ensures node == Absent || |old(procs)[pid].files| > MAXFILES ==>
        r == Returned(-1) && procs == old(procs) && Nodes() == old(Nodes()) && Free() == old(Free())
      ensures r != Fault && node != Absent && |old(procs)[pid].files| <= MAXFILES ==>
        && r == Returned(|old(procs)[pid].files|) && record == AllotAt(old(Nodes()), FILE) && record > KERNEL_OFFSET
        && procs == old(procs)[pid := old(procs)[pid].(files := old(procs)[pid].files + [DeviceOf(node)])]
        && Nodes() == NodesOpened(old(Nodes()), node) && Free() == PagesOpened(old(Free()), node)
        && Free() == if node == Major(0) then P.AllocatedRest(old(Free()), 0x1000) else old(Free())
    {
      hide Base, H.KernelHeap.Valid, InKernelHalf, Shows, RegionsOwned, AllOk, Present, TablesOf, Allots, Allotted, P.AllocatedRest;
      DeviceNeeds();
      ConsoleRow(Nodes());
      FramebufferRow(Nodes());
      var s := procs[pid];
      assert SpaceOk(Tabled(), s);
      if node == Absent || |s.files| > MAXFILES {
        return Returned(-1), 0;
      }
      var ok;
      ok, record := Node(FILE);
      if !ok {
        return Fault, 0;
      }
      if node.n == CONSOLE {
        ok := ConsoleOpen();
      } else if node.n == FRAMEBUFFER {
        ok := FramebufferOpen();
      } else {
        ok := false;
      }
      if !ok {
        return Fault, 0;
      }
      procs := procs[pid := s.(files := s.files + [DeviceOf(node)])];
      r := Returned(|s.files|);
    }

    /** `fbcon_open`, with `file_open` of `/dev/fb`. */
    method ConsoleOpen() returns (ok: bool)
      requires Base() && HeapOk()
      modifies alloc, alloc.freelist, heap, heap.heap
      ensures Base() && HeapOk() && (ok ==> Free() == P.AllocatedRest(old(Free()), 0x1000))
      ensures ok <==> devfb == Major(FRAMEBUFFER) && var hs := old(Nodes());
        && Allots(hs, CONSOLE_SIZE) && Allots(Allotted(hs, CONSOLE_SIZE), FILE)
        && Allots(Allotted(Allotted(hs, CONSOLE_SIZE), FILE), FBDEV_SIZE)
      ensures ok ==> Nodes() == Allotted(Allotted(Allotted(old(Nodes()), CONSOLE_SIZE), FILE), FBDEV_SIZE)
    {
      hide Base, H.KernelHeap.Valid, InKernelHalf, Allots, Allotted, P.AllocatedRest;
      DeviceNeeds();
      var a, buffer;
      ok, a := Node(CONSOLE_SIZE);
      if !ok {
        return;
      }
      buffer := Take(0x1000);
      if devfb == Absent {
        return false;
      }
      ok, a := Node(FILE);
      if !ok {
        return;
      }
      if devfb.n == FRAMEBUFFER {
        ok := FramebufferOpen();
      } else {
        ok := false;
      }
    }

    /** `fbdev_open`. */
    method FramebufferOpen() returns (ok: bool)
      requires HeapOk()
      modifies heap, heap.heap
      ensures HeapOk() && ok == Allots(old(Nodes()), FBDEV_SIZE)
      ensures ok ==> Nodes() == Allotted(old(Nodes()), FBDEV_SIZE)
    {
      hide H.KernelHeap.Valid, InKernelHalf, Allots, Allotted;
      DeviceNeeds();
      var a;
      ok, a := Node(FBDEV_SIZE);
    }

    // ---------- user code

    /** Every mapped user address of a process leads into memory. */
    lemma PlacesKnown(pid: nat)
      requires Valid() && pid in procs
      ensures forall x :: 0 <= x < KERNEL_OFFSET && Walk(tables, procs[pid].pd, x / PAGE) != NotMapped ==>
        PlaceOf(tables, procs[pid].pd, x) < ram.Length
    {
      hide Core, Shows, RegionsOwned, AllOk, Present, TablesOf, Walk, P.PageAllocator.Valid, H.KernelHeap.Valid;
      SpaceOf(Tabled(), procs, pid);
      forall x: nat | x < KERNEL_OFFSET && Walk(tables, procs[pid].pd, x / PAGE) != NotMapped
        ensures PlaceOf(tables, procs[pid].pd, x) < ram.Length
      {
        FrameExists(Tabled(), Free(), Frames(), procs[pid].pd, x);
      }
    }

    /** A byte stored by user code: through the page tables, or into the page-fault handler, which halts. */
    method UserStore(pid: nat, a: u32, v: Byte) returns (r: Outcome)
      requires Valid() && pid in procs && a < KERNEL_OFFSET
      modifies ram
      ensures r == Fault <==> Walk(tables, procs[pid].pd, a / PAGE) == NotMapped
      ensures r == Fault ==> ram[..] == old(ram[..])
      ensures r != Fault ==> r == Returned(0) && PlaceOf(tables, procs[pid].pd, a) < ram.Length
      ensures r != Fault ==> ram[..] == old(ram[..])[PlaceOf(tables, procs[pid].pd, a) := v]
    {
      hide Core, Shows, RegionsOwned, AllOk, Present, TablesOf, Walk, P.PageAllocator.Valid, H.KernelHeap.Valid, InKernelHalf;
      ghost var m := Tabled();
      SpaceOf(m, procs, pid);
      var pd := procs[pid].pd;
      EntryFor(m, pd, a);
      WalkSteps(m, pd, a);
      var e := tables[pd][a / 0x40_0000];
      if !e.flags.p {
        return Fault;
      }
      var t := tables[e.frame][a / PAGE % ENTRIES];
      if !t.flags.p {
        return Fault;
      }
      FrameExists(m, Free(), Frames(), pd, a);
      ram[t.frame * PAGE + a % PAGE] := v;
      r := Returned(0);
    }

    /**
      `sys_read` into a buffer of the user half. Only a framebuffer stores anything, and then `bytes`, what it
      shows, one by one through the page tables.
     */
    method SysRead(pid: nat, fd: nat, buf: u32, bytes: seq<Byte>) returns (r: Outcome)
      requires Valid() && pid in procs && fd < MAXFILES && buf + |bytes| <= KERNEL_OFFSET
      modifies ram
      ensures r == Fault <==> Reads(procs[pid], fd) && !MappedAll(tables, procs[pid].pd, buf, |bytes|)
      ensures r != Fault ==> r == Returned(if fd < |procs[pid].files| then 0 else -1) && Valid()
      ensures r != Fault ==>
        ram[..] == if Reads(procs[pid], fd) then StoredBytes(tables, procs[pid].pd, old(ram[..]), buf, bytes) else old(ram[..])
    {
      hide Base, SpacesOk, H.KernelHeap.Valid, InKernelHalf, Walk, PlaceOf;
      var s := procs[pid];
      if fd >= |s.files| {
        return Returned(-1);
      }
      if s.files[fd].Console? {
        return Returned(0);
      }
      ghost var before := ram[..];
      var i := 0;
      assert bytes[..0] == [];
      while i < |bytes|
        invariant 0 <= i <= |bytes| && MappedAll(tables, s.pd, buf, i)
        invariant ram[..] == StoredBytes(tables, s.pd, before, buf, bytes[..i])
      {
        r := UserStore(pid, buf + i, bytes[i]);
        if r == Fault {
          return;
        }
        assert bytes[..i + 1][..i] == bytes[..i];
        i := i + 1;
      }
      assert bytes[..i] == bytes;
      r := Returned(0);
    }

    // ---------- sys_fork

    /** One region of the parent: mapped in the child at `at`, then copied. */
    method ForkRegion(pd: nat, r: Region, at: nat, ghost rs: seq<Region>) returns (ok: bool)
      requires Base() && pd in dirs && RegionOk(r) && Shows(Tabled(), pd, rs) && CanCopy(r, at, r.len, ram.Length)
      requires at % PAGE == 0 && at + r.len <= KERNEL_OFFSET
      requires Unclaimed(Tabled(), Free(), Frames(), at / PAGE, r.len / PAGE)
      modifies this`tables, this`owner, alloc, alloc.freelist, ram
      ensures var need := |Entries(Region(r.va, at, r.len)) - Present(old(Tabled()), pd)|;
        (ok <==> CanDraw(old(Free()), need)) && (ok ==> Free() == Drawn(old(Free()), need))
      ensures ok ==> Present(Tabled(), pd) == Present(old(Tabled()), pd) + Entries(Region(r.va, at, r.len))
      ensures ok ==> Base() && FewerFree(old(Free()), Free()) && dirs == old(dirs)
      ensures ok ==> Shows(Tabled(), pd, [Region(r.va, at, r.len)] + rs) && Kept(old(Tabled()), Tabled(), pd)
      ensures ok ==> FramesIn(Tabled(), Region(r.va, at, r.len))
      ensures ok ==> TakenFrom(old(Tabled()), Tabled(), old(Free()), at / PAGE, r.len / PAGE)
      ensures ok ==> SameOutside(old(ram[..]), ram[..], at, at + r.len)
      ensures ok ==> SameBytes(old(ram[..]), r.pa, ram[..], at, r.len)
    {
      hide Core, P.PageAllocator.Valid, Walk, Shows, Unclaimed, FewerFree, TakenFrom, FramesOk, Kept, FramesIn, Moved, Copied,
        SameOutside, SameBytes, CanDraw, Drawn, Present, Entries;
      ghost var before := ram[..];
      ok := MapRegion(pd, Region(r.va, at, r.len), rs);
      if ok {
        CopyResult(before, at, r.pa, r.len);
        Memmove(ram, at, r.pa, r.len);
      }
    }

    /** The loop of `sys_fork` over the parent's regions, filling the chunk at `pa`. */
    method ForkRegions(pd: nat, rs: seq<Region>, pa: nat, size: nat) returns (ok: bool, regions: seq<Region>)
      requires Base() && HeapOk() && pd in dirs && Shows(Tabled(), pd, []) && Present(Tabled(), pd) == {}
      requires AllOk(rs) && Total(rs) <= size
      requires pa % PAGE == 0 && size % PAGE == 0 && pa + size <= KERNEL_OFFSET && (size > 0 ==> pa + size <= ram.Length)
      requires Unclaimed(Tabled(), Free(), Frames(), pa / PAGE, size / PAGE) && AllCanCopy(rs, pa, size, ram.Length)
      modifies this`tables, this`owner, alloc, alloc.freelist, heap, heap.heap, ram
      ensures HeapOk() && (ok <==> CanDraw(old(Free()), |TablesOf(rs)|) && AllotsAll(old(Nodes()), NODE, |rs|))
      ensures ok ==> Nodes() == AllottedAll(old(Nodes()), NODE, |rs|)
      ensures ok ==> Base() && regions == ForkList(rs, pa)
      ensures ok ==>
        Stage(old(Tabled()), Tabled(), old(Free()), Free(), pd, regions, Frames(), pa + Total(rs), size - Total(rs))
      ensures ok ==> SameOutside(old(ram[..]), ram[..], pa, pa + size)
      ensures ok ==> ForkCopied(old(ram[..]), ram[..], rs, |rs|, pa)
    {
      hide Base, Shows, Unclaimed, FewerFree, TakenFrom, Kept, FramesIn, Stage, SameOutside, SameBytes, ForkCopied, Total,
        ForkList, AllOk, RegionOk, CanCopy, AllCanCopy, CanDraw, Drawn, Present, Entries, TablesOf, Allots, Allotted,
        AllotsAll, AllottedAll, H.KernelHeap.Valid, InKernelHalf;
      ghost var m0, bs0, hs0, before0 := Tabled(), Free(), Nodes(), ram[..];
      KernelTableKnown();
      NodeNeed();
      AllotNone(hs0, NODE);
      StageStart(m0, bs0, pd, Frames(), pa, size);
      NothingForked(rs, pa, before0, size);
      var at, i := pa, 0;
      regions := [];
      while i < |rs|
        invariant 0 <= i <= |rs| && Base() && pd in dirs && regions == ForkList(rs[..i], pa)
        invariant at == pa + Total(rs[..i]) && Total(rs[..i]) <= size
        invariant Stage(m0, Tabled(), bs0, Free(), pd, regions, Frames(), at, pa + size - at)
        invariant SameOutside(before0, ram[..], pa, pa + size) && ForkCopied(before0, ram[..], rs, i, pa)
        invariant HeapOk() && AllotsAll(hs0, NODE, i) && Nodes() == AllottedAll(hs0, NODE, i)
      {
        ghost var m, bs, before, rs0 := Tabled(), Free(), ram[..], regions;
        var r := rs[i];
        AllotOneMore(hs0, NODE, i);
        var node;
        ok, node := Node(NODE);
        if !ok {
          AllotNever(hs0, NODE, i + 1, |rs|);
          return;
        }
        NextFork(rs, i, pa, size, ram.Length);
        StageUse(m0, m, bs0, bs, pd, regions, Frames(), at, pa + size - at, r.len);
        ok := ForkRegion(pd, r, at, regions);
        if !ok {
          StageFails(m0, m, bs0, bs, pd, regions, Frames(), at, pa + size - at, Region(r.va, at, r.len));
          ForkTables(rs[..i + 1], pa);
          TablesPrefix(rs, i + 1);
          TablesTooMany(bs0, rs[..i + 1], rs);
          return;
        }
        StageNext(m0, m, Tabled(), bs0, bs, Free(), pd, regions, Frames(), at, pa + size - at, Region(r.va, at, r.len));
        OutsideGrows(before0, before, ram[..], pa, pa + size, at, at + r.len);
        ForkCopiedMore(before0, before, ram[..], rs, i, pa, size);
        regions := [Region(r.va, at, r.len)] + regions;
        at := at + PgUp(r.len);
        i := i + 1;
      }
      assert rs[..i] == rs;
      ForkTables(rs, pa);
      StageTables(m0, Tabled(), bs0, Free(), pd, regions, Frames(), at, pa + size - at);
      ok := true;
    }

    /** A record for each of `n` open files. */
    method FileNodes(n: nat) returns (ok: bool, records: seq<u32>)
      requires HeapOk()
      modifies heap, heap.heap
      ensures HeapOk() && (ok <==> AllotsAll(old(Nodes()), FILE, n))
      ensures ok ==> Nodes() == AllottedAll(old(Nodes()), FILE, n) && Records(records, n) && records == AllotsAt(old(Nodes()), FILE, n)
    {
      hide H.KernelHeap.Valid, InKernelHalf, Allots, Allotted, AllotsAll, AllottedAll, AllotAt, AllotsAt;
      ghost var hs := Nodes();
      NodeNeed();
      AllotNone(hs, FILE);
      var fd := 0;
      records := [];
      while fd < n
        invariant 0 <= fd <= n && HeapOk() && AllotsAll(hs, FILE, fd) && Nodes() == AllottedAll(hs, FILE, fd) && Records(records, fd)
        invariant records == AllotsAt(hs, FILE, fd)
      {
        AllotOneMore(hs, FILE, fd);
        AllotsAtOneMore(hs, FILE, fd);
        var record;
        ok, record := Node(FILE);
        if !ok {
          AllotNever(hs, FILE, fd + 1, n);
          return;
        }
        records := records + [record];
        fd := fd + 1;
      }
      ok := true;
    }

    /** The page of `alloc_thread`, zeroed; from now on it is the kernel's. */
    method AllocThread() returns (ok: bool, page: nat)
      requires Base()
      modifies this`owner, alloc, alloc.freelist, ram
      ensures (ok <==> !NoBlock(old(Free()), KSTACK_SIZE)) && Free() == P.AllocatedRest(old(Free()), KSTACK_SIZE)
      ensures ok ==> Base() && FewerFree(old(Free()), Free()) && OthersUntouched(old(owner), old(ram[..]), ram[..])
      ensures ok ==> page !in old(owner) && owner == old(owner)[page := Kernel] && page < USER_PAGES
      ensures ok ==> Kept(old(Tabled()), Tabled(), kdir)
      ensures ok ==> forall x :: page * PAGE <= x < page * PAGE + PAGE ==> x < ram.Length && ram[x] == 0
      ensures !ok ==> owner == old(owner)
    {
      hide Core, P.PageAllocator.Valid, PgUp, V2P, FewerFree, FramesOk, NoBlock, P.AllocatedRest, SameUserPages;
      ghost var before, m := ram[..], Tabled();
      KernelTableKnown();
      var kstack := Take(KSTACK_SIZE);
      if kstack == NULL {
        return false, 0;
      }
      OnePage();
      ChunkBounds(kstack, KSTACK_SIZE);
      var pa := V2P(kstack);
      MemoryFacts(pa, KSTACK_SIZE);
      Memset(ram, pa, 0, KSTACK_SIZE);
      Zeroed(before, ram[..], pa, KSTACK_SIZE);
      OutsideIsOther(owner, before, ram[..], pa, KSTACK_SIZE);
      page := pa / PAGE;
      WithKernelFrameCore(m, page);
      owner := owner[page := Kernel];
      KernelFrameOk(m, Free(), Frames(), page);
      ok := true;
    }

    /** `initsys`: the first process gets pid 1, its image must load, and it opens the console three times. */
    method InitSys(img: Image) returns (r: Outcome, page: nat, records: seq<u32>)
      requires Valid() && procs == map[] && (Accepted(img) ==> GoodImage(Loads(img.phs)) && FileHolds(Loads(img.phs), img.bytes))
      modifies this`tables, this`owner, this`dirs, this`procs, alloc, alloc.freelist, heap, heap.heap, ram
      ensures r == Fault <==> InitStops(old(Free()), old(Nodes()), img, devconsole, devfb)
      ensures r != Fault ==> Accepted(img) && Valid() && procs.Keys == {1} && Loaded(Tabled(), ram[..], procs[1], img)
      ensures r != Fault ==> procs[1].files == FilesAfter(devconsole, 3) && Records(records, |procs[1].files|)
      ensures r != Fault ==> Free() == InitPages(old(Free()), img, devconsole)
      ensures r != Fault ==>
        var hs := Allotted(old(Nodes()), NodesSize(img));
        records == RecordsAfter(hs, devconsole, 3) && Nodes() == NodesAfter(hs, devconsole, 3) && OpensReturn(hs, devconsole, devfb, 3)
      ensures r != Fault ==> OwnersStay(old(owner), owner) && page !in old(owner) && page in owner && owner[page] == Kernel && page < USER_PAGES
    {
      hide Base, SpacesOk, Loaded, GoodImage, FileHolds, Loads, Refused, LoadStops, NoBlock, P.AllocatedRest, Allots, Allotted,
        OpenReturns, H.KernelHeap.Valid, InKernelHalf, NodesSize, FilledPages, AllotsRow, AllottedRow, Drawn, Kept;
      ghost var m0 := Tabled();
      KernelTableKnown();
      var ok;
      ok, page := AllocThread();
      if !ok {
        return Fault, 0, [];
      }
      KeptSpaces(m0, Tabled(), kdir, procs);
      r := LoadFor(1, img, []);
      if r != Returned(0) {
        return Fault, 0, [];
      }
      ghost var m, mem, s := Tabled(), ram[..], procs[1];
      ok, records := OpenConsoles();
      if !ok {
        return Fault, 0, [];
      }
      FilesIrrelevant(m, mem, s, procs[1].files, img);
      r := Returned(0);
    }

    /** The three opens of `/dev/console` for the first process. */
    method OpenConsoles() returns (ok: bool, records: seq<u32>)
      requires Valid() && procs.Keys == {1} && procs[1].files == []
      modifies this`procs, alloc, alloc.freelist, heap, heap.heap
      ensures ok <==> OpensReturn(old(Nodes()), devconsole, devfb, 3)
      ensures ok ==> Valid() && procs.Keys == {1} && procs[1] == old(procs)[1].(files := FilesAfter(devconsole, 3))
      ensures ok ==> Records(records, |procs[1].files|) && records == RecordsAfter(old(Nodes()), devconsole, 3)
      ensures ok ==> Nodes() == NodesAfter(old(Nodes()), devconsole, 3) && Free() == PagesAfter(old(Free()), devconsole, 3)
    {
      hide Base, SpacesOk, OpenReturns, H.KernelHeap.Valid, InKernelHalf, AllotAt, NodesOpened, PagesOpened;
      ghost var bs, hs, s := Free(), Nodes(), procs[1];
      var i := 0;
      records := [];
      while i < 3
        invariant 0 <= i <= 3 && Valid() && procs.Keys == {1} && procs[1] == s.(files := FilesAfter(devconsole, i)) && |FilesAfter(devconsole, i)| <= i
        invariant Records(records, |procs[1].files|) && records == RecordsAfter(hs, devconsole, i)
        invariant OpensReturn(hs, devconsole, devfb, i)
        invariant Nodes() == NodesAfter(hs, devconsole, i) && Free() == PagesAfter(bs, devconsole, i)
      {
        var r, record := SysOpen(1, devconsole);
        if r == Fault {
          OpensNever(hs, devconsole, devfb, i + 1, 3);
          return false, records;
        }
        if r != Returned(-1) {
          records := records + [record];
        }
        NoneOpened(NodesAfter(hs, devconsole, i), PagesAfter(bs, devconsole, i));
        i := i + 1;
      }
      ok := true;
    }

    /** `initsys`, and the page of the idle thread from `init_sched`. */
    method Boot(img: Image) returns (r: Outcome, page: nat, idle: nat, records: seq<u32>)
      requires Valid() && procs == map[] && (Accepted(img) ==> GoodImage(Loads(img.phs)) && FileHolds(Loads(img.phs), img.bytes))
      modifies this`tables, this`owner, this`dirs, this`procs, alloc, alloc.freelist, heap, heap.heap, ram
      ensures r == Fault <==> BootStops(old(Free()), old(Nodes()), img, devconsole, devfb)
      ensures r != Fault ==> Accepted(img) && Valid() && procs.Keys == {1} && Loaded(Tabled(), ram[..], procs[1], img)
      ensures r != Fault ==> OwnersStay(old(owner), owner) && page !in old(owner) && page in owner && owner[page] == Kernel && page < USER_PAGES
      ensures r != Fault ==> idle !in old(owner) && idle in owner && owner[idle] == Kernel && idle < USER_PAGES && idle != page
      ensures r != Fault ==> procs[1].files == FilesAfter(devconsole, 3) && Records(records, |procs[1].files|)
      ensures r != Fault ==>
        var hs := Allotted(old(Nodes()), NodesSize(img));
        records == RecordsAfter(hs, devconsole, 3) && Nodes() == NodesAfter(hs, devconsole, 3) && OpensReturn(hs, devconsole, devfb, 3)
    {
      hide Base, SpacesOk, Loaded, GoodImage, FileHolds, Loads, InitStops, InitPages, NoBlock, P.AllocatedRest, OthersUntouched, Kept;
      idle := 0;
      r, page, records := InitSys(img);
      if r == Fault {
        return;
      }
      ghost var m, ram0, s := Tabled(), ram[..], procs[1];
      KernelTableKnown();
      var ok;
      ok, idle := AllocThread();
      if !ok {
        return Fault, 0, 0, [];
      }
      KeptSpaces(m, Tabled(), kdir, procs);
      LoadedStays(m, ram0, Tabled(), ram[..], procs, 1, img);
    }

    /**
      The address-space part of `sys_fork`: minus one when the regions' chunk is not to be had, else the
      child's pid. `stale` is the recorded size the child's slot of the region table happens to hold.
     */
    method SysFork(pid: nat, child: nat, stale: u32) returns (r: Outcome, page: nat, records: seq<u32>)
      requires Valid() && pid in procs && child !in procs && child <= MAX_PID
      requires |procs[pid].files| <= MAXFILES && Separate(procs[pid].regions) && Total(procs[pid].regions) <= procs[pid].sz
      modifies this`tables, this`owner, this`dirs, this`procs, alloc, alloc.freelist, heap, heap.heap, ram
      ensures r != Fault ==> Valid() && OthersUntouched(old(owner), old(ram[..]), ram[..]) && tables[kdir] == old(tables)[kdir]
      ensures r != Fault ==> OwnersStay(old(owner), owner)
      ensures r != Fault ==> page !in old(owner) && page in owner && owner[page] == Kernel && page < USER_PAGES
      ensures r == Fault <==> ForkStops(old(Free()), old(Nodes()), old(procs)[pid])
      ensures r == Returned(-1) <==> ForkRefused(old(Free()), old(procs)[pid])
      ensures r != Fault ==> r == Returned(-1) || r == Returned(child)
      ensures r == Returned(-1) ==> procs == old(procs) && Nodes() == old(Nodes())
      ensures r == Returned(child) ==> Records(records, |old(procs)[pid].files|)
      ensures r == Returned(child) ==>
        var hs := AllottedAll(old(Nodes()), NODE, |old(procs)[pid].regions|);
        records == AllotsAt(hs, FILE, |old(procs)[pid].files|) && Nodes() == AllottedAll(hs, FILE, |old(procs)[pid].files|)
      ensures r == Returned(child) ==>
        child in procs && procs == old(procs)[child := procs[child]] && procs[child].sz == stale
        && Forked(old(Tabled()), old(ram[..]), old(procs)[pid], Tabled(), ram[..], procs[child])
    {
      hide Base, SpacesOk, Separate, Forked, OthersUntouched, Total, CanDraw, Drawn, TablesOf, AllotsAll, AllottedAll,
        H.KernelHeap.Valid, InKernelHalf, NoBlock, P.AllocatedRest, Kept;
      KernelTableKnown();
      ghost var m0, ram0 := Tabled(), ram[..];
      var ok;
      ok, page := AllocThread();
      if !ok {
        return Fault, 0, [];
      }
      ghost var m1, ram1, ps := Tabled(), ram[..], procs;
      KeptSpaces(m0, m1, kdir, procs);
      KeptFacts(m0, m1, kdir);
      r, records := ForkInto(pid, child, stale);
      if r != Fault {
        FewerOwners(m0.owner, m1.owner, ram1, ram[..]);
        OthersTransitive(m0.owner, ram0, ram1, ram[..]);
        if r == Returned(child) {
          ForkedEarlier(m0, ram0, m1, ram1, ps, pid, ps[pid], Tabled(), ram[..], procs[child]);
        }
      }
    }

    /** `sys_fork` once the child's thread exists. */
    method ForkInto(pid: nat, child: nat, stale: u32) returns (r: Outcome, records: seq<u32>)
      requires Valid() && pid in procs && child !in procs && child <= MAX_PID
      requires |procs[pid].files| <= MAXFILES && Separate(procs[pid].regions) && Total(procs[pid].regions) <= procs[pid].sz
      modifies this`tables, this`owner, this`dirs, this`procs, alloc, alloc.freelist, heap, heap.heap, ram
      ensures r != Fault ==> Valid() && OthersUntouched(old(owner), old(ram[..]), ram[..]) && tables[kdir] == old(tables)[kdir]
      ensures r != Fault ==> OwnersStay(old(owner), owner)
      ensures r == Fault <==> ForkIntoStops(old(Free()), old(Nodes()), old(procs)[pid])
      ensures r == Returned(-1) <==> NoBlock(old(Free()), old(procs)[pid].sz)
      ensures r != Fault ==> r == Returned(-1) || r == Returned(child)
      ensures r == Returned(-1) ==> procs == old(procs) && Nodes() == old(Nodes())
      ensures r == Returned(child) ==> Records(records, |old(procs)[pid].files|)
      ensures r == Returned(child) ==>
        var hs := AllottedAll(old(Nodes()), NODE, |old(procs)[pid].regions|);
        records == AllotsAt(hs, FILE, |old(procs)[pid].files|) && Nodes() == AllottedAll(hs, FILE, |old(procs)[pid].files|)
      ensures r == Returned(child) ==>
        child in procs && procs == old(procs)[child := procs[child]] && procs[child].sz == stale
        && Forked(old(Tabled()), old(ram[..]), old(procs)[pid], Tabled(), ram[..], procs[child])
    {
      hide Base, Shows, Unclaimed, FewerFree, TakenFrom, Kept, RegionsOwned, FramesIn, SameOutside, ForkCopied, Total,
        ForkList, AllOk, AllCanCopy, SpaceOk, SpacesOk, Separate, Forked, OthersUntouched, PgUp, V2P, Stage, CanDraw, Drawn,
        Present, TablesOf, AllotsAll, AllottedAll, H.KernelHeap.Valid, InKernelHalf, NoBlock, P.AllocatedRest, AllotsAt, AllotAt, Allots,
        Allotted, Records;
      KernelTableKnown();
      ghost var m0, ram0 := Tabled(), ram[..];
      var s := procs[pid];
      var ok;
      var mem := Take(s.sz);
      if mem == NULL {
        OthersReflexive(owner, ram0);
        return Returned(-1), [];
      }
      ghost var bs0 := Free();
      DrawSplit(bs0, 1, |TablesOf(s.regions)|);
      DrawFewer1(bs0, |TablesOf(s.regions)|);
      var pa, size := V2P(mem), PgUp(s.sz);
      ChunkBounds(mem, s.sz);
      MemoryFacts(pa, size);
      var pd;
      ok, pd := CopyKvm();
      if !ok {
        return Fault, [];
      }
      ghost var m1, bs1 := Tabled(), Free();
      StillUnclaimed(m0, m1, bs0, bs1, Frames(), pa / PAGE, size / PAGE, 0, 0);
      FramesKnown();
      ForkReady(m0, m1, bs1, procs, pid, pd, pa, size, ram.Length);
      var regions;
      ok, regions := ForkRegions(pd, s.regions, pa, size);
      if !ok {
        return Fault, [];
      }
      OutsideIsOther(m0.owner, ram0, ram[..], pa, size);
      ok, records := FileNodes(|s.files|);
      if !ok {
        return Fault, [];
      }
      var c := Space(pd, 0, regions, stale, s.eip, s.esp, s.files);
      ForkDone(m0, ram0, m1, bs1, Tabled(), Free(), ram[..], procs, pid, child, c, pa, size);
      procs := procs[child := c];
      r := Returned(child);
    }
  }

  /** `sys_fork` returns minus one: there is a kernel stack, but no chunk of the recorded size. */
  ghost predicate ForkRefused(bs: seq<B.Block>, s: Space) {
    !NoBlock(bs, KSTACK_SIZE) && NoBlock(P.AllocatedRest(bs, KSTACK_SIZE), s.sz)
  }

  /** `sys_fork` stops the kernel: no kernel stack, or a chunk but not the directory, all tables, all nodes and all files. */
  ghost predicate ForkStops(bs: seq<B.Block>, hs: seq<B.Block>, s: Space) {
    NoBlock(bs, KSTACK_SIZE) || ForkIntoStops(P.AllocatedRest(bs, KSTACK_SIZE), hs, s)
  }

  ghost predicate ForkIntoStops(bs: seq<B.Block>, hs: seq<B.Block>, s: Space) {
    && !NoBlock(bs, s.sz)
    && (|| !CanDraw(P.AllocatedRest(bs, s.sz), 1 + |TablesOf(s.regions)|)
        || !AllotsAll(hs, NODE, |s.regions|)
        || !AllotsAll(AllottedAll(hs, NODE, |s.regions|), FILE, |s.files|))
  }

  /** `initsys` stops the kernel. */
  ghost predicate InitStops(bs: seq<B.Block>, hs: seq<B.Block>, img: Image, console: Devices.Node, fb: Devices.Node) {
    || NoBlock(bs, KSTACK_SIZE)
    || !Accepted(img)
    || LoadStops(P.AllocatedRest(bs, KSTACK_SIZE), hs, img)
    || !OpensReturn(Allotted(hs, NodesSize(img)), console, fb, 3)
  }

  /** The page list `initsys` leaves. */
  ghost function InitPages(bs: seq<B.Block>, img: Image, console: Devices.Node): seq<B.Block> {
    PagesAfter(FilledPages(Drawn(P.AllocatedRest(bs, KSTACK_SIZE), 1), img), console, 3)
  }

  /** `initsys` or `init_sched` stops the kernel. */
  ghost predicate BootStops(bs: seq<B.Block>, hs: seq<B.Block>, img: Image, console: Devices.Node, fb: Devices.Node) {
    InitStops(bs, hs, img, console, fb) || NoBlock(InitPages(bs, img, console), KSTACK_SIZE)
  }

  lemma KernelFrameOk(m: Mem, bs: seq<B.Block>, frames: nat, f: nat)
    requires FramesOk(m, bs, frames) && f < frames && !FreeFrame(bs, f)
    ensures FramesOk(WithKernelFrame(m, f), bs, frames)
  {
    hide FreeFrame;
  }

  lemma KeptSpaces(m0: Mem, m: Mem, kdir: nat, procs: map<nat, Space>)
    requires SpacesOk(m0, procs) && Kept(m0, m, kdir) && kdir !in m0.dirs
    ensures SpacesOk(m, procs)
  {
    hide SpacesOk, Kept;
    SpacesKept(m0, m, kdir, procs);
  }

  /** An address space reads the same as long as its pages stay and no owned frame is written. */
  lemma ReadsSame(m0: Mem, ram0: seq<Byte>, m: Mem, ram: seq<Byte>, s: Space, x: nat)
    requires SpaceOk(m0, s) && SpaceOk(m, s) && OthersUntouched(m0.owner, ram0, ram) && x < KERNEL_OFFSET
    ensures ReadByte(m, ram, s.pd, x) == ReadByte(m0, ram0, s.pd, x)
  {
    hide Walk, Lookup, AllOk, RegionsOwned, OthersUntouched, Present, TablesOf;
    var vp := x / PAGE;
    assert Walk(m0.tables, s.pd, vp) == Lookup(s.regions, vp) == Walk(m.tables, s.pd, vp);
    if Lookup(s.regions, vp).Page? {
      PageOwned(m0, s, vp);
      OwnedPageSame(m0.owner, ram0, ram, Lookup(s.regions, vp).frame, x % PAGE);
    }
  }

  lemma ReadsStay(m0: Mem, ram0: seq<Byte>, m: Mem, ram: seq<Byte>, pd: nat, ls: seq<Segment>, bytes: seq<Byte>)
    requires ReadsAs(m0, ram0, pd, ls, bytes) && GoodImage(ls)
    requires forall x :: 0 <= x < KERNEL_OFFSET ==> ReadByte(m, ram, pd, x) == ReadByte(m0, ram0, pd, x)
    ensures ReadsAs(m, ram, pd, ls, bytes)
  {
    hide ReadByte, GoodImage, Content;
    forall k, j: nat | 0 <= k < |ls| && j < ls[k].memsz
      ensures ReadByte(m, ram, pd, ByteAddress(ls[k], j)) == Content(ls[k], bytes, j)
    {
      SegmentBelow(ls, k, j);
    }
  }

  lemma SegmentBelow(ls: seq<Segment>, k: nat, j: nat)
    requires GoodImage(ls) && k < |ls| && j < ls[k].memsz
    ensures 0 <= ByteAddress(ls[k], j) < KERNEL_OFFSET
  {
    EndBelow(ls, k);
    SegmentExtent(ls[k], j);
  }

  lemma LoadedStays(m0: Mem, ram0: seq<Byte>, m: Mem, ram: seq<Byte>, procs: map<nat, Space>, pid: nat, img: Image)
    requires SpacesOk(m0, procs) && SpacesOk(m, procs) && pid in procs && OthersUntouched(m0.owner, ram0, ram)
    requires Loaded(m0, ram0, procs[pid], img) && GoodImage(Loads(img.phs))
    ensures Loaded(m, ram, procs[pid], img)
  {
    hide SpaceOk, OthersUntouched, ReadByte, Loads, SpaceShape, Total;
    var s := procs[pid];
    SpaceOf(m0, procs, pid);
    SpaceOf(m, procs, pid);
    forall x: nat | x < KERNEL_OFFSET
      ensures ReadByte(m, ram, s.pd, x) == ReadByte(m0, ram0, s.pd, x)
    {
      ReadsSame(m0, ram0, m, ram, s, x);
    }
    ReadsStay(m0, ram0, m, ram, s.pd, Loads(img.phs), img.bytes);
  }

  /** A file just opened on a framebuffer, and on nothing else, is one `sys_read` stores from. */
  lemma OpenedReads(s: Space, n: nat)
    ensures Reads(s.(files := s.files + [DeviceOf(Major(n))]), |s.files|) <==> n == 1
  {
  }

  /** The descriptor is open on a framebuffer. */
  predicate Reads(s: Space, fd: nat) {
    fd < |s.files| && s.files[fd] == Framebuffer
  }

  /** The `n` user addresses from `a` are mapped. */
  ghost predicate MappedAll(tables: Tables, pd: nat, a: nat, n: nat) {
    forall x :: a <= x < a + n ==> Walk(tables, pd, x / PAGE) != NotMapped
  }

  /** Memory after `bytes` are stored one by one at the user addresses from `a`. */
  ghost function StoredBytes(tables: Tables, pd: nat, ram: seq<Byte>, a: nat, bytes: seq<Byte>): seq<Byte>
    decreases |bytes|
  {
    if bytes == [] then ram
    else
      var n := |bytes| - 1;
      var before := StoredBytes(tables, pd, ram, a, bytes[..n]);
      var x := PlaceOf(tables, pd, a + n);
      if x < |before| then before[x := bytes[n]] else before
  }

  lemma OthersReflexive(owner: map<nat, Owner>, ram: seq<Byte>)
    ensures OthersUntouched(owner, ram, ram)
  {
  }

  lemma KeptFacts(m0: Mem, m: Mem, pd: nat)
    requires Kept(m0, m, pd)
    ensures OwnersStay(m0.owner, m.owner) && m0.kdir in m0.tables && m0.kdir in m.tables && m.tables[m0.kdir] == m0.tables[m0.kdir]
  {
  }

  lemma FewerOwners(o0: map<nat, Owner>, o: map<nat, Owner>, before: seq<Byte>, after: seq<Byte>)
    requires OwnersStay(o0, o) && OthersUntouched(o, before, after)
    ensures OthersUntouched(o0, before, after)
  {
  }

  /** What a fork gives, seen from before the child's stack was allocated. */
  lemma ForkedEarlier(m0: Mem, ram0: seq<Byte>, m1: Mem, ram1: seq<Byte>, procs: map<nat, Space>, pid: nat, s: Space,
                      m: Mem, ram: seq<Byte>, c: Space)
    requires SpacesOk(m0, procs) && SpacesOk(m1, procs) && pid in procs && s == procs[pid]
    requires OthersUntouched(m0.owner, ram0, ram1) && OwnersStay(m0.owner, m1.owner) && Forked(m1, ram1, s, m, ram, c)
    ensures Forked(m0, ram0, s, m, ram, c)
  {
    hide Walk, Lookup, Separate, OthersUntouched, AllOk, Present, TablesOf, RegionsOwned, ReadByte;
    SpaceOf(m0, procs, pid);
    SpaceOf(m1, procs, pid);
    assert forall vp :: 0 <= vp < USER_PAGES ==> Walk(m1.tables, s.pd, vp) == Walk(m0.tables, s.pd, vp);
    forall x: nat | x < KERNEL_OFFSET
      ensures ReadByte(m1, ram1, s.pd, x) == ReadByte(m0, ram0, s.pd, x)
    {
      ReadsSame(m0, ram0, m1, ram1, s, x);
    }
  }

  lemma FilesIrrelevant(m: Mem, ram: seq<Byte>, s: Space, files: seq<Device>, img: Image)
    requires Loaded(m, ram, s, img)
    ensures Loaded(m, ram, s.(files := files), img)
  {
    hide ReadsAs, Loads, SpaceShape, Total;
  }

  lemma AllotNone(hs: seq<B.Block>, n: u32)
    ensures AllotsAll(hs, n, 0) && AllottedAll(hs, n, 0) == hs && AllotsAt(hs, n, 0) == []
  {
  }

  lemma AllotNever(hs: seq<B.Block>, n: u32, m: nat, k: nat)
    requires !AllotsAll(hs, n, m) && m <= k
    ensures !AllotsAll(hs, n, k)
  {
    hide AllotsAll;
    if AllotsAll(hs, n, k) {
      AllotFewer(hs, n, m, k);
    }
  }

  lemma DrawFewer1(bs: seq<B.Block>, n: nat)
    ensures !CanDraw(bs, 1) ==> !CanDraw(bs, 1 + n)
  {
    hide CanDraw;
    if CanDraw(bs, 1 + n) {
      DrawFewer(bs, 1, 1 + n);
    }
  }

  lemma TablesPrefix(rs: seq<Region>, k: nat)
    requires k <= |rs|
    ensures TablesOf(rs[..k]) <= TablesOf(rs)
  {
    forall i: nat | TouchedBySome(rs[..k], i)
      ensures TouchedBySome(rs, i)
    {
      var j :| 0 <= j < k && Touched(i, FirstPage(rs[..k][j]), Count(rs[..k][j]));
      assert rs[j] == rs[..k][j];
    }
  }

  lemma StageTables(m0: Mem, m: Mem, bs0: seq<B.Block>, bs: seq<B.Block>, pd: nat, regions: seq<Region>,
                    frames: nat, at: nat, left: nat)
    requires Stage(m0, m, bs0, bs, pd, regions, frames, at, left)
    ensures CanDraw(bs0, |TablesOf(regions)|) && Present(m, pd) == TablesOf(regions)
  {
  }

  const KSTACK_SIZE: u32 := 0x1000
  /** The region table has one slot per pid, from one. */
  const MAX_PID := 128

  lemma OthersTransitive(owner: map<nat, Owner>, a: seq<Byte>, b: seq<Byte>, c: seq<Byte>)
    requires OthersUntouched(owner, a, b) && OthersUntouched(owner, b, c)
    ensures OthersUntouched(owner, a, c)
  {
  }

  lemma ChunkBounds(mem: u32, sz: u32)
    requires mem % PAGE == 0 && KERNEL_OFFSET <= mem && mem + PgUp(sz) <= U32
    ensures V2P(mem) % PAGE == 0 && PgUp(sz) % PAGE == 0 && V2P(mem) + PgUp(sz) <= KERNEL_OFFSET
  {
  }

  /** With the chunk taken and the child's directory built, every region of the parent can be copied. */
  lemma ForkReady(m0: Mem, m1: Mem, bs: seq<B.Block>, procs: map<nat, Space>, pid: nat, pd: nat, pa: nat, size: nat, ram: nat)
    requires SpacesOk(m0, procs) && pid in procs && Kept(m0, m1, pd) && FramesOk(m1, bs, ram / PAGE) && ram % PAGE == 0
    requires Unclaimed(m1, bs, ram / PAGE, pa / PAGE, size / PAGE) && pa % PAGE == 0 && size % PAGE == 0
    ensures AllOk(procs[pid].regions) && AllCanCopy(procs[pid].regions, pa, size, ram)
  {
    hide Shows, Unclaimed;
    var rs := procs[pid].regions;
    SpaceOf(m0, procs, pid);
    forall i | 0 <= i < |rs|
      ensures CanCopy(rs[i], pa, size, ram)
    {
      assert RegionOk(rs[i]) && FramesIn(m0, rs[i]);
      OwnedApart(m1, bs, rs[i], pa, size, ram);
    }
  }

  lemma OwnedApart(m: Mem, bs: seq<B.Block>, r: Region, pa: nat, size: nat, ram: nat)
    requires RegionOk(r) && FramesIn(m, r) && FramesOk(m, bs, ram / PAGE) && ram % PAGE == 0
    requires Unclaimed(m, bs, ram / PAGE, pa / PAGE, size / PAGE) && pa % PAGE == 0 && size % PAGE == 0
    ensures CanCopy(r, pa, size, ram)
  {
    if r.len > 0 && size > 0 {
      var a, n, p, k := r.pa / PAGE, Count(r), pa / PAGE, size / PAGE;
      assert a + n - 1 in m.owner && a in m.owner;
      var f := if a < p then p else a;
      assert p <= f < p + k ==> f !in m.owner;
      assert a <= f < a + n ==> f in m.owner;
    }
  }

  /** The child is an address space of its own, with the parent's contents. */
  lemma ForkDone(m0: Mem, ram0: seq<Byte>, m1: Mem, bs1: seq<B.Block>, m: Mem, bs: seq<B.Block>, ram: seq<Byte>,
                 procs: map<nat, Space>, pid: nat, child: nat, c: Space, pa: nat, size: nat)
    requires SpacesOk(m0, procs) && pid in procs && child !in procs && Separate(procs[pid].regions)
    requires Kept(m0, m1, c.pd) && c.pd !in m0.dirs && c.pd in m1.dirs
    requires Total(procs[pid].regions) <= size && pa % PAGE == 0 && pa + size <= KERNEL_OFFSET
    requires Unclaimed(m1, bs1, |ram| / PAGE, pa / PAGE, size / PAGE)
    requires Stage(m1, m, bs1, bs, c.pd, c.regions, |ram| / PAGE, pa + Total(procs[pid].regions), size - Total(procs[pid].regions))
    requires ForkCopied(ram0, ram, procs[pid].regions, |procs[pid].regions|, pa)
    requires c == Space(c.pd, 0, ForkList(procs[pid].regions, pa), c.sz, procs[pid].eip, procs[pid].esp, procs[pid].files)
    ensures SpacesOk(m, procs[child := c]) && Forked(m0, ram0, procs[pid], m, ram, c)
    ensures m0.kdir in m0.tables && m0.kdir in m.tables && m.tables[m0.kdir] == m0.tables[m0.kdir] && OwnersStay(m0.owner, m.owner)
  {
    hide Shows, Unclaimed, RegionsOwned, Total, ForkCopied, ForkList, Separate, AllOk, Forked;
    SpaceOf(m0, procs, pid);
    var s := procs[pid];
    ForkListOk(s.regions, pa);
    StageUse(m1, m, bs1, bs, c.pd, c.regions, |ram| / PAGE, pa + Total(s.regions), size - Total(s.regions), 0);
    KeptTransitive(m0, m1, m, c.pd);
    SpaceReplaced(m0, m, procs, child, c);
    ForkSeparate(s.regions, pa);
    ForkedAll(m0, ram0, s, m1, bs1, m, ram, c, pa, size);
  }

  /** The directory entries a region goes through. */
  ghost function Entries(r: Region): set<nat> {
    Needed(FirstPage(r), Count(r))
  }

  ghost predicate TouchedBySome(rs: seq<Region>, i: nat) {
    exists k :: 0 <= k < |rs| && Touched(i, FirstPage(rs[k]), Count(rs[k]))
  }

  /** The directory entries some region goes through. */
  ghost function TablesOf(rs: seq<Region>): set<nat> {
    set i: nat | i < USER_ENTRIES && TouchedBySome(rs, i)
  }

  lemma TablesCons(r: Region, rs: seq<Region>)
    ensures TablesOf([]) == {} && TablesOf([r] + rs) == TablesOf(rs) + Entries(r)
  {
    var l := [r] + rs;
    forall i: nat
      ensures TouchedBySome(l, i) <==> TouchedBySome(rs, i) || Touched(i, FirstPage(r), Count(r))
    {
      if TouchedBySome(rs, i) {
        var k :| 0 <= k < |rs| && Touched(i, FirstPage(rs[k]), Count(rs[k]));
        assert l[k + 1] == rs[k];
      }
      if Touched(i, FirstPage(r), Count(r)) {
        assert l[0] == r;
      }
    }
  }

  /** What `sys_fork` promises: every user address reads the same, from frames nobody had before. */
  ghost predicate Forked(m0: Mem, ram0: seq<Byte>, s: Space, m: Mem, ram: seq<Byte>, c: Space) {
    && c.mmapBase == 0 && c.eip == s.eip && c.esp == s.esp && c.files == s.files && Separate(c.regions)
    && (forall vp :: 0 <= vp < USER_PAGES ==> (Walk(m.tables, c.pd, vp).Page? <==> Walk(m0.tables, s.pd, vp).Page?))
    && (forall vp :: 0 <= vp < USER_PAGES && Walk(m.tables, c.pd, vp).Page? ==> Walk(m.tables, c.pd, vp).frame !in m0.owner)
    && (forall a :: 0 <= a < KERNEL_OFFSET ==> ReadByte(m, ram, c.pd, a) == ReadByte(m0, ram0, s.pd, a))
  }

  lemma {:induction false} ForkListOk(rs: seq<Region>, pa: nat)
    requires AllOk(rs) && pa % PAGE == 0 && pa + Total(rs) <= KERNEL_OFFSET
    ensures AllOk(ForkList(rs, pa))
  {
    hide ForkList, Total, RegionOk;
    var c, n := ForkList(rs, pa), |rs| - 1;
    ForkListSize(rs, pa);
    forall k | 0 <= k < |c|
      ensures RegionOk(c[k])
    {
      ForkListAt(rs, pa, n - k);
      TotalPrefix(rs, n - k);
      PrefixTotal(rs, n - k);
      ForkRegionOk(rs[n - k], pa + Total(rs[..n - k]));
    }
  }

  lemma PrefixTotal(rs: seq<Region>, k: nat)
    requires AllOk(rs) && k < |rs|
    ensures Total(rs[..k]) % PAGE == 0
  {
    TotalAligned(rs[..k]);
  }

  lemma ForkRegionOk(r: Region, at: nat)
    requires RegionOk(r) && at % PAGE == 0 && at + r.len <= KERNEL_OFFSET
    ensures RegionOk(Region(r.va, at, r.len))
  {
  }

  /** The parent's page `vp` and the child's: both absent, or the child's is a copy inside the chunk. */
  lemma ForkedPage(rs: seq<Region>, pa: nat, size: nat, vp: nat, before: seq<Byte>, after: seq<Byte>)
    requires AllOk(rs) && Separate(rs) && pa % PAGE == 0 && Total(rs) <= size && ForkCopied(before, after, rs, |rs|, pa)
    ensures var w, c := Lookup(rs, vp), Lookup(ForkList(rs, pa), vp);
      && (w.Page? <==> c.Page?)
      && (c.Page? ==> pa / PAGE <= c.frame < pa / PAGE + size / PAGE)
      && (c.Page? ==> SamePage(before, w.frame, after, c.frame))
  {
    hide ForkList, Lookup, Total, Separate, SameBytes, SamePage, InRegion, FrameFor, RegionOk;
    ForkMaps(rs, pa, vp);
    LookupFound(rs, vp);
    if Lookup(rs, vp).Page? {
      var i :| 0 <= i < |rs| && InRegion(rs[i], vp) && Lookup(rs, vp) == Page(FrameFor(rs[i], vp), USER);
      PrefixTotal(rs, i);
      TotalPrefix(rs, i);
      assert SameBytes(before, rs[i].pa, after, pa + Total(rs[..i]), rs[i].len);
      PageOfCopy(rs[i], vp, before, after, pa + Total(rs[..i]));
      PlaceInChunk(rs[i], vp, pa, Total(rs[..i]), size);
    }
  }

  lemma PlaceInChunk(r: Region, vp: nat, pa: nat, d: nat, size: nat)
    requires RegionOk(r) && InRegion(r, vp) && pa % PAGE == 0 && d % PAGE == 0 && d + r.len <= size
    ensures pa / PAGE <= (pa + d) / PAGE + (vp - FirstPage(r)) < pa / PAGE + size / PAGE
  {
  }

  /** Frame `g` of `after` holds the bytes of frame `f` of `before`. */
  ghost predicate SamePage(before: seq<Byte>, f: nat, after: seq<Byte>, g: nat) {
    forall o :: 0 <= o < PAGE ==> Nth(after, g * PAGE, o) == Nth(before, f * PAGE, o)
  }

  lemma PageOfCopy(r: Region, vp: nat, before: seq<Byte>, after: seq<Byte>, at: nat)
    requires RegionOk(r) && InRegion(r, vp) && at % PAGE == 0 && SameBytes(before, r.pa, after, at, r.len)
    ensures SamePage(before, FrameFor(r, vp), after, at / PAGE + (vp - FirstPage(r)))
  {
    var d := vp - FirstPage(r);
    forall o | 0 <= o < PAGE
      ensures Nth(after, (at / PAGE + d) * PAGE, o) == Nth(before, FrameFor(r, vp) * PAGE, o)
    {
      assert Nth(after, at, d * PAGE + o) == Nth(before, r.pa, d * PAGE + o);
    }
  }

  lemma ForkedAll(m0: Mem, ram0: seq<Byte>, s: Space, m1: Mem, bs1: seq<B.Block>, m: Mem, ram: seq<Byte>,
                  c: Space, pa: nat, size: nat)
    requires SpaceOk(m0, s) && Separate(s.regions) && Kept(m0, m1, c.pd)
    requires Total(s.regions) <= size && pa % PAGE == 0
    requires Unclaimed(m1, bs1, |ram| / PAGE, pa / PAGE, size / PAGE)
    requires Shows(m, c.pd, c.regions) && ForkCopied(ram0, ram, s.regions, |s.regions|, pa)
    requires c == Space(c.pd, 0, ForkList(s.regions, pa), c.sz, s.eip, s.esp, s.files) && Separate(c.regions)
    ensures Forked(m0, ram0, s, m, ram, c)
  {
    hide Walk, Lookup, ForkList, Total, Separate, ForkCopied, AllOk, SamePage;
    forall vp: nat | vp < USER_PAGES
      ensures Walk(m.tables, c.pd, vp).Page? <==> Walk(m0.tables, s.pd, vp).Page?
      ensures Walk(m.tables, c.pd, vp).Page? ==> Walk(m.tables, c.pd, vp).frame !in m0.owner
    {
      ForkedPage(s.regions, pa, size, vp, ram0, ram);
    }
    forall a: nat | a < KERNEL_OFFSET
      ensures ReadByte(m, ram, c.pd, a) == ReadByte(m0, ram0, s.pd, a)
    {
      ForkedByte(m0, ram0, s, m, ram, c, pa, size, a);
    }
  }

  lemma ForkedByte(m0: Mem, ram0: seq<Byte>, s: Space, m: Mem, ram: seq<Byte>, c: Space, pa: nat, size: nat, a: nat)
    requires SpaceOk(m0, s) && Separate(s.regions)
    requires Total(s.regions) <= size && pa % PAGE == 0 && a < KERNEL_OFFSET
    requires Shows(m, c.pd, c.regions) && ForkCopied(ram0, ram, s.regions, |s.regions|, pa)
    requires c.regions == ForkList(s.regions, pa)
    ensures ReadByte(m, ram, c.pd, a) == ReadByte(m0, ram0, s.pd, a)
  {
    hide Walk, Lookup, ForkList, Total, Separate, ForkCopied, AllOk, OthersUntouched, RegionsOwned;
    var vp := a / PAGE;
    ForkedPage(s.regions, pa, size, vp, ram0, ram);
    assert Walk(m0.tables, s.pd, vp) == Lookup(s.regions, vp) && Walk(m.tables, c.pd, vp) == Lookup(c.regions, vp);
  }

  lemma PageOwned(m: Mem, s: Space, vp: nat)
    requires RegionsOwned(m, s.regions) && Lookup(s.regions, vp).Page?
    ensures Lookup(s.regions, vp).frame in m.owner
  {
    hide Lookup;
    LookupFound(s.regions, vp);
    var i :| 0 <= i < |s.regions| && InRegion(s.regions[i], vp) && Lookup(s.regions, vp) == Page(FrameFor(s.regions[i], vp), USER);
    assert FramesIn(m, s.regions[i]);
  }

  lemma OwnedPageSame(owner: map<nat, Owner>, before: seq<Byte>, after: seq<Byte>, f: nat, o: nat)
    requires OthersUntouched(owner, before, after) && f in owner && o < PAGE
    ensures Nth(after, f * PAGE, o) == Nth(before, f * PAGE, o)
  {
    assert (f * PAGE + o) / PAGE == f;
  }

  /** The bytes of `r`, if any, exist and lie outside the `n` bytes at `at`, which exist too. */
  ghost predicate CanCopy(r: Region, at: nat, n: nat, size: nat) {
    r.len > 0 && n > 0 ==> r.pa + r.len <= size && at + n <= size && (at + n <= r.pa || r.pa + r.len <= at)
  }

  ghost predicate AllCanCopy(rs: seq<Region>, pa: nat, n: nat, size: nat) {
    forall i :: 0 <= i < |rs| ==> CanCopy(rs[i], pa, n, size)
  }

  /** The first `k` regions are copied into the chunk at `pa`. */
  ghost predicate ForkCopied(before: seq<Byte>, after: seq<Byte>, rs: seq<Region>, k: nat, pa: nat) {
    forall i :: 0 <= i < k && i < |rs| ==> SameBytes(before, rs[i].pa, after, pa + Total(rs[..i]), rs[i].len)
  }

  lemma NothingForked(rs: seq<Region>, pa: nat, ram: seq<Byte>, size: nat)
    ensures ForkList(rs[..0], pa) == [] && Total(rs[..0]) == 0
    ensures ForkCopied(ram, ram, rs, 0, pa) && SameOutside(ram, ram, pa, pa + size)
  {
  }

  /** Region `k` fits the rest of the chunk and can be copied there. */
  lemma NextFork(rs: seq<Region>, k: nat, pa: nat, size: nat, ram: nat)
    requires k < |rs| && AllOk(rs) && Total(rs) <= size && AllCanCopy(rs, pa, size, ram) && pa + size <= KERNEL_OFFSET
    ensures var r, at := rs[k], pa + Total(rs[..k]);
      && RegionOk(r) && r.len % PAGE == 0 && PgUp(r.len) == r.len && CanCopy(r, at, r.len, ram)
      && Total(rs[..k + 1]) == Total(rs[..k]) + r.len && Total(rs[..k + 1]) <= size
      && ForkList(rs[..k + 1], pa) == [Region(r.va, at, r.len)] + ForkList(rs[..k], pa)
  {
    hide Total;
    TotalPrefix(rs, k);
    assert rs[..k + 1][..k] == rs[..k] && RegionOk(rs[k]) && CanCopy(rs[k], pa, size, ram);
  }

  lemma ForkCopiedMore(before: seq<Byte>, mid: seq<Byte>, after: seq<Byte>, rs: seq<Region>, k: nat, pa: nat, size: nat)
    requires k < |rs| && Total(rs) <= size && AllCanCopy(rs, pa, size, |before|)
    requires ForkCopied(before, mid, rs, k, pa) && SameOutside(before, mid, pa, pa + size)
    requires SameOutside(mid, after, pa + Total(rs[..k]), pa + Total(rs[..k]) + rs[k].len)
    requires SameBytes(mid, rs[k].pa, after, pa + Total(rs[..k]), rs[k].len)
    ensures ForkCopied(before, after, rs, k + 1, pa)
  {
    hide SameBytes, Total, SameOutside;
    var lo := pa + Total(rs[..k]);
    forall i | 0 <= i < k + 1
      ensures SameBytes(before, rs[i].pa, after, pa + Total(rs[..i]), rs[i].len)
    {
      if i < k {
        TotalPrefix(rs[..k], i);
        assert rs[..k][..i] == rs[..i];
        CopyStays(before, mid, after, rs[i].pa, pa + Total(rs[..i]), rs[i].len, lo, lo + rs[k].len);
      } else {
        TotalPrefix(rs, k);
        assert CanCopy(rs[k], pa, size, |before|);
        CopyOfOriginal(before, mid, after, rs[k].pa, lo, rs[k].len, pa, pa + size);
      }
    }
  }

  lemma CopyStays(before: seq<Byte>, mid: seq<Byte>, after: seq<Byte>, src: nat, dst: nat, n: nat, lo: nat, hi: nat)
    requires SameBytes(before, src, mid, dst, n) && SameOutside(mid, after, lo, hi) && dst + n <= lo
    ensures SameBytes(before, src, after, dst, n)
  {
    forall x | 0 <= x < n
      ensures Nth(after, dst, x) == Nth(before, src, x)
    {
      assert Nth(mid, dst, x) == Nth(before, src, x);
    }
  }

  lemma CopyOfOriginal(before: seq<Byte>, mid: seq<Byte>, after: seq<Byte>, src: nat, dst: nat, n: nat, lo: nat, hi: nat)
    requires SameBytes(mid, src, after, dst, n) && SameOutside(before, mid, lo, hi)
    requires n > 0 ==> src + n <= lo || hi <= src
    ensures SameBytes(before, src, after, dst, n)
  {
    forall x | 0 <= x < n
      ensures Nth(after, dst, x) == Nth(before, src, x)
    {
      assert Nth(after, dst, x) == Nth(mid, src, x);
    }
  }

  /** Byte `x` of the range at `base`. */
  ghost function Nth(s: seq<Byte>, base: nat, x: nat): int {
    if base + x < |s| then s[base + x] else -1
  }

  /** `n` bytes at `dst` in `after` are those at `src` in `before`. */
  ghost predicate SameBytes(before: seq<Byte>, src: nat, after: seq<Byte>, dst: nat, n: nat) {
    (n > 0 ==> src + n <= |before| && dst + n <= |after|) && forall x :: 0 <= x < n ==> Nth(after, dst, x) == Nth(before, src, x)
  }

  lemma CopyResult(s: seq<Byte>, dst: nat, src: nat, n: nat)
    requires n > 0 ==> dst + n <= |s| && src + n <= |s| && (dst + n <= src || src + n <= dst)
    ensures var r := if n == 0 then s else Moved(s, dst, src, n);
      SameOutside(s, r, dst, dst + n) && SameBytes(s, src, r, dst, n)
  {
    hide Moved, Copied;
    if n > 0 {
      MemmoveExact(|s|, dst, src, n);
      var r := Moved(s, dst, src, n);
      assert r == Copied(s, dst, src, n);
      CopiedSize(s, dst, src, n);
      forall x | 0 <= x < |s| && !(dst <= x < dst + n)
        ensures r[x] == s[x]
      {
        CopiedAt(s, dst, src, n, x);
      }
      forall x | 0 <= x < n
        ensures Nth(r, dst, x) == Nth(s, src, x)
      {
        CopiedAt(s, dst, src, n, dst + x);
      }
    }
  }

  lemma CopiedSize(s: seq<Byte>, dst: nat, src: nat, n: nat)
    requires dst + n <= |s| && src + n <= |s|
    ensures |Copied(s, dst, src, n)| == |s|
  {
  }

  lemma SpacesKept(m0: Mem, m: Mem, pd: nat, procs: map<nat, Space>)
    requires SpacesOk(m0, procs) && Kept(m0, m, pd) && pd !in m0.dirs
    ensures SpacesOk(m, procs)
  {
    hide Kept, Shows;
    forall p | p in procs
      ensures SpaceOk(m, procs[p])
    {
      assert SpaceOk(m0, procs[p]);
      SpaceKept(m0, m, pd, procs[p]);
    }
  }

  /** The chunk is page-aligned, holds the image and the stack, and lies in the lower half. */
  lemma ChunkFacts(ls: seq<Segment>, mem: u32)
    requires GoodImage(ls) && mem % PAGE == 0 && KERNEL_OFFSET <= mem
    requires mem + PgUp(ChunkSize(MinStart(ls), MaxEnd(ls))) <= U32
    ensures var pa, sz := V2P(mem), ChunkSize(MinStart(ls), MaxEnd(ls));
      && pa % PAGE == 0 && sz % PAGE == 0 && PgUp(sz) == sz && pa + sz <= KERNEL_OFFSET
      && ChunkAt(ls) + STACK_SIZE <= sz && ChunkAt(ls) % PAGE == 0
  {
    hide *;
    ImageFits(ls);
    ChunkSizeAligned(MinStart(ls), MaxEnd(ls));
    ChunkBounds(mem, ChunkSize(MinStart(ls), MaxEnd(ls)));
  }

  lemma OutsideIsOther(owner: map<nat, Owner>, before: seq<Byte>, after: seq<Byte>, pa: nat, n: nat)
    requires SameOutside(before, after, pa, pa + n) && forall x :: pa <= x < pa + n ==> x / PAGE !in owner
    ensures OthersUntouched(owner, before, after)
  {
  }

  lemma ElfRegionsIs(ls: seq<Segment>, pa: nat)
    ensures ElfRegions(ls, pa) == [Region(KERNEL_OFFSET - STACK_SIZE, pa + ChunkAt(ls), STACK_SIZE)] + SegRegions(ls, pa)
  {
  }

  lemma ChunkSizeAligned(min: u32, max: u32)
    ensures ChunkSize(min, max) % PAGE == 0 && PgUp(ChunkSize(min, max)) == ChunkSize(min, max)
  {
  }

  lemma Zeroed(before: seq<Byte>, after: seq<Byte>, pa: nat, n: nat)
    requires |after| == |before| && forall i :: 0 <= i < |before| ==> after[i] == if pa <= i < pa + n then 0 else before[i]
    ensures ZeroBytes(after, pa, pa + n) && SameOutside(before, after, pa, pa + n)
  {
  }

  /** A directory just built brings no owner that was there before to harm. */
  lemma FewerOthers(m0: Mem, m: Mem, pd: nat, before: seq<Byte>, after: seq<Byte>)
    requires Kept(m0, m, pd) && OthersUntouched(m.owner, before, after)
    ensures OthersUntouched(m0.owner, before, after)
  {
  }

  /** Everything the loader promises of the finished address space. */
  lemma LoadedSpace(m: Mem, ram: seq<Byte>, s: Space, img: Image, pa: nat)
    requires var ls := Loads(img.phs);
      && GoodImage(ls) && pa % PAGE == 0 && s.sz == ChunkSize(MinStart(ls), MaxEnd(ls)) && s.mmapBase == MaxEnd(ls)
      && pa + s.sz <= KERNEL_OFFSET && pa + s.sz <= |ram| && s.regions == ElfRegions(ls, pa)
      && AllPlaced(ram, ls, |ls|, pa, img.bytes) && ZeroBytes(ram, pa + ChunkAt(ls), pa + s.sz)
    requires s.pd in m.dirs && Shows(m, s.pd, s.regions) && RegionsOwned(m, s.regions)
    requires |s.files| <= MAXFILES + 1 && Present(m, s.pd) == TablesOf(s.regions)
    requires s.eip == img.entry && s.esp == KERNEL_OFFSET
    ensures SpaceOk(m, s) && Loaded(m, ram, s, img)
  {
    hide GoodImage, ChunkAt, ElfRegions, Shows, AllPlaced, ZeroBytes, Loads, MinStart, MaxEnd, ChunkSize, ReadByte, RegionsOwned,
      Present, TablesOf;
    var ls := Loads(img.phs);
    ImageFits(ls);
    ElfRegionsShape(ls, pa);
    forall k, j | 0 <= k < |ls| && 0 <= j < ls[k].memsz
      ensures ReadByte(m, ram, s.pd, ByteAddress(ls[k], j)) == Content(ls[k], img.bytes, j)
    {
      SegmentReadsBack(m, ram, s.pd, ls, img.bytes, pa, k, j);
    }
    forall a | MMAP_LIMIT <= a < KERNEL_OFFSET
      ensures ReadByte(m, ram, s.pd, a) == 0
    {
      StackReadsBack(m, ram, s.pd, ls, pa, a, pa + s.sz);
    }
  }

  /** What the loader reads of a file. */
  datatype Image = Image(magic: u32, entry: u32, phs: Headers, bytes: seq<Byte>)

  /** What the loader asks `kmalloc` for: a node for each segment and one for the stack. */
  ghost function NodesSize(img: Image): u32 {
    NODE * (|Loads(img.phs)| + 1) % U32
  }

  /** The page list after loading, from the chunk on. */
  ghost function FilledPages(bs: seq<B.Block>, img: Image): seq<B.Block> {
    Drawn(P.AllocatedRest(bs, ImageSize(img)), |TablesOf(ElfRegions(Loads(img.phs), 0))|)
  }

  /** From the chunk on, loading stops the kernel: no chunk, no nodes (256 or more never fit), or not all the tables. */
  ghost predicate FillStops(bs: seq<B.Block>, hs: seq<B.Block>, img: Image) {
    || NoBlock(bs, ImageSize(img))
    || !Allots(hs, NodesSize(img))
    || !CanDraw(P.AllocatedRest(bs, ImageSize(img)), |TablesOf(ElfRegions(Loads(img.phs), 0))|)
  }

  /** Loading stops the kernel: the magic is right, and no directory is to be had, or the headers pass and the rest stops it. */
  ghost predicate LoadStops(bs: seq<B.Block>, hs: seq<B.Block>, img: Image) {
    img.magic == ELFMAGIC && (!CanDraw(bs, 1) || (!Refused(img.phs) && FillStops(Drawn(bs, 1), hs, img)))
  }

  lemma LoadsFewer(phs: seq<Segment>)
    ensures |Loads(phs)| <= |phs|
  {
    LoadsPrefix(phs, 0);
    LoadsCount(phs);
  }

  lemma {:induction false} LoadsCount(phs: seq<Segment>)
    ensures |Loads(phs)| <= |phs|
  {
    if phs != [] {
      LoadsCount(phs[..|phs| - 1]);
      LoadsSnoc(phs, |phs| - 1);
      assert phs[..|phs| - 1 + 1] == phs;
    }
  }

  lemma FilesKnown(m: Mem, procs: map<nat, Space>, pid: nat)
    requires SpacesOk(m, procs) && pid in procs
    ensures |procs[pid].files| <= MAXFILES + 1
  {
    hide Shows, RegionsOwned, AllOk, Present, TablesOf;
    assert SpaceOk(m, procs[pid]);
  }

  /** The chunk the loader asks for. */
  ghost function ImageSize(img: Image): nat {
    ChunkSize(MinStart(Loads(img.phs)), MaxEnd(Loads(img.phs)))
  }

  ghost predicate Accepted(img: Image) {
    img.magic == ELFMAGIC && !Refused(img.phs)
  }

  /** The byte at user address `a`, read through the page walk; minus one where nothing is mapped. */
  ghost function ReadByte(m: Mem, ram: seq<Byte>, pd: nat, a: nat): int {
    match Walk(m.tables, pd, a / PAGE)
    case NotMapped => -1
    case Page(f, flags) => Nth(ram, f * PAGE, a % PAGE)
  }

  ghost function ByteAddress(s: Segment, j: nat): nat {
    s.va + j
  }

  /** Byte `j` of a segment in memory. */
  ghost function Content(s: Segment, bytes: seq<Byte>, j: nat): Byte {
    if j < s.filesz && s.off + j < |bytes| then bytes[s.off + j] else 0
  }

  /** The segments read back as the file's bytes followed by zeros, and the stack as zeros. */
  ghost predicate ReadsAs(m: Mem, ram: seq<Byte>, pd: nat, ls: seq<Segment>, bytes: seq<Byte>) {
    && (forall k, j :: 0 <= k < |ls| && 0 <= j < ls[k].memsz ==> ReadByte(m, ram, pd, ByteAddress(ls[k], j)) == Content(ls[k], bytes, j))
    && (forall a :: MMAP_LIMIT <= a < KERNEL_OFFSET ==> ReadByte(m, ram, pd, a) == 0)
  }

  /** A loaded program: its memory, its shape, the size on record, and where it starts. */
  ghost predicate Loaded(m: Mem, ram: seq<Byte>, s: Space, img: Image) {
    var ls := Loads(img.phs);
    && ReadsAs(m, ram, s.pd, ls, img.bytes)
    && SpaceShape(s.regions, s.mmapBase) && s.mmapBase == MaxEnd(ls)
    && s.sz == ChunkSize(MinStart(ls), MaxEnd(ls)) && Total(s.regions) <= s.sz
    && s.eip == img.entry && s.esp == KERNEL_OFFSET
  }

  /**
    In a loaded program every address of every loadable segment reads as the file's byte at the segment's offset, as
    zero behind the segment's bytes in the file; the page below the kernel half reads as zeros.
   */
  lemma LoadedReads(m: Mem, ram: seq<Byte>, s: Space, img: Image, i: nat, j: nat, a: nat)
    requires Loaded(m, ram, s, img) && FileHolds(Loads(img.phs), img.bytes)
    ensures i < |img.phs| && img.phs[i].ptype == 1 && j < img.phs[i].memsz && img.phs[i].filesz <= img.phs[i].memsz ==>
      if j < img.phs[i].filesz then
        img.phs[i].off + j < |img.bytes| && ReadByte(m, ram, s.pd, img.phs[i].va + j) == img.bytes[img.phs[i].off + j]
      else ReadByte(m, ram, s.pd, img.phs[i].va + j) == 0
    ensures 0x7FFF_F000 <= a < 0x8000_0000 ==> ReadByte(m, ram, s.pd, a) == 0
  {
    hide ReadByte, Loads, SpaceShape, Total;
    if i < |img.phs| && img.phs[i].ptype == 1 && j < img.phs[i].memsz {
      LoadsPrefix(img.phs, i);
      var k := |Loads(img.phs[..i])|;
      assert Loads(img.phs)[k] == img.phs[i];
      assert ReadByte(m, ram, s.pd, ByteAddress(Loads(img.phs)[k], j)) == Content(Loads(img.phs)[k], img.bytes, j);
    }
  }

  lemma SegmentReadsBack(m: Mem, ram: seq<Byte>, pd: nat, ls: seq<Segment>, bytes: seq<Byte>, pa: nat, k: nat, j: nat)
    requires GoodImage(ls) && pa % PAGE == 0 && pa + ChunkAt(ls) + STACK_SIZE <= KERNEL_OFFSET
    requires Shows(m, pd, ElfRegions(ls, pa)) && AllPlaced(ram, ls, |ls|, pa, bytes)
    requires k < |ls| && j < ls[k].memsz
    ensures ReadByte(m, ram, pd, ByteAddress(ls[k], j)) == Content(ls[k], bytes, j)
  {
    hide GoodImage, ChunkAt, ElfRegions, Lookup, Walk, MaxEnd, GoodSegment, Advance;
    SegmentByte(ls, pa, k, j);
    EndBelow(ls, k);
    SegmentExtent(ls[k], j);
    assert SegmentBytes(ram, pa + ChunkAt(ls[..k]), ls[k], bytes);
    var x := ls[k].va % PAGE + j;
    assert ram[pa + ChunkAt(ls[..k]) + x] == FileByte(ls[k], bytes, x);
  }

  lemma SegmentExtent(s: Segment, j: nat)
    requires GoodSegment(s) && j < s.memsz
    ensures s.va % PAGE + j < Advance(s) && s.filesz <= s.memsz
  {
  }

  lemma StackReadsBack(m: Mem, ram: seq<Byte>, pd: nat, ls: seq<Segment>, pa: nat, a: nat, hi: nat)
    requires GoodImage(ls) && pa % PAGE == 0 && pa + ChunkAt(ls) + STACK_SIZE <= KERNEL_OFFSET
    requires Shows(m, pd, ElfRegions(ls, pa)) && ZeroBytes(ram, pa + ChunkAt(ls), hi) && pa + ChunkAt(ls) + STACK_SIZE <= hi <= |ram|
    requires MMAP_LIMIT <= a < KERNEL_OFFSET
    ensures ReadByte(m, ram, pd, a) == 0
  {
    hide GoodImage, ChunkAt, SegRegions, Walk, MaxEnd, Total, ChunkSize, Lookup;
    ElfRegionsShape(ls, pa);
    var rs, q := ElfRegions(ls, pa), pa + ChunkAt(ls);
    PrefixAligned(ls, |ls|);
    assert ls[..|ls|] == ls;
    assert a / PAGE == MMAP_LIMIT / PAGE && InRegion(rs[0], a / PAGE);
    LookupIn(rs, 0, a / PAGE);
    assert ReadByte(m, ram, pd, a) == ram[q + a % PAGE];
  }

  /** The image file has all the bytes its loadable segments name. */
  ghost predicate FileHolds(ls: seq<Segment>, bytes: seq<Byte>) {
    forall k :: 0 <= k < |ls| ==> ls[k].off + ls[k].filesz <= |bytes|
  }

  /** The first `k` segments are in the chunk at `pa`. */
  ghost predicate AllPlaced(ram: seq<Byte>, ls: seq<Segment>, k: nat, pa: nat, bytes: seq<Byte>) {
    forall q :: 0 <= q < k && q < |ls| ==> SegmentBytes(ram, pa + ChunkAt(ls[..q]), ls[q], bytes)
  }

  lemma KeptReflexive(m: Mem, pd: nat)
    requires m.kdir in m.tables
    ensures Kept(m, m, pd)
  {
  }

  lemma NothingPlaced(ls: seq<Segment>, phs: seq<Segment>, pa: nat, bytes: seq<Byte>, ram: seq<Byte>, size: nat)
    ensures Loads(phs[..0]) == [] && ls[..0] == [] && ChunkAt(ls[..0]) == 0 && SegRegions(ls[..0], pa) == []
    ensures AllPlaced(ram, ls, 0, pa, bytes) && SameOutside(ram, ram, pa, pa + size)
  {
  }

  // ---------- filling a chunk region by region

  /**
    Part of a chunk is mapped in `pd` as `regions`, `left` bytes from `at` on are still unclaimed, and no
    other directory changed since `m0`.
   */
  ghost predicate Stage(m0: Mem, m: Mem, bs0: seq<B.Block>, bs: seq<B.Block>, pd: nat, regions: seq<Region>,
                        frames: nat, at: nat, left: nat) {
    && m.dirs == m0.dirs && FewerFree(bs0, bs) && Shows(m, pd, regions) && RegionsOwned(m, regions) && Kept(m0, m, pd)
    && at % PAGE == 0 && left % PAGE == 0 && Unclaimed(m, bs, frames, at / PAGE, left / PAGE)
    && Present(m, pd) == TablesOf(regions) && CanDraw(bs0, |TablesOf(regions)|) && bs == Drawn(bs0, |TablesOf(regions)|)
  }

  lemma StageStart(m: Mem, bs: seq<B.Block>, pd: nat, frames: nat, at: nat, left: nat)
    requires Shows(m, pd, []) && Present(m, pd) == {} && m.kdir in m.tables
    requires at % PAGE == 0 && left % PAGE == 0 && Unclaimed(m, bs, frames, at / PAGE, left / PAGE)
    ensures Stage(m, m, bs, bs, pd, [], frames, at, left)
  {
    hide Shows, Unclaimed, Kept, Present, TablesOf, CanDraw, Drawn;
    KeptReflexive(m, pd);
    TablesCons(Region(0, 0, 0), []);
    DrawNone(bs);
  }

  /** A row of regions whose last one cannot get its tables needs more tables than there are pages for. */
  lemma StageFails(m0: Mem, m: Mem, bs0: seq<B.Block>, bs: seq<B.Block>, pd: nat, regions: seq<Region>,
                   frames: nat, at: nat, left: nat, r: Region)
    requires Stage(m0, m, bs0, bs, pd, regions, frames, at, left) && !CanDraw(bs, |Entries(r) - Present(m, pd)|)
    ensures !CanDraw(bs0, |TablesOf([r] + regions)|)
  {
    hide Shows, Unclaimed, Kept, Present, TablesOf, CanDraw, Drawn, Entries;
    TablesCons(r, regions);
    UnionSize(TablesOf(regions), Entries(r));
    DrawSplit(bs0, |TablesOf(regions)|, |Entries(r) - Present(m, pd)|);
  }

  lemma UnionSize(a: set<nat>, b: set<nat>)
    ensures |a + b| == |a| + |b - a|
  {
    assert a + b == a + (b - a);
  }

  /** More regions need more tables. */
  lemma TablesTooMany(bs: seq<B.Block>, rs: seq<Region>, all: seq<Region>)
    requires TablesOf(rs) <= TablesOf(all) && !CanDraw(bs, |TablesOf(rs)|)
    ensures !CanDraw(bs, |TablesOf(all)|)
  {
    hide TablesOf;
    SubsetSize(TablesOf(rs), TablesOf(all));
    if CanDraw(bs, |TablesOf(all)|) {
      DrawFewer(bs, |TablesOf(rs)|, |TablesOf(all)|);
    }
  }

  lemma {:induction false} SegTablesGrow(ls: seq<Segment>, k: nat, pa: nat)
    requires k <= |ls|
    ensures TablesOf(SegRegions(ls[..k], pa)) <= TablesOf(SegRegions(ls, pa))
    decreases |ls|
  {
    hide TablesOf;
    if k == |ls| {
      assert ls[..k] == ls;
    } else {
      var front := ls[..|ls| - 1];
      assert front[..k] == ls[..k];
      SegTablesGrow(front, k, pa);
      TablesCons(SegRegion(ls[|ls| - 1], pa + ChunkAt(front)), SegRegions(front, pa));
    }
  }

  lemma {:induction false} SegTablesAnywhere(ls: seq<Segment>, pa: nat)
    ensures TablesOf(SegRegions(ls, pa)) == TablesOf(SegRegions(ls, 0))
  {
    hide TablesOf, ChunkAt;
    if ls != [] {
      var front, last := ls[..|ls| - 1], ls[|ls| - 1];
      SegTablesAnywhere(front, pa);
      TablesCons(SegRegion(last, pa + ChunkAt(front)), SegRegions(front, pa));
      TablesCons(SegRegion(last, 0 + ChunkAt(front)), SegRegions(front, 0));
    }
  }

  /** The tables a program needs do not depend on where its chunk is. */
  lemma ElfTables(ls: seq<Segment>, pa: nat)
    ensures TablesOf(ElfRegions(ls, pa)) == TablesOf(ElfRegions(ls, 0))
  {
    hide TablesOf, SegRegions, ChunkAt;
    SegTablesAnywhere(ls, pa);
    TablesCons(StackRegion(pa + ChunkAt(ls)), SegRegions(ls, pa));
    TablesCons(StackRegion(0 + ChunkAt(ls)), SegRegions(ls, 0));
  }

  lemma {:induction false} ForkTables(rs: seq<Region>, pa: nat)
    ensures TablesOf(ForkList(rs, pa)) == TablesOf(rs)
  {
    hide Total;
    if rs != [] {
      var front, last := rs[..|rs| - 1], rs[|rs| - 1];
      ForkTables(front, pa);
      TablesCons(Region(last.va, pa + Total(front), last.len), ForkList(front, pa));
      TablesSnoc(front, last);
      assert rs == front + [last];
    }
  }

  lemma TablesSnoc(rs: seq<Region>, r: Region)
    ensures TablesOf(rs + [r]) == TablesOf(rs) + Entries(r)
  {
    var l := rs + [r];
    forall i: nat
      ensures TouchedBySome(l, i) <==> TouchedBySome(rs, i) || Touched(i, FirstPage(r), Count(r))
    {
      if TouchedBySome(rs, i) {
        var k :| 0 <= k < |rs| && Touched(i, FirstPage(rs[k]), Count(rs[k]));
        assert l[k] == rs[k];
      }
      if Touched(i, FirstPage(r), Count(r)) {
        assert l[|rs|] == r;
      }
    }
  }

  /** The last region of a chunk: where the tables stand afterwards. */
  lemma StageDone(m0: Mem, m: Mem, m': Mem, bs0: seq<B.Block>, bs: seq<B.Block>, bs': seq<B.Block>, pd: nat,
                  regions: seq<Region>, frames: nat, at: nat, left: nat, r: Region)
    requires Stage(m0, m, bs0, bs, pd, regions, frames, at, left) && Present(m', pd) == Present(m, pd) + Entries(r)
    requires CanDraw(bs, |Entries(r) - Present(m, pd)|) && bs' == Drawn(bs, |Entries(r) - Present(m, pd)|)
    ensures Present(m', pd) == TablesOf([r] + regions)
    ensures CanDraw(bs0, |TablesOf([r] + regions)|) && bs' == Drawn(bs0, |TablesOf([r] + regions)|)
  {
    hide Shows, Unclaimed, Kept, Present, TablesOf, CanDraw, Drawn, Entries, RegionsOwned, FewerFree;
    TablesCons(r, regions);
    UnionSize(TablesOf(regions), Entries(r));
    DrawSplit(bs0, |TablesOf(regions)|, |Entries(r) - Present(m, pd)|);
  }

  lemma StackIsFront(ls: seq<Segment>, pa: nat)
    ensures TablesOf(SegRegions(ls, pa)) <= TablesOf(ElfRegions(ls, pa))
  {
    hide TablesOf, SegRegions, ChunkAt;
    TablesCons(StackRegion(pa + ChunkAt(ls)), SegRegions(ls, pa));
  }

  lemma StageUse(m0: Mem, m: Mem, bs0: seq<B.Block>, bs: seq<B.Block>, pd: nat, regions: seq<Region>,
                 frames: nat, at: nat, left: nat, len: nat)
    requires Stage(m0, m, bs0, bs, pd, regions, frames, at, left) && len <= left
    ensures Shows(m, pd, regions) && Unclaimed(m, bs, frames, at / PAGE, len / PAGE) && at % PAGE == 0
    ensures Kept(m0, m, pd) && RegionsOwned(m, regions) && m.dirs == m0.dirs && FewerFree(bs0, bs)
  {
    hide Shows, Unclaimed, Kept, RegionsOwned, FewerFree, Present, TablesOf, CanDraw, Drawn;
    StartUnclaimed(m, bs, frames, at, left, len);
  }

  /** One more region at `at`. */
  lemma StageNext(m0: Mem, m: Mem, m': Mem, bs0: seq<B.Block>, bs: seq<B.Block>, bs': seq<B.Block>, pd: nat,
                  regions: seq<Region>, frames: nat, at: nat, left: nat, r: Region)
    requires Stage(m0, m, bs0, bs, pd, regions, frames, at, left)
    requires r.pa == at && r.len % PAGE == 0 && r.len <= left
    requires m'.dirs == m.dirs && FewerFree(bs, bs') && Shows(m', pd, [r] + regions) && Kept(m, m', pd) && FramesIn(m', r)
    requires TakenFrom(m, m', bs, at / PAGE, r.len / PAGE)
    requires Present(m', pd) == Present(m, pd) + Entries(r)
    requires CanDraw(bs, |Entries(r) - Present(m, pd)|) && bs' == Drawn(bs, |Entries(r) - Present(m, pd)|)
    ensures Stage(m0, m', bs0, bs', pd, [r] + regions, frames, at + r.len, left - r.len)
  {
    hide Shows, Unclaimed, Kept, FramesIn, TakenFrom, RegionsOwned, Present, TablesOf, CanDraw, Drawn, Entries;
    TablesCons(r, regions);
    UnionSize(TablesOf(regions), Entries(r));
    DrawSplit(bs0, |TablesOf(regions)|, |Entries(r) - Present(m, pd)|);
    KeptTransitive(m0, m, m', pd);
    RestUnclaimed(m, m', bs, bs', frames, at, left, r.len);
    RegionsOwnedCons(m, m', pd, r, regions);
  }

  /** Segment `k` is good, its place is page-aligned, and the stack still fits after it. */
  lemma NextSegment(ls: seq<Segment>, k: nat, pa: nat, size: nat, bytes: seq<Byte>)
    requires GoodImage(ls) && FileHolds(ls, bytes) && k < |ls| && ChunkAt(ls) + STACK_SIZE <= size
    ensures GoodSegment(ls[k]) && ls[k].off + ls[k].filesz <= |bytes| && Advance(ls[k]) % PAGE == 0
    ensures ChunkAt(ls[..k + 1]) == ChunkAt(ls[..k]) + Advance(ls[k]) && ChunkAt(ls[..k + 1]) + STACK_SIZE <= size
    ensures SegRegions(ls[..k + 1], pa) == [SegRegion(ls[k], pa + ChunkAt(ls[..k]))] + SegRegions(ls[..k], pa)
    ensures forall at :: SegRegion(ls[k], at) == Region(ls[k].va, at, MappedLen(ls[k])) && MappedLen(ls[k]) == Advance(ls[k])
  {
    hide Advance, MappedLen, GoodSegment, ChunkAt;
    ChunkStep(ls, k);
    ChunkMonotone(ls, k + 1, |ls|);
    assert ls[..|ls|] == ls && ls[..k + 1][..k] == ls[..k];
    AdvanceAligned(ls[k]);
    SegmentBounds(ls[k]);
  }

  lemma UnclaimedPart(m: Mem, bs: seq<B.Block>, frames: nat, lo: nat, n: nat, lo': nat, n': nat)
    requires Unclaimed(m, bs, frames, lo, n) && lo <= lo' && lo' + n' <= lo + n
    ensures Unclaimed(m, bs, frames, lo', n')
  {
    hide FreeFrame;
  }

  lemma StartUnclaimed(m: Mem, bs: seq<B.Block>, frames: nat, at: nat, n: nat, len: nat)
    requires at % PAGE == 0 && n % PAGE == 0 && len <= n && Unclaimed(m, bs, frames, at / PAGE, n / PAGE)
    ensures Unclaimed(m, bs, frames, at / PAGE, len / PAGE)
  {
    hide Unclaimed;
    UnclaimedPart(m, bs, frames, at / PAGE, n / PAGE, at / PAGE, len / PAGE);
  }

  lemma RestUnclaimed(m: Mem, m': Mem, bs: seq<B.Block>, bs': seq<B.Block>, frames: nat, at: nat, n: nat, len: nat)
    requires at % PAGE == 0 && n % PAGE == 0 && len % PAGE == 0 && len <= n
    requires Unclaimed(m, bs, frames, at / PAGE, n / PAGE)
    requires TakenFrom(m, m', bs, at / PAGE, len / PAGE) && FewerFree(bs, bs')
    ensures Unclaimed(m', bs', frames, (at + len) / PAGE, (n - len) / PAGE)
  {
    var lo, k := at / PAGE, len / PAGE;
    assert (at + len) / PAGE == lo + k && (n - len) / PAGE == n / PAGE - k;
    UnclaimedPart(m, bs, frames, lo, n / PAGE, lo + k, n / PAGE - k);
    StillUnclaimed(m, m', bs, bs', frames, lo + k, n / PAGE - k, lo, k);
  }

  lemma ZeroPart(ram: seq<Byte>, lo: nat, hi: nat, mid: nat)
    requires ZeroBytes(ram, lo, hi) && mid <= hi
    ensures ZeroBytes(ram, lo, mid)
  {
  }

  lemma RegionsOwnedCons(m0: Mem, m: Mem, pd: nat, r: Region, rs: seq<Region>)
    requires RegionsOwned(m0, rs) && Kept(m0, m, pd) && FramesIn(m, r)
    ensures RegionsOwned(m, [r] + rs)
  {
    var l := [r] + rs;
    forall i | 0 <= i < |l|
      ensures FramesIn(m, l[i])
    {
      if i > 0 {
        assert l[i] == rs[i - 1] && FramesIn(m0, rs[i - 1]);
      }
    }
  }

  lemma PlacedOneMore(before: seq<Byte>, after: seq<Byte>, ls: seq<Segment>, k: nat, pa: nat, bytes: seq<Byte>, hi: nat)
    requires k < |ls| && AllPlaced(before, ls, k, pa, bytes) && ZeroBytes(before, pa + ChunkAt(ls[..k]), hi)
    requires SegmentBytes(after, pa + ChunkAt(ls[..k]), ls[k], bytes)
    requires SameOutside(before, after, pa + ChunkAt(ls[..k]), pa + ChunkAt(ls[..k]) + Advance(ls[k]))
    ensures AllPlaced(after, ls, k + 1, pa, bytes)
    ensures ZeroBytes(after, pa + ChunkAt(ls[..k]) + Advance(ls[k]), hi)
  {
    hide Advance, ChunkAt, FileByte;
    forall q | 0 <= q < k
      ensures SegmentBytes(after, pa + ChunkAt(ls[..q]), ls[q], bytes)
    {
      assert SegmentBytes(before, pa + ChunkAt(ls[..q]), ls[q], bytes);
      ChunkStep(ls, q);
      ChunkMonotone(ls, q + 1, k);
    }
  }

  lemma OutsideGrows(a: seq<Byte>, b: seq<Byte>, c: seq<Byte>, lo: nat, hi: nat, lo': nat, hi': nat)
    requires SameOutside(a, b, lo, hi) && SameOutside(b, c, lo', hi') && lo <= lo' && hi' <= hi
    ensures SameOutside(a, c, lo, hi)
  {
  }

  lemma SegmentFacts(s: Segment, at: nat)
    requires GoodSegment(s)
    ensures s.va % PAGE + s.filesz <= MappedLen(s) == Advance(s) && s.va < KERNEL_OFFSET && Advance(s) % PAGE == 0
    ensures SegRegion(s, at) == Region(s.va, at, MappedLen(s)) && Count(SegRegion(s, at)) == Advance(s) / PAGE
  {
  }

  /** Byte `x` of a segment's pages: its content from the segment's offset in its first page on, else zero. */
  ghost function FileByte(s: Segment, bytes: seq<Byte>, x: nat): Byte {
    if s.va % PAGE <= x then Content(s, bytes, x - s.va % PAGE) else 0
  }

  ghost predicate SegmentBytes(ram: seq<Byte>, at: nat, s: Segment, bytes: seq<Byte>) {
    at + Advance(s) <= |ram| && forall x :: 0 <= x < Advance(s) ==> ram[at + x] == FileByte(s, bytes, x)
  }

  ghost predicate ZeroBytes(ram: seq<Byte>, lo: nat, hi: nat) {
    forall x :: lo <= x < hi && x < |ram| ==> ram[x] == 0
  }

  ghost predicate SameOutside(before: seq<Byte>, after: seq<Byte>, lo: nat, hi: nat) {
    |after| == |before| && forall x :: 0 <= x < |before| && !(lo <= x < hi) ==> after[x] == before[x]
  }

  lemma SpaceOf(m: Mem, procs: map<nat, Space>, pid: nat)
    requires SpacesOk(m, procs) && pid in procs
    ensures SpaceOk(m, procs[pid])
  {
  }

  /** A chunk that fits the kernel half is at most 2^31 bytes, so the granted sum never wrapped. */
  lemma MmapNoWrap(s: Space, len0: u32, page: u32)
    requires s.mmapBase % PAGE == 0 && s.mmapBase <= MMAP_LIMIT && MmapGranted(s.mmapBase, len0)
    requires KERNEL_OFFSET <= page && page % PAGE == 0 && page + PgUp(PgUp(len0)) <= U32
    ensures PgUp(PgUp(len0)) == PgUp(len0) && s.mmapBase + PgUp(len0) < MMAP_LIMIT
    ensures RegionOk(Region(s.mmapBase, V2P(page), PgUp(len0)))
    ensures V2P(page) + PgUp(len0) <= KERNEL_OFFSET
  {
  }

  /** Bytes of an unclaimed chunk exist, and belong to no owned frame. */
  lemma UnclaimedBytes(m: Mem, bs: seq<B.Block>, size: nat, pa: nat, len: nat)
    requires pa % PAGE == 0 && len % PAGE == 0 && size % PAGE == 0 && Unclaimed(m, bs, size / PAGE, pa / PAGE, len / PAGE)
    ensures len > 0 ==> pa + len <= size
    ensures forall x :: pa <= x < pa + len ==> x / PAGE !in m.owner
  {
    hide FreeFrame;
  }

  lemma SpaceGrown(m0: Mem, m: Mem, s: Space, s': Space)
    requires SpaceOk(m0, s) && s'.pd == s.pd && |s'.regions| > 0 && s'.regions[1..] == s.regions
    requires s'.mmapBase % PAGE == 0 && s'.mmapBase <= MMAP_LIMIT
    requires RegionOk(s'.regions[0]) && FramesIn(m, s'.regions[0]) && Shows(m, s.pd, s'.regions) && Kept(m0, m, s.pd)
    requires s'.files == s.files && Present(m, s.pd) == TablesOf(s'.regions)
    ensures SpaceOk(m, s')
  {
    hide Shows, Present, TablesOf;
    forall i | 0 <= i < |s'.regions|
      ensures RegionOk(s'.regions[i]) && FramesIn(m, s'.regions[i])
    {
      if i > 0 {
        assert s'.regions[i] == s.regions[i - 1];
        assert FramesIn(m0, s.regions[i - 1]);
      }
    }
  }

  /** A process gets a new address space on a directory no other process uses. */
  lemma SpaceReplaced(m0: Mem, m: Mem, procs: map<nat, Space>, pid: nat, s: Space)
    requires SpacesOk(m0, procs) && Kept(m0, m, s.pd) && SpaceOk(m, s)
    requires s.pd !in m0.dirs || (pid in procs && procs[pid].pd == s.pd)
    ensures SpacesOk(m, procs[pid := s])
  {
    hide Kept, Shows;
    forall p | p in procs && p != pid
      ensures procs[p].pd != s.pd && SpaceOk(m, procs[p])
    {
      assert SpaceOk(m0, procs[p]);
      SpaceKept(m0, m, s.pd, procs[p]);
    }
  }

  /** What a successful mapping of `len` bytes makes of an address space. */
  ghost predicate Mapped(s: Space, s': Space, len: nat, ram: seq<Byte>) {
    && |s'.regions| > 0 && s' == s.(mmapBase := s.mmapBase + len, regions := s'.regions)
    && s'.regions[1..] == s.regions
    && s'.regions[0].va == s.mmapBase && s'.regions[0].len == len
    && (forall x :: s'.regions[0].pa <= x < s'.regions[0].pa + len ==> x < |ram| && ram[x] == 0)
    && (SpaceShape(s.regions, s.mmapBase) ==> SpaceShape(s'.regions, s'.mmapBase))
  }

  lemma MmapShape(s: Space, r: Region)
    requires RegionOk(r) && r.va == s.mmapBase && s.mmapBase + r.len < MMAP_LIMIT
    ensures SpaceShape(s.regions, s.mmapBase) ==> SpaceShape([r] + s.regions, s.mmapBase + r.len)
  {
    if SpaceShape(s.regions, s.mmapBase) {
      MmapKeepsShape(s.regions, s.mmapBase, r.pa, r.len);
    }
  }

  lemma MmapMapped(s: Space, r: Region, ram: seq<Byte>)
    requires RegionOk(r) && r.va == s.mmapBase && s.mmapBase + r.len < MMAP_LIMIT
    requires (r.len > 0 ==> r.pa + r.len <= |ram|) && ZeroBytes(ram, r.pa, r.pa + r.len)
    ensures Mapped(s, s.(mmapBase := s.mmapBase + r.len, regions := [r] + s.regions), r.len, ram)
  {
    MmapShape(s, r);
    assert ([r] + s.regions)[1..] == s.regions;
  }

  /** The length check of `sys_mmap`, in 32-bit arithmetic. */
  predicate MmapGranted(base: nat, len: u32) {
    len != 0 && (base + PgUp(len)) % U32 < MMAP_LIMIT
  }

  /**
    Without a wrap the check grants exactly the requests that end at least a page below the limit; with one it grants
    what ends below the limit again.
   */
  lemma GrantedWhen(base: nat, len: u32)
    requires base % PAGE == 0 && base <= MMAP_LIMIT
    ensures base + PgUp(len) < U32 && PgUp(len) >= len ==> (MmapGranted(base, len) <==> 0 < len && base + len <= 0x7FFF_E000)
    ensures 0 < len && base + len <= 0x7FFF_E000 ==> MmapGranted(base, len) && base + PgUp(len) < MMAP_LIMIT
    ensures !(base + PgUp(len) < U32 && PgUp(len) >= len) ==> len > U32 - PAGE - base
    ensures !MmapGranted(base, 0)
  {
  }

  /** A granted mapping stops the kernel: no node, no chunk, or not every table it needs. */
  ghost predicate MmapStops(bs: seq<B.Block>, hs: seq<B.Block>, s: Space, len: u32) {
    || !Allots(hs, NODE)
    || NoBlock(bs, len)
    || !CanDraw(P.AllocatedRest(bs, len), |Needed(s.mmapBase / PAGE, len / PAGE) - TablesOf(s.regions)|)
  }

  lemma NodeNeed()
    ensures H.Need(NODE) != 0 && H.Need(FILE) != 0
  {
  }

  /** What a system call comes to: a value for the caller, or an access through NULL that stops the kernel. */
  datatype Outcome = Returned(value: int) | Fault

  /** Bytes of frames that had an owner are as before. */
  ghost predicate OthersUntouched(owner: map<nat, Owner>, before: seq<Byte>, after: seq<Byte>) {
    |after| == |before| && forall x :: 0 <= x < |before| && x / PAGE in owner ==> after[x] == before[x]
  }

  lemma RoundedRange(va: u32, pa: u32, len: u32)
    ensures PgDown(va) == PAGE * (va / PAGE) && PgDown(pa) == PAGE * (pa / PAGE) && PgUp(len) == PAGE * (PgUp(len) / PAGE)
  {
  }

  lemma RegionRounds(r: Region)
    requires RegionOk(r)
    ensures PgDown(r.va) == PAGE * FirstPage(r) && PgUp(r.len) == r.len == PAGE * Count(r) && PgDown(r.pa) == r.pa
    ensures PgDown(r.va) + PgUp(r.len) <= KERNEL_OFFSET
  {
  }

  /** The directory entry a user address selects, and what it points to. */
  lemma EntryFor(m: Mem, pd: nat, va: u32)
    requires Core(m) && pd in m.dirs && va < KERNEL_OFFSET
    ensures va / 0x40_0000 == va / PAGE / ENTRIES < USER_ENTRIES && va / PAGE < USER_PAGES
    ensures IsTable(m.tables, pd) && Owned(m, pd, Directory)
    ensures var e := m.tables[pd][va / PAGE / ENTRIES];
      e.flags.p ==> IsTable(m.tables, e.frame) && Owned(m, e.frame, TableOf(pd, va / PAGE / ENTRIES))
  {
    assert DirectoryOk(m, pd);
  }

  /** Where user address `a` is in memory, if its page is mapped. */
  ghost function PlaceOf(tables: Tables, pd: nat, a: nat): nat {
    match Walk(tables, pd, a / PAGE)
    case NotMapped => 0
    case Page(f, _) => f * PAGE + a % PAGE
  }

  /** The walk of a user address goes through a table of the directory's own. */
  lemma WalkSteps(m: Mem, pd: nat, a: u32)
    requires Core(m) && pd in m.dirs && a < KERNEL_OFFSET && IsTable(m.tables, pd) && a / 0x40_0000 == a / PAGE / ENTRIES
    ensures var e, w := m.tables[pd][a / 0x40_0000], Walk(m.tables, pd, a / PAGE);
      && (!e.flags.p ==> w == NotMapped)
      && (e.flags.p ==>
           IsTable(m.tables, e.frame) &&
           var t := m.tables[e.frame][a / PAGE % ENTRIES];
           if t.flags.p then w == Page(t.frame, USER) else w == NotMapped)
  {
    assert DirectoryOk(m, pd);
    var vp := a / PAGE;
    var w := Walk(m.tables, pd, vp);
    assert w.Page? ==> w.flags == USER;
  }

  lemma FrameExists(m: Mem, bs: seq<B.Block>, frames: nat, pd: nat, a: nat)
    requires Core(m) && pd in m.dirs && a < KERNEL_OFFSET && FramesOk(m, bs, frames) && Walk(m.tables, pd, a / PAGE).Page?
    ensures Walk(m.tables, pd, a / PAGE).frame < frames
  {
    hide Walk;
    assert DirectoryOk(m, pd);
  }

  lemma NotKernel(m: Mem, d: nat)
    requires Core(m) && d in m.dirs
    ensures d != m.kdir
  {
    assert DirectoryOk(m, d);
  }

  lemma OnePage()
    ensures PgUp(0x1000) == 0x1000
  {
  }

  lemma KernelTable(m: Mem)
    requires Core(m)
    ensures IsTable(m.tables, m.kdir)
  {
  }

  lemma AllocatedNone(bs: seq<B.Block>, sz: u32)
    requires P.AllWellFormed(bs) && P.AllocatedAt(bs, sz) == NULL
    ensures P.AllocatedRest(bs, sz) == bs
  {
    var k := B.FirstFit(bs, sz);
    if k < |bs| {
      assert P.WellFormed(bs[k]);
    }
  }
}
