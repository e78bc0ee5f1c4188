/**
  When the calls on address spaces come back: two free blocks longer than all they ask `alloc_pages` for are enough
  pages, and with nothing free each of them stops the kernel.
 */
module Enough {
  import opened Words
  import opened Regions
  import opened ElfLayout
  import opened Supplies
  import opened Devices
  import opened AddressSpaces
  import opened Paging
  import B = Blocks
  import P = PageAllocator
  import H = KernelHeap

  /** The list is in order, and at least two of its blocks are longer than `n` bytes. */
  ghost predicate TwoAbove(bs: seq<B.Block>, n: nat) {
    P.AllWellFormed(bs) && P.Disjoint(bs) && Long(bs, n + 1) >= 2
  }

  lemma TakeFrom(bs: seq<B.Block>, sz: u32, n: nat)
    requires TwoAbove(bs, PgUp(sz) + n) && sz <= PgUp(sz)
    ensures !NoBlock(bs, sz) && TwoAbove(P.AllocatedRest(bs, sz), n)
  {
    hide P.AllWellFormed, P.Disjoint, P.AllocatedAt, P.AllocatedRest, Long, NoBlock;
    TakeKeeps(bs, sz, PgUp(sz) + n + 1);
    NullWhenNone(bs, sz);
  }

  lemma DrawFrom(bs: seq<B.Block>, k: nat, n: nat)
    requires TwoAbove(bs, k * PAGE + n)
    ensures CanDraw(bs, k) && TwoAbove(Drawn(bs, k), n)
  {
    hide P.AllWellFormed, P.Disjoint, CanDraw, Drawn, Long;
    DrawKeeps(bs, k, k * PAGE + n + 1);
  }

  lemma Fewer(bs: seq<B.Block>, m: nat, n: nat)
    requires m <= n && TwoAbove(bs, n)
    ensures TwoAbove(bs, m)
  {
    hide P.AllWellFormed, P.Disjoint, Long;
    LongFewer(bs, m + 1, n + 1);
  }

  /** `sys_mmap` comes back with a chunk and as many tables as the new pages need. */
  lemma MapReturns(bs: seq<B.Block>, hs: seq<B.Block>, s: Space, len: u32)
    requires len % PAGE == 0 && Allots(hs, NODE)
    requires TwoAbove(bs, len + PAGE * |Needed(s.mmapBase / PAGE, len / PAGE) - TablesOf(s.regions)|)
    ensures !MmapStops(bs, hs, s, len)
  {
    hide TwoAbove, NoBlock, CanDraw, P.AllocatedRest, Needed, TablesOf, Allots;
    var k := |Needed(s.mmapBase / PAGE, len / PAGE) - TablesOf(s.regions)|;
    assert PgUp(len) == len;
    Fewer(bs, PgUp(len) + k * PAGE, len + PAGE * k);
    TakeFrom(bs, len, k * PAGE);
    DrawFrom(P.AllocatedRest(bs, len), k, 0);
  }

  /** Bytes of pages that loading an image takes: directory, chunk and tables. */
  ghost function LoadBytes(img: Image): nat {
    PAGE + ImageSize(img) + PAGE * |TablesOf(ElfRegions(Loads(img.phs), 0))|
  }

  lemma LoadLeaves(bs: seq<B.Block>, hs: seq<B.Block>, img: Image, n: nat)
    requires TwoAbove(bs, LoadBytes(img) + n) && Allots(hs, NodesSize(img))
    ensures !LoadStops(bs, hs, img) && TwoAbove(FilledPages(Drawn(bs, 1), img), n)
  {
    hide TwoAbove, NoBlock, CanDraw, Drawn, P.AllocatedRest, ElfRegions, TablesOf, Allots, NodesSize, ImageSize, Refused;
    var k := |TablesOf(ElfRegions(Loads(img.phs), 0))|;
    SizeAligned(img);
    Fewer(bs, 1 * PAGE + (ImageSize(img) + k * PAGE + n), LoadBytes(img) + n);
    DrawFrom(bs, 1, ImageSize(img) + k * PAGE + n);
    var b1 := Drawn(bs, 1);
    Fewer(b1, PgUp(ImageSize(img)) + (k * PAGE + n), ImageSize(img) + k * PAGE + n);
    TakeFrom(b1, ImageSize(img), k * PAGE + n);
    DrawFrom(P.AllocatedRest(b1, ImageSize(img)), k, n);
  }

  lemma SizeAligned(img: Image)
    ensures ImageSize(img) < U32 && PgUp(ImageSize(img)) == ImageSize(img)
  {
    hide Loads, MinStart, MaxEnd;
  }

  /** `sys_execve` comes back. */
  lemma LoadReturns(bs: seq<B.Block>, hs: seq<B.Block>, img: Image)
    requires TwoAbove(bs, LoadBytes(img)) && Allots(hs, NodesSize(img))
    ensures !LoadStops(bs, hs, img)
  {
    hide TwoAbove, LoadBytes, LoadStops, Allots, NodesSize;
    LoadLeaves(bs, hs, img, 0);
  }

  /** `sys_fork` comes back with a child: a kernel stack, the chunk, a directory, the tables, and nodes for regions and files. */
  lemma ForkReturns(bs: seq<B.Block>, hs: seq<B.Block>, s: Space)
    requires s.sz <= PgUp(s.sz) && TwoAbove(bs, 0x1000 + PgUp(s.sz) + PAGE * (1 + |TablesOf(s.regions)|))
    requires AllotsAll(hs, 16, |s.regions|) && AllotsAll(AllottedAll(hs, 16, |s.regions|), 12, |s.files|)
    ensures !ForkStops(bs, hs, s) && !ForkRefused(bs, s)
  {
    hide TwoAbove, NoBlock, CanDraw, P.AllocatedRest, TablesOf, AllotsAll, AllottedAll;
    var k := 1 + |TablesOf(s.regions)|;
    OnePage();
    Fewer(bs, PgUp(0x1000) + (PgUp(s.sz) + k * PAGE), 0x1000 + PgUp(s.sz) + PAGE * k);
    TakeFrom(bs, 0x1000, PgUp(s.sz) + k * PAGE);
    var b1 := P.AllocatedRest(bs, 0x1000);
    TakeFrom(b1, s.sz, k * PAGE);
    DrawFrom(P.AllocatedRest(b1, s.sz), k, 0);
  }

  /**
    `initsys` and `init_sched` come back when the image is accepted, two blocks are longer than what it takes and five
    pages, and the heap is one block with room for its nodes and three consoles.
   */
  lemma BootReturns(bs: seq<B.Block>, addr: nat, len: nat, img: Image)
    requires Accepted(img) && TwoAbove(bs, LoadBytes(img) + 5 * 0x1000) && addr > 0
    requires |Loads(img.phs)| <= 254 && len >= H.Need(NodesSize(img)) + 240
    ensures !BootStops(bs, [B.Block(addr, len)], img, Major(0), Major(1))
  {
    hide TwoAbove, NoBlock, P.AllocatedRest, Allots, Allotted, NodesSize, LoadBytes, LoadStops, FilledPages, Drawn, Refused, Loads,
      OpensReturn, H.Need;
    var hs := [B.Block(addr, len)];
    OnePage();
    Fewer(bs, PgUp(0x1000) + (LoadBytes(img) + 4 * 0x1000), LoadBytes(img) + 5 * 0x1000);
    TakeFrom(bs, 0x1000, LoadBytes(img) + 4 * 0x1000);
    var b1 := P.AllocatedRest(bs, 0x1000);
    NodesFromOne(addr, len, img);
    LoadLeaves(b1, hs, img, 4 * 0x1000);
    ThreeConsoles(addr + H.Need(NodesSize(img)), len - H.Need(NodesSize(img)));
    ConsolePages(FilledPages(Drawn(b1, 1), img));
  }

  lemma NodesFromOne(addr: nat, len: nat, img: Image)
    requires addr > 0 && |Loads(img.phs)| <= 254 && len > H.Need(NodesSize(img))
    ensures Allots([B.Block(addr, len)], NodesSize(img))
    ensures Allotted([B.Block(addr, len)], NodesSize(img)) == [B.Block(addr + H.Need(NodesSize(img)), len - H.Need(NodesSize(img)))]
  {
    hide Loads, H.Need, H.MallocRest;
    NodesFit(|Loads(img.phs)| + 1);
    H.MallocPlace([B.Block(addr, len)], H.Need(NodesSize(img)), 0);
  }

  lemma ThreeConsoles(addr: nat, len: nat)
    requires addr > 0 && len >= 240
    ensures OpensReturn([B.Block(addr, len)], Major(0), Major(1), 3)
  {
    hide OpenReturns, NodesOpened;
    var node, hs := Major(0), [B.Block(addr, len)];
    OpenTakes(addr, len, 0, Major(1));
    OpenTakes(addr + 80, len - 80, 0, Major(1));
    OpenTakes(addr + 160, len - 160, 0, Major(1));
    assert NodesAfter(hs, node, 1) == NodesOpened(NodesAfter(hs, node, 0), node) == [B.Block(addr + 80, len - 80)];
    assert NodesAfter(hs, node, 2) == NodesOpened(NodesAfter(hs, node, 1), node) == [B.Block(addr + 160, len - 160)];
    assert OpensReturn(hs, node, Major(1), 1) && OpensReturn(hs, node, Major(1), 2);
  }

  lemma ConsolePages(bs: seq<B.Block>)
    requires TwoAbove(bs, 4 * 0x1000)
    ensures !NoBlock(PagesAfter(bs, Major(0), 3), 0x1000)
  {
    hide TwoAbove, NoBlock, P.AllocatedRest;
    OnePage();
    TakeFrom(bs, 0x1000, 3 * 0x1000);
    var b1 := P.AllocatedRest(bs, 0x1000);
    TakeFrom(b1, 0x1000, 2 * 0x1000);
    var b2 := P.AllocatedRest(b1, 0x1000);
    TakeFrom(b2, 0x1000, 0x1000);
    var b3 := P.AllocatedRest(b2, 0x1000);
    TakeFrom(b3, 0x1000, 0);
    assert PagesAfter(bs, Major(0), 1) == P.AllocatedRest(PagesAfter(bs, Major(0), 0), 0x1000) == b1;
    assert PagesAfter(bs, Major(0), 2) == b2 && PagesAfter(bs, Major(0), 3) == b3;
  }

  /** Without a free page, or without a free block in the kernel heap, every call that needs one stops the kernel. */
  lemma NothingLeft(bs: seq<B.Block>, hs: seq<B.Block>, s: Space, len: u32, img: Image, node: Node, fb: Node)
    ensures MmapStops([], hs, s, len) && MmapStops(bs, [], s, len)
    ensures img.magic == ELFMAGIC ==> LoadStops([], hs, img)
    ensures Accepted(img) ==> LoadStops(bs, [], img)
    ensures ForkStops([], hs, s) && BootStops([], hs, img, node, fb) && BootStops(bs, [], img, node, fb)
    ensures !ForkRefused(bs, s) && s.regions != [] ==> ForkStops(bs, [], s)
    ensures node != Absent ==> !OpenReturns([], node, fb)
  {
    hide CanDraw, TablesOf, ElfRegions, Loads, NodesSize, ImageSize, Needed, Refused;
    NothingDrawn();
    NothingAllotted(NODE);
    NothingAllotted(FILE);
    NothingAllotted(NodesSize(img));
  }

  lemma NothingDrawn()
    ensures !CanDraw([], 1)
  {
  }

  lemma NothingAllotted(n: u32)
    ensures !Allots([], n)
  {
  }
}
