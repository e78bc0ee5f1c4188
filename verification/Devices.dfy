/**
  What `sys_open` of kernel/fs.c and the two drivers it can reach (drivers/video/console/console.c,
  drivers/video/fbdev/fbdev.c) ask of the two allocators.
 */
module Devices {
  import opened Words
  import opened Supplies
  import B = Blocks
  import P = PageAllocator
  import H = KernelHeap

  /** What a path names: nothing, or an inode with this major number. Plain files of the ramdisk have major zero. */
  datatype Node = Absent | Major(n: nat)

  /** The drivers there are; their majors are 0 and 1. */
  datatype Device = Console | Framebuffer

  const CONSOLE := 0
  const FRAMEBUFFER := 1
  /** Sizes of a `struct file`, a `struct console` and a `struct fbdev`. */
  const FILE := 12
  const CONSOLE_SIZE := 8
  const FBDEV_SIZE := 28

  /**
    The driver's open can return. A console opens `/dev/fb` in turn: when that names nothing an assertion
    fails, and when it names a console the two open each other without end.
   */
  predicate Driven(node: Node, devfb: Node) {
    node == Major(FRAMEBUFFER) || (node == Major(CONSOLE) && devfb == Major(FRAMEBUFFER))
  }

  function DeviceOf(node: Node): Device {
    if node == Major(FRAMEBUFFER) then Framebuffer else Console
  }

  /** The requests to `kmalloc`: the file, and what its driver needs. */
  function OpenSizes(node: Node): seq<u32> {
    if node == Major(FRAMEBUFFER) then [FILE, FBDEV_SIZE] else [FILE, CONSOLE_SIZE, FILE, FBDEV_SIZE]
  }

  /** `sys_open` comes back when a descriptor is free. */
  ghost predicate OpenReturns(hs: seq<B.Block>, node: Node, devfb: Node) {
    node == Absent || (Driven(node, devfb) && AllotsRow(hs, OpenSizes(node)))
  }

  /** The kernel heap afterwards. */
  ghost function NodesOpened(hs: seq<B.Block>, node: Node): seq<B.Block> {
    if node == Absent then hs else AllottedRow(hs, OpenSizes(node))
  }

  /** The page list afterwards: a console takes a page for its buffer if there is one, and does not mind if there is none. */
  ghost function PagesOpened(bs: seq<B.Block>, node: Node): seq<B.Block> {
    if node == Major(CONSOLE) then P.AllocatedRest(bs, 0x1000) else bs
  }

  /** `k` opens in a row all come back. */
  ghost predicate OpensReturn(hs: seq<B.Block>, node: Node, devfb: Node, k: nat) {
    k == 0 || (OpensReturn(hs, node, devfb, k - 1) && OpenReturns(NodesAfter(hs, node, k - 1), node, devfb))
  }

  ghost function NodesAfter(hs: seq<B.Block>, node: Node, k: nat): seq<B.Block> {
    if k == 0 then hs else NodesOpened(NodesAfter(hs, node, k - 1), node)
  }

  /** The pointers to the file records of `k` opens in a row. */
  ghost function RecordsAfter(hs: seq<B.Block>, node: Node, k: nat): seq<int> {
    if k == 0 || node == Absent then [] else RecordsAfter(hs, node, k - 1) + [AllotAt(NodesAfter(hs, node, k - 1), FILE)]
  }

  function FilesAfter(node: Node, k: nat): seq<Device> {
    if k == 0 || node == Absent then [] else FilesAfter(node, k - 1) + [DeviceOf(node)]
  }

  ghost function PagesAfter(bs: seq<B.Block>, node: Node, k: nat): seq<B.Block> {
    if k == 0 then bs else PagesOpened(PagesAfter(bs, node, k - 1), node)
  }

  lemma NoneOpened(hs: seq<B.Block>, bs: seq<B.Block>)
    ensures NodesOpened(hs, Absent) == hs && PagesOpened(bs, Absent) == bs
  {
  }

  lemma OpensNever(hs: seq<B.Block>, node: Node, devfb: Node, m: nat, k: nat)
    requires !OpensReturn(hs, node, devfb, m) && m <= k
    ensures !OpensReturn(hs, node, devfb, k)
  {
  }

  /** An open takes from the kernel heap, and its file record comes first. */
  lemma OpenFresh(hs: seq<B.Block>, node: Node, devfb: Node)
    requires H.Canonical(hs) && OpenReturns(hs, node, devfb)
    ensures H.Canonical(NodesOpened(hs, node)) && H.Bytes(NodesOpened(hs, node)) <= H.Bytes(hs)
    ensures node != Absent ==> NewBlocks(hs, NodesOpened(hs, node), FILE, [AllotAt(hs, FILE)])
  {
    hide H.Canonical, H.Bytes, AllotsRow, AllottedRow, NewBlocks, AllotAt;
    DeviceNeeds();
    if node != Absent {
      RowFresh(hs, OpenSizes(node));
    }
  }

  lemma {:induction false} OpensFresh(hs: seq<B.Block>, node: Node, devfb: Node, k: nat)
    requires H.Canonical(hs) && OpensReturn(hs, node, devfb, k)
    ensures H.Canonical(NodesAfter(hs, node, k)) && H.Bytes(NodesAfter(hs, node, k)) <= H.Bytes(hs)
    ensures NewBlocks(hs, NodesAfter(hs, node, k), FILE, RecordsAfter(hs, node, k))
  {
    hide H.Canonical, H.Bytes, OpenReturns, NodesOpened, AllotAt, BytesBehind;
    if k > 0 {
      var now := NodesAfter(hs, node, k - 1);
      OpensFresh(hs, node, devfb, k - 1);
      OpenFresh(now, node, devfb);
      if node != Absent {
        BlocksAdded(hs, now, NodesOpened(now, node), FILE, RecordsAfter(hs, node, k - 1), [AllotAt(now, FILE)]);
      }
    }
  }

  /** One request after another. */
  lemma ConsoleRow(hs: seq<B.Block>)
    ensures AllotsRow(hs, [FILE, CONSOLE_SIZE, FILE, FBDEV_SIZE]) <==>
      && Allots(hs, FILE) && Allots(Allotted(hs, FILE), CONSOLE_SIZE)
      && Allots(Allotted(Allotted(hs, FILE), CONSOLE_SIZE), FILE)
      && Allots(Allotted(Allotted(Allotted(hs, FILE), CONSOLE_SIZE), FILE), FBDEV_SIZE)
    ensures AllottedRow(hs, [FILE, CONSOLE_SIZE, FILE, FBDEV_SIZE]) ==
      Allotted(Allotted(Allotted(Allotted(hs, FILE), CONSOLE_SIZE), FILE), FBDEV_SIZE)
  {
    hide Allots, Allotted;
    RowStep(hs, FILE, [CONSOLE_SIZE, FILE, FBDEV_SIZE]);
    var h1 := Allotted(hs, FILE);
    RowStep(h1, CONSOLE_SIZE, [FILE, FBDEV_SIZE]);
    FramebufferRow(Allotted(h1, CONSOLE_SIZE));
  }

  lemma FramebufferRow(hs: seq<B.Block>)
    ensures AllotsRow(hs, [FILE, FBDEV_SIZE]) <==> Allots(hs, FILE) && Allots(Allotted(hs, FILE), FBDEV_SIZE)
    ensures AllottedRow(hs, [FILE, FBDEV_SIZE]) == Allotted(Allotted(hs, FILE), FBDEV_SIZE)
  {
    hide Allots, Allotted;
    RowStep(hs, FILE, [FBDEV_SIZE]);
    RowStep(Allotted(hs, FILE), FBDEV_SIZE, []);
  }

  lemma RowStep(hs: seq<B.Block>, n: u32, ns: seq<u32>)
    ensures AllotsRow(hs, [n] + ns) <==> Allots(hs, n) && AllotsRow(Allotted(hs, n), ns)
    ensures AllottedRow(hs, [n] + ns) == AllottedRow(Allotted(hs, n), ns)
    ensures AllotsRow(hs, []) && AllottedRow(hs, []) == hs
  {
    assert ([n] + ns)[1..] == ns;
  }

  lemma DeviceNeeds()
    ensures 0 < H.Need(FILE) && 0 < H.Need(CONSOLE_SIZE) && 0 < H.Need(FBDEV_SIZE)
  {
  }

  /** A framebuffer takes 48 bytes of the kernel heap, a console 80, and it needs a framebuffer; no other node has a driver. */
  lemma OpenTakes(addr: nat, len: nat, n: nat, devfb: Node)
    requires addr > 0
    ensures OpenReturns([B.Block(addr, len)], Major(n), devfb) <==>
      (n == 1 && len >= 48) || (n == 0 && devfb == Major(1) && len >= 80)
    ensures n <= 1 ==>
      var size := if n == 0 then 80 else 48;
      && (len > size ==> NodesOpened([B.Block(addr, len)], Major(n)) == [B.Block(addr + size, len - size)])
      && (len == size ==> NodesOpened([B.Block(addr, len)], Major(n)) == [])
  {
    hide AllotsRow, AllottedRow;
    RowsTake();
    OneBlockRow(addr, len, OpenSizes(Major(n)));
  }

  lemma RowsTake()
    ensures RowSize([FILE, FBDEV_SIZE]) == 48 && RowSize([FILE, CONSOLE_SIZE, FILE, FBDEV_SIZE]) == 80
    ensures 0 < H.Need(FILE) < H.LIMIT && 0 < H.Need(CONSOLE_SIZE) < H.LIMIT && 0 < H.Need(FBDEV_SIZE) < H.LIMIT
  {
    RowSizeOne(FBDEV_SIZE, []);
    RowSizeOne(FILE, [FBDEV_SIZE]);
    RowSizeOne(CONSOLE_SIZE, [FILE, FBDEV_SIZE]);
    RowSizeOne(FILE, [CONSOLE_SIZE, FILE, FBDEV_SIZE]);
  }

  lemma RowSizeOne(n: u32, ns: seq<u32>)
    ensures RowSize([n] + ns) == H.Need(n) + RowSize(ns) && RowSize([]) == 0
  {
    assert ([n] + ns)[1..] == ns;
  }

  /** From boot the kernel heap holds 819 open consoles, and no more. */
  lemma {:induction false} FreshHeapOpens(base: nat, k: nat)
    requires base > 0
    ensures OpensReturn([B.Block(base, H.ARENA)], Major(CONSOLE), Major(FRAMEBUFFER), k) <==> k <= 819
    ensures k <= 819 ==>
      NodesAfter([B.Block(base, H.ARENA)], Major(CONSOLE), k) == [B.Block(base + 80 * k, H.ARENA - 80 * k)]
  {
    hide OpenReturns, NodesOpened;
    if k > 0 {
      FreshHeapOpens(base, k - 1);
      if k <= 820 {
        OpenTakes(base + 80 * (k - 1), H.ARENA - 80 * (k - 1), CONSOLE, Major(FRAMEBUFFER));
      }
    }
  }
}
