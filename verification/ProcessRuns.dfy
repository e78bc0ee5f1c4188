/**
  Whole runs of `initsys`, `sys_execve`, `sys_fork`, anonymous `sys_mmap`, `sys_open`, `sys_read` (kernel/proc.c,
  kernel/mem.c, kernel/fs.c) and of stores by user code, over the address spaces of all processes.
 */
module ProcessRuns {
  import opened Words
  import opened Paging
  import opened Regions
  import opened ElfLayout
  import opened Memory
  import opened AddressSpaces
  import opened Supplies
  import opened Devices
  import opened ProcLayout
  import B = Blocks
  import H = KernelHeap
  import P = PageAllocator

  datatype Call =
    | Exec(pid: nat, img: Image)
    | Map(pid: nat, len: u32)
    | Fork(pid: nat, child: nat, stale: u32)
    | Open(pid: nat, node: Node)
    | Read(pid: nat, fd: nat, buf: u32, bytes: seq<Byte>)
    | Store(pid: nat, addr: u32, byte: Byte)

  /** The images a run executes meet the loader's conditions whenever the loader accepts them. */
  ghost predicate GoodFile(img: Image) {
    Accepted(img) ==> GoodImage(Loads(img.phs)) && FileHolds(Loads(img.phs), img.bytes)
  }

  // ---------- what a call does to everyone

  /** Page tables, memory, address spaces, the free lists of both allocators, and what `/dev/fb` names. */
  datatype Snapshot = Snapshot(m: Mem, ram: seq<Byte>, procs: map<nat, Space>, free: seq<B.Block>, nodes: seq<B.Block>,
                               devfb: Node)

  /** The call does not return: some allocation on its way fails, a driver is missing, or a page stored to is not mapped. */
  ghost predicate Stops(a: Snapshot, c: Call) {
    c.pid in a.procs &&
    match c
    case Exec(_, img) => LoadStops(a.free, a.nodes, img)
    case Map(pid, len) => MmapGranted(a.procs[pid].mmapBase, len) && MmapStops(a.free, a.nodes, a.procs[pid], PgUp(len))
    case Fork(pid, _, _) => ForkStops(a.free, a.nodes, a.procs[pid])
    case Open(pid, node) => |a.procs[pid].files| <= MAXFILES && !OpenReturns(a.nodes, node, a.devfb)
    case Read(pid, fd, buf, bytes) => Reads(a.procs[pid], fd) && !MappedAll(a.m.tables, a.procs[pid].pd, buf, |bytes|)
    case Store(pid, addr, _) => Walk(a.m.tables, a.procs[pid].pd, addr / PAGE) == NotMapped
  }

  ghost predicate Sound(a: Snapshot) {
    Core(a.m) && SpacesOk(a.m, a.procs)
  }

  /** Process `q` has the same address space and reads the same byte at every user address. */
  ghost predicate SameView(a: Snapshot, b: Snapshot, q: nat) {
    && q in a.procs && q in b.procs && b.procs[q] == a.procs[q]
    && forall x :: 0 <= x < KERNEL_OFFSET ==>
         ReadByte(b.m, b.ram, b.procs[q].pd, x) == ReadByte(a.m, a.ram, a.procs[q].pd, x)
  }

  ghost predicate OthersSee(a: Snapshot, b: Snapshot, but: set<nat>) {
    forall q :: q in a.procs && q !in but ==> SameView(a, b, q)
  }

  /** The kernel heap's free bytes afterwards were free before. */
  ghost predicate HeapGives(hs: seq<B.Block>, hs': seq<B.Block>) {
    H.Canonical(hs') && H.Bytes(hs') <= H.Bytes(hs)
  }

  /**
    The file records of a fork or an open: the blocks the kernel heap hands out for them at the call, which were free,
    are not free any more, and have no byte in common.
   */
  ghost predicate Recorded(a: Snapshot, c: Call, b: Snapshot, rs: seq<u32>) {
    && c.pid in a.procs && Records(rs, |rs|) && NewBlocks(a.nodes, b.nodes, FILE, rs)
    && match c
       case Fork(pid, _, _) =>
         rs == AllotsAt(AllottedAll(a.nodes, NODE, |a.procs[pid].regions|), FILE, |a.procs[pid].files|) && |rs| == |a.procs[pid].files|
       case Open(_, _) => rs == [AllotAt(a.nodes, FILE)]
       case _ => false
  }

  lemma ExecHeap(hs: seq<B.Block>, bs: seq<B.Block>, img: Image)
    requires H.Canonical(hs) && Accepted(img) && !LoadStops(bs, hs, img)
    ensures HeapGives(hs, Allotted(hs, NodesSize(img)))
  {
    hide H.Canonical, H.Bytes, Accepted, LoadStops, NodesSize, Allots, Allotted, H.Need;
    ExecAllots(hs, bs, img);
    AllotFresh(hs, NodesSize(img));
  }

  lemma ExecAllots(hs: seq<B.Block>, bs: seq<B.Block>, img: Image)
    requires Accepted(img) && !LoadStops(bs, hs, img)
    ensures Allots(hs, NodesSize(img)) && H.Need(NodesSize(img)) != 0
  {
    hide Refused, Loads, Allots, H.Need, NodesSize, ImageSize, ElfRegions, TablesOf, CanDraw, Drawn;
    NodesSizeIs(img);
    NodesFit(|Loads(img.phs)| + 1);
  }

  /** One request for 16 bytes for each segment and the stack; more than 254 segments do not pass the size assertion. */
  lemma NodesSizeIs(img: Image)
    ensures |Loads(img.phs)| < 0x1_0000 && NodesSize(img) == 16 * (|Loads(img.phs)| + 1)
    ensures H.Need(NodesSize(img)) < H.LIMIT <==> |Loads(img.phs)| <= 254
  {
    hide Loads;
    LoadsFewer(img.phs);
    NodesFit(|Loads(img.phs)| + 1);
  }

  lemma MapHeap(hs: seq<B.Block>, bs: seq<B.Block>, s: Space, len: u32)
    requires H.Canonical(hs) && !MmapStops(bs, hs, s, len)
    ensures HeapGives(hs, Allotted(hs, NODE))
  {
    hide H.Canonical, H.Bytes, Allots, Allotted;
    NodeNeed();
    AllotFresh(hs, NODE);
  }

  lemma ForkHeap(hs: seq<B.Block>, k: nat, n: nat)
    requires H.Canonical(hs) && AllotsAll(hs, NODE, k) && AllotsAll(AllottedAll(hs, NODE, k), FILE, n)
    ensures var hs1 := AllottedAll(hs, NODE, k);
      && HeapGives(hs, AllottedAll(hs1, FILE, n)) && |AllotsAt(hs1, FILE, n)| == n
      && NewBlocks(hs, AllottedAll(hs1, FILE, n), FILE, AllotsAt(hs1, FILE, n))
  {
    hide H.Canonical, H.Bytes, AllotsAll, AllottedAll, AllotsAt, BytesBehind;
    NodeNeed();
    AllotsFresh(hs, NODE, k);
    AllotsFresh(AllottedAll(hs, NODE, k), FILE, n);
  }

  lemma HeapSame(hs: seq<B.Block>)
    requires H.Canonical(hs)
    ensures HeapGives(hs, hs)
  {
  }

  lemma HeapCanonical(a: AddressSpaces)
    requires a.Valid()
    ensures H.Canonical(a.Nodes())
  {
    hide SpacesOk;
  }

  /** A call that returns changes the caller's own address space, adds a child, or changes nothing. */
  ghost predicate Transition(a: Snapshot, c: Call, r: Outcome, b: Snapshot) {
    && Sound(b) && b.m.kdir == a.m.kdir && OwnersStay(a.m.owner, b.m.owner) && b.devfb == a.devfb && HeapGives(a.nodes, b.nodes)
    && a.m.kdir in a.m.tables && a.m.kdir in b.m.tables && b.m.tables[a.m.kdir] == a.m.tables[a.m.kdir]
    && match c
       case Exec(pid, img) =>
         && r == Returned(if Accepted(img) then 0 else -1)
         && (r == Returned(-1) ==> OthersSee(a, b, {}) && b.procs.Keys == a.procs.Keys)
         && (r == Returned(0) ==>
               OthersSee(a, b, {pid}) && pid in a.procs && pid in b.procs && b.procs.Keys == a.procs.Keys
               && b.procs[pid].files == a.procs[pid].files && Loaded(b.m, b.ram, b.procs[pid], img))
       case Map(pid, len) =>
         && pid in a.procs && pid in b.procs && b.procs.Keys == a.procs.Keys
         && (if MmapGranted(a.procs[pid].mmapBase, len) then
               r == Returned(a.procs[pid].mmapBase) && OthersSee(a, b, {pid}) && Mapped(a.procs[pid], b.procs[pid], PgUp(len), b.ram)
             else r == Returned(0) && OthersSee(a, b, {}))
       case Fork(pid, child, stale) =>
         && OthersSee(a, b, {}) && pid in a.procs
         && (if r == Returned(child) then
               child !in a.procs && child in b.procs && b.procs.Keys == a.procs.Keys + {child}
               && Forked(a.m, a.ram, a.procs[pid], b.m, b.ram, b.procs[child])
             else r == Returned(-1) && b.procs.Keys == a.procs.Keys && ForkRefused(a.free, a.procs[pid]))
       case Open(pid, node) =>
         && pid in a.procs
         && (if node == Absent || |a.procs[pid].files| > MAXFILES then r == Returned(-1) && b == a
             else
               && r == Returned(|a.procs[pid].files|) && OthersSee(a, b, {pid}) && b.m == a.m && b.ram == a.ram
               && b.procs == a.procs[pid := a.procs[pid].(files := a.procs[pid].files + [DeviceOf(node)])])
       case Read(pid, fd, buf, bytes) =>
         && pid in a.procs && r == Returned(if fd < |a.procs[pid].files| then 0 else -1) && OthersSee(a, b, {pid})
         && b == a.(ram := b.ram)
         && StoredMany(a, b, a.procs[pid].pd, buf, if Reads(a.procs[pid], fd) then bytes else [])
       case Store(pid, addr, byte) =>
         && pid in a.procs && r == Returned(0) && OthersSee(a, b, {pid})
         && b == a.(ram := b.ram)
         && StoredOne(a, b, a.procs[pid].pd, addr, byte)
  }

  /** A process nobody touched keeps its view: its pages are where its regions say, in frames it owns. */
  lemma ViewKept(a: Snapshot, b: Snapshot, q: nat)
    requires Sound(a) && Sound(b) && OthersUntouched(a.m.owner, a.ram, b.ram)
    requires q in a.procs && q in b.procs && b.procs[q] == a.procs[q]
    ensures SameView(a, b, q)
  {
    hide SpaceOk, OthersUntouched, Core, ReadByte;
    SpaceOf(a.m, a.procs, q);
    SpaceOf(b.m, b.procs, q);
    forall x: nat | x < KERNEL_OFFSET
      ensures ReadByte(b.m, b.ram, a.procs[q].pd, x) == ReadByte(a.m, a.ram, a.procs[q].pd, x)
    {
      ReadsSame(a.m, a.ram, b.m, b.ram, a.procs[q], x);
    }
  }

  lemma ViewsKept(a: Snapshot, b: Snapshot, but: set<nat>)
    requires Sound(a) && Sound(b) && OthersUntouched(a.m.owner, a.ram, b.ram)
    requires forall q :: q in a.procs && q !in but ==> q in b.procs && b.procs[q] == a.procs[q]
    ensures OthersSee(a, b, but)
  {
    hide Sound, OthersUntouched, SameView;
    forall q | q in a.procs && q !in but
      ensures SameView(a, b, q)
    {
      ViewKept(a, b, q);
    }
  }

  /** Directory `pd` reads `v` at user address `addr`, and everything else as before. */
  ghost predicate StoredOne(a: Snapshot, b: Snapshot, pd: nat, addr: nat, v: Byte) {
    forall x :: 0 <= x < KERNEL_OFFSET ==> ReadByte(b.m, b.ram, pd, x) == if x == addr then v else ReadByte(a.m, a.ram, pd, x)
  }

  /** A byte stored through one page shows at one user address of one process, because frames are not shared. */
  lemma StoreShowsOnce(a: Snapshot, b: Snapshot, pid: nat, addr: u32, v: Byte, q: nat, x: nat)
    requires Sound(a) && pid in a.procs && q in a.procs && addr < KERNEL_OFFSET && x < KERNEL_OFFSET
    requires Walk(a.m.tables, a.procs[pid].pd, addr / PAGE).Page? && PlaceOf(a.m.tables, a.procs[pid].pd, addr) < |a.ram|
    requires b.m == a.m && b.ram == a.ram[PlaceOf(a.m.tables, a.procs[pid].pd, addr) := v]
    ensures ReadByte(b.m, b.ram, a.procs[q].pd, x) ==
            if q == pid && x == addr then v else ReadByte(a.m, a.ram, a.procs[q].pd, x)
  {
    hide Walk, Core, Shows, RegionsOwned, AllOk, Present, TablesOf;
    var d, e := a.procs[pid].pd, a.procs[q].pd;
    SpaceOf(a.m, a.procs, pid);
    SpaceOf(a.m, a.procs, q);
    if Walk(a.m.tables, e, x / PAGE).Page? && Walk(a.m.tables, e, x / PAGE).frame == Walk(a.m.tables, d, addr / PAGE).frame {
      FramesNotShared(a.m, d, addr / PAGE, e, x / PAGE);
    }
  }

  lemma StoreViews(a: Snapshot, b: Snapshot, pid: nat, addr: u32, v: Byte)
    requires Sound(a) && pid in a.procs && addr < KERNEL_OFFSET
    requires Walk(a.m.tables, a.procs[pid].pd, addr / PAGE).Page? && PlaceOf(a.m.tables, a.procs[pid].pd, addr) < |a.ram|
    requires b == a.(ram := a.ram[PlaceOf(a.m.tables, a.procs[pid].pd, addr) := v])
    ensures OthersSee(a, b, {pid}) && StoredOne(a, b, a.procs[pid].pd, addr, v)
  {
    hide Walk, Sound, ReadByte, PlaceOf;
    forall q, x: nat | q in a.procs && x < KERNEL_OFFSET
      ensures ReadByte(b.m, b.ram, a.procs[q].pd, x) ==
              if q == pid && x == addr then v else ReadByte(a.m, a.ram, a.procs[q].pd, x)
    {
      StoreShowsOnce(a, b, pid, addr, v, q, x);
    }
  }

  /** Directory `pd` reads `bytes` from user address `lo` on, and everything else as before. */
  ghost predicate StoredMany(a: Snapshot, b: Snapshot, pd: nat, lo: nat, bytes: seq<Byte>) {
    forall x :: 0 <= x < KERNEL_OFFSET ==>
      ReadByte(b.m, b.ram, pd, x) == if lo <= x < lo + |bytes| then bytes[x - lo] else ReadByte(a.m, a.ram, pd, x)
  }

  /** A buffer filled in the user half shows at its addresses in the caller, and at no address of any other process. */
  lemma {:induction false} BufferShowsOnce(a: Snapshot, b: Snapshot, pid: nat, lo: nat, bytes: seq<Byte>, q: nat, x: nat)
    requires Sound(a) && pid in a.procs && q in a.procs && lo + |bytes| <= KERNEL_OFFSET && x < KERNEL_OFFSET
    requires MappedAll(a.m.tables, a.procs[pid].pd, lo, |bytes|)
    requires forall y :: lo <= y < lo + |bytes| ==> PlaceOf(a.m.tables, a.procs[pid].pd, y) < |a.ram|
    requires b == a.(ram := StoredBytes(a.m.tables, a.procs[pid].pd, a.ram, lo, bytes))
    ensures |b.ram| == |a.ram|
    ensures ReadByte(b.m, b.ram, a.procs[q].pd, x) ==
            if q == pid && lo <= x < lo + |bytes| then bytes[x - lo] else ReadByte(a.m, a.ram, a.procs[q].pd, x)
    decreases |bytes|
  {
    hide Walk, Sound, ReadByte, PlaceOf;
    if bytes != [] {
      var n := |bytes| - 1;
      var c := a.(ram := StoredBytes(a.m.tables, a.procs[pid].pd, a.ram, lo, bytes[..n]));
      BufferShowsOnce(a, c, pid, lo, bytes[..n], q, x);
      SameSound(a, c);
      assert Walk(a.m.tables, a.procs[pid].pd, (lo + n) / PAGE) != NotMapped;
      StoreShowsOnce(c, b, pid, lo + n, bytes[n], q, x);
    }
  }

  lemma SameSound(a: Snapshot, b: Snapshot)
    requires Sound(a) && b == a.(ram := b.ram)
    ensures Sound(b)
  {
    hide Core, SpacesOk;
  }

  /**
    A byte stored through the kernel half, at the kernel address of physical byte `x`, shows exactly where a
    process has that byte mapped.
   */
  lemma KernelStoreShows(a: Snapshot, b: Snapshot, x: nat, v: Byte, q: nat, y: nat)
    requires Sound(a) && q in a.procs && y < KERNEL_OFFSET && x < |a.ram| && b == a.(ram := a.ram[x := v])
    requires Walk(a.m.tables, a.procs[q].pd, y / PAGE).Page? ==> PlaceOf(a.m.tables, a.procs[q].pd, y) < |a.ram|
    ensures ReadByte(b.m, b.ram, a.procs[q].pd, y) ==
            if Walk(a.m.tables, a.procs[q].pd, y / PAGE).Page? && PlaceOf(a.m.tables, a.procs[q].pd, y) == x then v
            else ReadByte(a.m, a.ram, a.procs[q].pd, y)
  {
    hide Walk, Sound;
  }

  /** So a read into a kernel address is harmless to `q` exactly if `q` has no byte behind it mapped, or it was the same. */
  lemma KernelStoreKeeps(a: Snapshot, b: Snapshot, x: nat, v: Byte, q: nat)
    requires Sound(a) && q in a.procs && x < |a.ram| && b == a.(ram := a.ram[x := v])
    requires forall y :: 0 <= y < KERNEL_OFFSET && Walk(a.m.tables, a.procs[q].pd, y / PAGE) != NotMapped ==>
      PlaceOf(a.m.tables, a.procs[q].pd, y) < |a.ram|
    ensures SameView(a, b, q) <==>
      v == a.ram[x] || forall y :: 0 <= y < KERNEL_OFFSET ==> !LeadsTo(a, q, y, x)
  {
    hide Walk, Sound, ReadByte, PlaceOf;
    forall y: nat | y < KERNEL_OFFSET
      ensures ReadByte(b.m, b.ram, a.procs[q].pd, y) == if LeadsTo(a, q, y, x) then v else ReadByte(a.m, a.ram, a.procs[q].pd, y)
      ensures LeadsTo(a, q, y, x) ==> ReadByte(a.m, a.ram, a.procs[q].pd, y) == a.ram[x]
    {
      KernelStoreShows(a, b, x, v, q, y);
      PlaceReads(a, q, y);
    }
  }

  ghost predicate LeadsTo(a: Snapshot, q: nat, y: nat, x: nat)
    requires q in a.procs
  {
    Walk(a.m.tables, a.procs[q].pd, y / PAGE).Page? && PlaceOf(a.m.tables, a.procs[q].pd, y) == x
  }

  lemma PlaceReads(a: Snapshot, q: nat, y: nat)
    requires q in a.procs && Walk(a.m.tables, a.procs[q].pd, y / PAGE).Page? ==> PlaceOf(a.m.tables, a.procs[q].pd, y) < |a.ram|
    ensures q in a.procs && Walk(a.m.tables, a.procs[q].pd, y / PAGE).Page? ==>
      ReadByte(a.m, a.ram, a.procs[q].pd, y) == a.ram[PlaceOf(a.m.tables, a.procs[q].pd, y)]
  {
    hide Walk;
  }

  /** Entry `i` of the kernel directory is the one `pg_identity` sets up for physical memory. */
  ghost predicate LinearAt(m: Mem, i: nat) {
    && IsTable(m.tables, m.kdir) && USER_ENTRIES <= i < ENTRIES && m.tables[m.kdir][i].frame == (i - USER_ENTRIES) * ENTRIES
    && m.tables[m.kdir][i].flags.p && m.tables[m.kdir][i].flags.ps
  }

  /** The kernel address of physical byte `x` leads there from every directory. */
  lemma KernelAddressLeads(m: Mem, d: nat, x: u32)
    requires Core(m) && d in m.dirs && x < KERNEL_OFFSET && LinearAt(m, USER_ENTRIES + x / 0x40_0000)
    ensures Walk(m.tables, d, P2V(x) / PAGE).Page? && PlaceOf(m.tables, d, P2V(x)) == x
  {
    hide Core, DirectoryOk;
    var vp := P2V(x) / PAGE;
    KernelHalfShared(m, d, vp);
    assert vp / ENTRIES - USER_ENTRIES == x / PAGE / ENTRIES && vp % ENTRIES == x / PAGE % ENTRIES;
  }

  // ---------- the discipline of a run

  /** What a process may do next. `Inherited`: it has its parent's regions, no `mmap_base` and no size of its own. */
  datatype Phase = Fresh | Grown | Inherited

  /**
    The discipline under which `sys_fork` and `sys_mmap` are sound: only a process that has loaded an image
    maps memory, and only one that has not mapped memory since forks. Buffers lie in the user half.
   */
  predicate Allowed(procs: map<nat, Space>, phases: map<nat, Phase>, c: Call) {
    match c
    case Exec(pid, _) => pid in phases
    case Map(pid, _) => pid in phases && phases[pid] != Inherited
    case Fork(pid, child, _) =>
      && pid in phases && phases[pid] == Fresh && child !in phases && child <= MAX_PID
      && pid in procs && |procs[pid].files| <= MAXFILES
    case Open(pid, _) => pid in phases
    case Read(pid, fd, buf, bytes) => pid in phases && fd < MAXFILES && buf + |bytes| <= KERNEL_OFFSET
    case Store(pid, addr, _) => pid in phases && addr < KERNEL_OFFSET
  }

  /** The phases after a call that returned `r`; `base` is the caller's next mapping address before it. */
  function NextPhases(phases: map<nat, Phase>, c: Call, r: Outcome, base: nat): map<nat, Phase> {
    match c
    case Exec(pid, _) => if r == Returned(0) then phases[pid := Fresh] else phases
    case Map(pid, len) => if MmapGranted(base, len) then phases[pid := Grown] else phases
    case Fork(_, child, _) => if r == Returned(child) then phases[child := Inherited] else phases
    case _ => phases
  }

  /**
    The first process forks; its child may execute a program, but map nothing before that; then it may map memory, open,
    read and store, but not fork once it has mapped.
   */
  lemma OwnPathAllowed(procs: map<nat, Space>, img: Image, len: u32, stale: u32, node: Node, fd: nat, buf: u32, bytes: seq<Byte>,
                       addr: u32, byte: Byte, base: nat, base': nat, base'': nat)
    requires 1 in procs && |procs[1].files| <= MAXFILES && 2 in procs && |procs[2].files| <= MAXFILES
    requires fd < MAXFILES && buf + |bytes| <= KERNEL_OFFSET && addr < KERNEL_OFFSET && MmapGranted(base'', len)
    ensures var start := map[1 := Fresh];
      var forked := NextPhases(start, Fork(1, 2, stale), Returned(2), base);
      var loaded := NextPhases(forked, Exec(2, img), Returned(0), base');
      var grown := NextPhases(loaded, Map(2, len), Returned(base''), base'');
      && Allowed(procs, start, Fork(1, 2, stale)) && forked == map[1 := Fresh, 2 := Inherited]
      && !Allowed(procs, forked, Map(2, len)) && !Allowed(procs, forked, Fork(2, 3, stale))
      && Allowed(procs, forked, Exec(2, img)) && loaded == map[1 := Fresh, 2 := Fresh]
      && Allowed(procs, loaded, Map(2, len)) && Allowed(procs, loaded, Fork(2, 3, stale)) && grown == map[1 := Fresh, 2 := Grown]
      && Allowed(procs, grown, Open(2, node)) && Allowed(procs, grown, Read(2, fd, buf, bytes)) && Allowed(procs, grown, Store(2, addr, byte))
      && Allowed(procs, grown, Map(2, len)) && !Allowed(procs, grown, Fork(2, 3, stale)) && Allowed(procs, grown, Fork(1, 3, stale))
  {
    hide MmapGranted;
  }

  ghost predicate InPhase(s: Space, phase: Phase) {
    && Separate(s.regions)
    && (phase != Inherited ==> SpaceShape(s.regions, s.mmapBase))
    && (phase == Fresh ==> Total(s.regions) <= s.sz)
  }

  ghost predicate Orderly(procs: map<nat, Space>, phases: map<nat, Phase>) {
    procs.Keys == phases.Keys && forall p :: p in procs ==> InPhase(procs[p], phases[p])
  }

  lemma OrderlyUpdate(procs: map<nat, Space>, phases: map<nat, Phase>, p: nat, s: Space, phase: Phase)
    requires Orderly(procs, phases) && InPhase(s, phase)
    ensures Orderly(procs[p := s], phases[p := phase])
  {
    hide InPhase;
  }

  lemma NowLoaded(m: Mem, ram: seq<Byte>, procs: map<nat, Space>, phases: map<nat, Phase>, pid: nat, s: Space, img: Image)
    requires Orderly(procs, phases) && Loaded(m, ram, s, img)
    ensures Orderly(procs[pid := s], phases[pid := Fresh])
  {
    hide ReadsAs, Loads, Separate, AllOk;
    OrderlyUpdate(procs, phases, pid, s, Fresh);
  }

  lemma NowGrown(ram: seq<Byte>, procs: map<nat, Space>, phases: map<nat, Phase>, pid: nat, s: Space, len: nat)
    requires Orderly(procs, phases) && pid in procs && phases[pid] != Inherited && Mapped(procs[pid], s, len, ram)
    ensures Orderly(procs[pid := s], phases[pid := Grown])
  {
    hide Separate, AllOk;
    assert InPhase(procs[pid], phases[pid]) && SpaceShape(s.regions, s.mmapBase);
    OrderlyUpdate(procs, phases, pid, s, Grown);
  }

  lemma NowForked(m0: Mem, ram0: seq<Byte>, m: Mem, ram: seq<Byte>, procs: map<nat, Space>, phases: map<nat, Phase>,
                  pid: nat, child: nat, c: Space)
    requires Orderly(procs, phases) && pid in procs && Forked(m0, ram0, procs[pid], m, ram, c)
    ensures Orderly(procs[child := c], phases[child := Inherited])
  {
    hide Separate, Walk, ReadByte;
    OrderlyUpdate(procs, phases, child, c, Inherited);
  }

  /** What an allowed call needs of the process that makes it. */
  lemma OrderlyKnown(procs: map<nat, Space>, phases: map<nat, Phase>, c: Call)
    requires Orderly(procs, phases) && Allowed(procs, phases, c)
    ensures c.pid in procs && c.pid in phases
    ensures c.Fork? ==> |procs[c.pid].files| <= MAXFILES && c.child !in procs && Separate(procs[c.pid].regions) && Total(procs[c.pid].regions) <= procs[c.pid].sz
  {
    hide Separate, SpaceShape, Total;
  }

  lemma NowOpened(procs: map<nat, Space>, phases: map<nat, Phase>, pid: nat, files: seq<Device>)
    requires Orderly(procs, phases) && pid in procs
    ensures Orderly(procs[pid := procs[pid].(files := files)], phases)
  {
    hide Separate, SpaceShape, Total;
    assert InPhase(procs[pid], phases[pid]);
    OrderlyUpdate(procs, phases, pid, procs[pid].(files := files), phases[pid]);
    assert phases[pid := phases[pid]] == phases;
  }

  lemma Booted(m: Mem, ram: seq<Byte>, procs: map<nat, Space>, img: Image)
    requires procs.Keys == {1} && Loaded(m, ram, procs[1], img)
    ensures Orderly(procs, map[1 := Fresh])
  {
    hide ReadsAs, Loads, Separate, AllOk;
  }

  // ---------- isolation

  /** The frame of page `vp` of process `p`, or minus one. */
  ghost function UserFrame(m: Mem, procs: map<nat, Space>, p: nat, vp: nat): int {
    if p in procs && vp < USER_PAGES && Walk(m.tables, procs[p].pd, vp).Page? then Walk(m.tables, procs[p].pd, vp).frame else -1
  }

  /** Two user pages of live processes are never the same frame, and kernel pages are the same for all. */
  ghost predicate Isolated(m: Mem, procs: map<nat, Space>) {
    && (forall p, vp, q, vq {:trigger UserFrame(m, procs, p, vp), UserFrame(m, procs, q, vq)} ::
          UserFrame(m, procs, p, vp) >= 0 && UserFrame(m, procs, p, vp) == UserFrame(m, procs, q, vq) ==> p == q && vp == vq)
    && (forall p, vp :: p in procs && USER_PAGES <= vp < ALL_PAGES ==>
          Walk(m.tables, procs[p].pd, vp) == Walk(m.tables, m.kdir, vp))
  }

  lemma SpacesIsolated(m: Mem, procs: map<nat, Space>)
    requires Core(m) && SpacesOk(m, procs)
    ensures Isolated(m, procs)
  {
    hide Walk, Core, Shows, RegionsOwned, AllOk;
    forall p, vp, q, vq | UserFrame(m, procs, p, vp) >= 0 && UserFrame(m, procs, p, vp) == UserFrame(m, procs, q, vq)
      ensures p == q && vp == vq
    {
      SpaceOf(m, procs, p);
      SpaceOf(m, procs, q);
      FramesNotShared(m, procs[p].pd, vp, procs[q].pd, vq);
    }
    forall p, vp: nat | p in procs && USER_PAGES <= vp < ALL_PAGES
      ensures Walk(m.tables, procs[p].pd, vp) == Walk(m.tables, m.kdir, vp)
    {
      SpaceOf(m, procs, p);
      KernelHalfShared(m, procs[p].pd, vp);
    }
  }

  // ---------- runs

  ghost function Seen(a: AddressSpaces): Snapshot
    reads a, a.ram, a.alloc, a.alloc.freelist, a.heap, a.heap.heap
  {
    Snapshot(a.Tabled(), a.ram[..], a.procs, a.Free(), a.Nodes(), a.devfb)
  }

  method StepExec(a: AddressSpaces, c: Call, phases0: map<nat, Phase>) returns (r: Outcome, phases: map<nat, Phase>)
    requires a.Valid() && Orderly(a.procs, phases0) && Allowed(a.procs, phases0, c) && c.Exec? && GoodFile(c.img)
    modifies a, a.alloc, a.alloc.freelist, a.heap, a.heap.heap, a.ram
    ensures r == Fault <==> Stops(old(Seen(a)), c)
    ensures r != Fault ==> a.Valid() && Orderly(a.procs, phases) && Transition(old(Seen(a)), c, r, Seen(a))
    ensures r != Fault ==> c.pid in old(a.procs) && phases == NextPhases(phases0, c, r, old(a.procs)[c.pid].mmapBase)
  {
    hide Orderly, Forked, Loaded, Mapped, Separate, SpacesOk, OthersUntouched, OthersSee, GoodImage, FileHolds, Loads, Refused,
      InPhase, Core, LoadStops, HeapGives, Allotted, NodesSize;
    phases := phases0;
    HeapCanonical(a);
    ghost var before := Seen(a);
    OrderlyKnown(a.procs, phases0, c);
    var base := a.procs[c.pid].mmapBase;
    a.KernelTableKnown();
    r := a.SysExecve(c.pid, c.img);
    if r == Fault {
      return;
    }
    a.KernelTableKnown();
    ViewsKept(before, Seen(a), if r == Returned(0) then {c.pid} else {});
    HeapSame(before.nodes);
    if r == Returned(0) {
      ExecHeap(before.nodes, before.free, c.img);
      NowLoaded(a.Tabled(), a.ram[..], before.procs, phases0, c.pid, a.procs[c.pid], c.img);
    }
    phases := NextPhases(phases0, c, r, base);
  }

  method StepMap(a: AddressSpaces, c: Call, phases0: map<nat, Phase>) returns (r: Outcome, phases: map<nat, Phase>)
    requires a.Valid() && Orderly(a.procs, phases0) && Allowed(a.procs, phases0, c) && c.Map?
    modifies a, a.alloc, a.alloc.freelist, a.heap, a.heap.heap, a.ram
    ensures r == Fault <==> Stops(old(Seen(a)), c)
    ensures r != Fault ==> a.Valid() && Orderly(a.procs, phases) && Transition(old(Seen(a)), c, r, Seen(a))
    ensures r != Fault ==> c.pid in old(a.procs) && phases == NextPhases(phases0, c, r, old(a.procs)[c.pid].mmapBase)
  {
    hide Orderly, Forked, Loaded, Mapped, Separate, SpacesOk, OthersUntouched, OthersSee, GoodImage, FileHolds, Loads, Refused,
      InPhase, Core, MmapStops, HeapGives, Allotted;
    phases := phases0;
    HeapCanonical(a);
    ghost var before := Seen(a);
    OrderlyKnown(a.procs, phases0, c);
    var base := a.procs[c.pid].mmapBase;
    a.KernelTableKnown();
    r := a.SysMmap(c.pid, c.len);
    if r == Fault {
      return;
    }
    a.KernelTableKnown();
    ViewsKept(before, Seen(a), if MmapGranted(base, c.len) then {c.pid} else {});
    HeapSame(before.nodes);
    if MmapGranted(base, c.len) {
      MapHeap(before.nodes, before.free, before.procs[c.pid], PgUp(c.len));
      NowGrown(a.ram[..], before.procs, phases0, c.pid, a.procs[c.pid], PgUp(c.len));
    }
    phases := NextPhases(phases0, c, r, base);
  }

  method StepFork(a: AddressSpaces, c: Call, phases0: map<nat, Phase>) returns (r: Outcome, phases: map<nat, Phase>, page: nat, records: seq<u32>)
    requires a.Valid() && Orderly(a.procs, phases0) && Allowed(a.procs, phases0, c) && c.Fork?
    modifies a, a.alloc, a.alloc.freelist, a.heap, a.heap.heap, a.ram
    ensures r == Fault <==> Stops(old(Seen(a)), c)
    ensures r != Fault ==> a.Valid() && Orderly(a.procs, phases) && Transition(old(Seen(a)), c, r, Seen(a))
    ensures r != Fault ==> NewStack(old(Seen(a)), Seen(a), page)
    ensures r == Returned(c.child) ==> Recorded(old(Seen(a)), c, Seen(a), records)
    ensures r != Fault ==> c.pid in old(a.procs) && phases == NextPhases(phases0, c, r, old(a.procs)[c.pid].mmapBase)
  {
    hide Orderly, Forked, Loaded, Mapped, Separate, SpacesOk, OthersUntouched, OthersSee, GoodImage, FileHolds, Loads, Refused,
      InPhase, Core, ForkStops, ForkRefused, HeapGives, AllotsAll, AllottedAll, AllotsAt, NewBlocks;
    phases := phases0;
    HeapCanonical(a);
    ghost var before := Seen(a);
    OrderlyKnown(a.procs, phases0, c);
    var base := a.procs[c.pid].mmapBase;
    a.KernelTableKnown();
    r, page, records := a.SysFork(c.pid, c.child, c.stale);
    if r == Fault {
      return;
    }
    a.KernelTableKnown();
    ViewsKept(before, Seen(a), {});
    HeapSame(before.nodes);
    if r == Returned(c.child) {
      ForkServed(before.free, before.nodes, before.procs[c.pid]);
      ForkHeap(before.nodes, |before.procs[c.pid].regions|, |before.procs[c.pid].files|);
      NowForked(before.m, before.ram, a.Tabled(), a.ram[..], before.procs, phases0, c.pid, c.child, a.procs[c.child]);
    }
    phases := NextPhases(phases0, c, r, base);
  }

  lemma ForkServed(bs: seq<B.Block>, hs: seq<B.Block>, s: Space)
    requires !ForkStops(bs, hs, s) && !ForkRefused(bs, s)
    ensures AllotsAll(hs, NODE, |s.regions|) && AllotsAll(AllottedAll(hs, NODE, |s.regions|), FILE, |s.files|)
  {
    hide AllotsAll, AllottedAll;
  }

  method StepOpen(a: AddressSpaces, c: Call, phases: map<nat, Phase>) returns (r: Outcome, record: u32)
    requires a.Valid() && Orderly(a.procs, phases) && Allowed(a.procs, phases, c) && c.Open?
    modifies a, a.alloc, a.alloc.freelist, a.heap, a.heap.heap
    ensures r == Fault <==> Stops(old(Seen(a)), c)
    ensures r != Fault ==> a.Valid() && Orderly(a.procs, phases) && Transition(old(Seen(a)), c, r, Seen(a))
    ensures r != Fault && r != Returned(-1) ==> Recorded(old(Seen(a)), c, Seen(a), [record])
  {
    hide Recorded, HeapGives, NewBlocks, AllotAt, AddressSpaces.HeapOk, P.PageAllocator.Valid, H.KernelHeap.Valid, Orderly, SpacesOk, OthersSee, InPhase, Core, OpenReturns, NodesOpened, PagesOpened, OthersUntouched, FramesOk, Separate;
    ghost var before := Seen(a);
    OrderlyKnown(a.procs, phases, c);
    a.KernelTableKnown();
    HeapCanonical(a);
    HeapSame(before.nodes);
    r, record := a.SysOpen(c.pid, c.node);
    if r != Fault && r != Returned(-1) {
      OpenFresh(before.nodes, c.node, before.devfb);
      OpenGives(before.nodes, c.node, before.devfb);
      OpenRecorded(before, c, Seen(a), record);
      SameBytesSame(before, Seen(a));
      ViewsKept(before, Seen(a), {c.pid});
      NowOpened(before.procs, phases, c.pid, a.procs[c.pid].files);
    }
  }

  lemma OpenRecorded(a: Snapshot, c: Call, b: Snapshot, record: u32)
    requires c.Open? && c.pid in a.procs && record == AllotAt(a.nodes, FILE) && record > KERNEL_OFFSET
    requires NewBlocks(a.nodes, b.nodes, FILE, [AllotAt(a.nodes, FILE)])
    ensures Recorded(a, c, b, [record])
  {
    hide NewBlocks, AllotAt;
    assert [record] == [AllotAt(a.nodes, FILE)];
  }

  lemma OpenGives(hs: seq<B.Block>, node: Node, devfb: Node)
    requires H.Canonical(hs) && OpenReturns(hs, node, devfb)
    ensures HeapGives(hs, NodesOpened(hs, node))
  {
    hide H.Canonical, H.Bytes, OpenReturns, NodesOpened;
    OpenFresh(hs, node, devfb);
  }

  method StepRead(a: AddressSpaces, c: Call, phases: map<nat, Phase>) returns (r: Outcome)
    requires a.Valid() && Orderly(a.procs, phases) && Allowed(a.procs, phases, c) && c.Read?
    modifies a.ram
    ensures r == Fault <==> Stops(old(Seen(a)), c)
    ensures r != Fault ==> a.Valid() && Orderly(a.procs, phases) && Transition(old(Seen(a)), c, r, Seen(a))
  {
    hide Orderly, SpacesOk, OthersSee, StoredMany, InPhase, Core, PlaceOf, Walk, MappedAll, HeapGives;
    ghost var before := Seen(a);
    HeapCanonical(a);
    HeapSame(before.nodes);
    OrderlyKnown(a.procs, phases, c);
    a.KernelTableKnown();
    a.PlacesKnown(c.pid);
    r := a.SysRead(c.pid, c.fd, c.buf, c.bytes);
    if r != Fault {
      BufferViews(before, Seen(a), c.pid, c.buf, if Reads(before.procs[c.pid], c.fd) then c.bytes else []);
    }
  }

  /** The page of a new thread: nobody's before, the kernel's from now on. */
  ghost predicate NewStack(a: Snapshot, b: Snapshot, page: nat) {
    page !in a.m.owner && Owned(b.m, page, Kernel) && page < USER_PAGES
  }

  lemma BufferViews(a: Snapshot, b: Snapshot, pid: nat, lo: nat, bytes: seq<Byte>)
    requires Sound(a) && pid in a.procs && lo + |bytes| <= KERNEL_OFFSET
    requires MappedAll(a.m.tables, a.procs[pid].pd, lo, |bytes|) || bytes == []
    requires forall y :: 0 <= y < KERNEL_OFFSET && Walk(a.m.tables, a.procs[pid].pd, y / PAGE) != NotMapped ==>
      PlaceOf(a.m.tables, a.procs[pid].pd, y) < |a.ram|
    requires b == a.(ram := StoredBytes(a.m.tables, a.procs[pid].pd, a.ram, lo, bytes))
    ensures Sound(b) && OthersSee(a, b, {pid}) && StoredMany(a, b, a.procs[pid].pd, lo, bytes)
  {
    hide Walk, Sound, ReadByte, PlaceOf;
    SameSound(a, b);
    forall q, x: nat | q in a.procs && x < KERNEL_OFFSET
      ensures ReadByte(b.m, b.ram, a.procs[q].pd, x) ==
              if q == pid && lo <= x < lo + |bytes| then bytes[x - lo] else ReadByte(a.m, a.ram, a.procs[q].pd, x)
    {
      BufferShowsOnce(a, b, pid, lo, bytes, q, x);
    }
  }

  method StepStore(a: AddressSpaces, c: Call, phases: map<nat, Phase>) returns (r: Outcome)
    requires a.Valid() && Orderly(a.procs, phases) && Allowed(a.procs, phases, c) && c.Store?
    modifies a.ram
    ensures r == Fault <==> Stops(old(Seen(a)), c)
    ensures r != Fault ==> a.Valid() && Orderly(a.procs, phases) && Transition(old(Seen(a)), c, r, Seen(a))
  {
    hide Orderly, SpacesOk, OthersSee, StoredOne, InPhase, Core, PlaceOf, Walk, HeapGives;
    ghost var before := Seen(a);
    HeapCanonical(a);
    HeapSame(before.nodes);
    OrderlyKnown(a.procs, phases, c);
    a.KernelTableKnown();
    r := a.UserStore(c.pid, c.addr, c.byte);
    if r != Fault {
      StoreViews(before, Seen(a), c.pid, c.addr, c.byte);
    }
  }

  lemma SameBytesSame(a: Snapshot, b: Snapshot)
    requires b.ram == a.ram
    ensures OthersUntouched(a.m.owner, a.ram, b.ram)
  {
  }

  /** One call. A fork also says which page its thread got, an open where its record is. */
  method Step(a: AddressSpaces, c: Call, phases0: map<nat, Phase>)
    returns (r: Outcome, phases: map<nat, Phase>, page: nat, records: seq<u32>)
    requires a.Valid() && Orderly(a.procs, phases0) && Allowed(a.procs, phases0, c) && (c.Exec? ==> GoodFile(c.img))
    modifies a, a.alloc, a.alloc.freelist, a.heap, a.heap.heap, a.ram
    ensures r == Fault <==> Stops(old(Seen(a)), c)
    ensures r != Fault ==> a.Valid() && Orderly(a.procs, phases) && Transition(old(Seen(a)), c, r, Seen(a))
    ensures r != Fault ==> c.pid in old(a.procs) && phases == NextPhases(phases0, c, r, old(a.procs)[c.pid].mmapBase)
    ensures r != Fault && c.Fork? ==> NewStack(old(Seen(a)), Seen(a), page)
    ensures (c.Fork? && r == Returned(c.child)) || (r != Fault && c.Open? && r != Returned(-1)) ==>
      Recorded(old(Seen(a)), c, Seen(a), records)
  {
    hide Recorded, Orderly, Transition, Stops, Allowed, GoodFile, NewStack;
    OrderlyKnown(a.procs, phases0, c);
    phases, page, records := phases0, 0, [];
    match c {
      case Exec(_, _) => r, phases := StepExec(a, c, phases0);
      case Map(_, _) => r, phases := StepMap(a, c, phases0);
      case Fork(_, _, _) => r, phases, page, records := StepFork(a, c, phases0);
      case Open(_, _) =>
        var record;
        r, record := StepOpen(a, c, phases0);
        records := [record];
      case Read(_, _, _, _) => r := StepRead(a, c, phases0);
      case Store(_, _, _) => r := StepStore(a, c, phases0);
    }
  }

  /** A history of snapshots in which each call is a transition. */
  ghost predicate Follows(history: seq<Snapshot>, calls: seq<Call>, results: seq<Outcome>) {
    && |history| == |results| + 1 && |results| <= |calls|
    && forall i, j {:trigger history[i], history[j]} :: 0 <= i < |results| && j == i + 1 ==>
         Transition(history[i], calls[i], results[i], history[j])
  }

  lemma FollowsOneMore(history: seq<Snapshot>, calls: seq<Call>, results: seq<Outcome>, r: Outcome, b: Snapshot)
    requires Follows(history, calls, results) && |results| < |calls|
    requires Transition(history[|results|], calls[|results|], r, b)
    ensures Follows(history + [b], calls, results + [r])
  {
    hide Transition;
    var h := history + [b];
    forall i, j | 0 <= i < |results| + 1 && j == i + 1
      ensures Transition(h[i], calls[i], (results + [r])[i], h[j])
    {
      if i < |results| {
        assert Transition(history[i], calls[i], results[i], history[j]);
      }
    }
  }

  /** The phases a run leads to. */
  ghost function PhasesAfter(history: seq<Snapshot>, calls: seq<Call>, results: seq<Outcome>): map<nat, Phase>
    requires |history| == |results| + 1 && |results| <= |calls|
    decreases |results|
  {
    if results == [] then map[1 := Fresh]
    else
      var k := |results| - 1;
      var c := calls[k];
      NextPhases(PhasesAfter(history[..k + 1], calls, results[..k]), c, results[k],
                 if c.pid in history[k].procs then history[k].procs[c.pid].mmapBase else 0)
  }

  /**
    Every run from boot, up to the first call that stops the kernel or is outside the discipline: each call changes
    only what its caller sees, and afterwards all address spaces are isolated from each other, with no page
    in two regions of one process, and share the kernel half.
   */
  method Run(a: AddressSpaces, init: Image, calls: seq<Call>)
    returns (halted: bool, results: seq<Outcome>, ghost history: seq<Snapshot>)
    requires a.Valid() && a.procs == map[] && GoodFile(init)
    requires forall i :: 0 <= i < |calls| && calls[i].Exec? ==> GoodFile(calls[i].img)
    modifies a, a.alloc, a.alloc.freelist, a.heap, a.heap.heap, a.ram
    ensures history != [] ==>
      history[0].procs.Keys == {1} && Loaded(history[0].m, history[0].ram, history[0].procs[1], init)
    ensures history != [] ==> Follows(history, calls, results)
    ensures history == [] <==> BootStops(old(a.Free()), old(a.Nodes()), init, a.devconsole, a.devfb)
    ensures history == [] ==> halted
    ensures history != [] ==> (halted <==> |results| < |calls| && Stops(history[|results|], calls[|results|])
                                           && Allowed(history[|results|].procs, PhasesAfter(history, calls, results), calls[|results|]))
    ensures !halted ==>
      && history != [] && history[|results|] == Seen(a) && a.Valid()
      && Orderly(a.procs, PhasesAfter(history, calls, results)) && Isolated(a.Tabled(), a.procs)
    ensures !halted && |results| < |calls| ==> !Allowed(a.procs, PhasesAfter(history, calls, results), calls[|results|])
  {
    hide Orderly, Loaded, SpacesOk, GoodImage, FileHolds, Loads, Refused, Isolated, Core, Accepted, Transition, NextPhases, Stops, BootStops;
    results, history := [], [];
    var r, page, idle, records := a.Boot(init);
    if r == Fault {
      return true, results, history;
    }
    Booted(a.Tabled(), a.ram[..], a.procs, init);
    var phases := map[1 := Fresh];
    history := [Seen(a)];
    halted := false;
    while |results| < |calls| && Allowed(a.procs, phases, calls[|results|])
      invariant Follows(history, calls, results) && history[|results|] == Seen(a) && a.Valid()
      invariant phases == PhasesAfter(history, calls, results) && Orderly(a.procs, phases)
      invariant history[0].procs.Keys == {1} && Loaded(history[0].m, history[0].ram, history[0].procs[1], init)
      decreases |calls| - |results|
    {
      var k := |results|;
      ghost var h := history;
      r, phases, page, records := Step(a, calls[k], phases);
      if r == Fault {
        return true, results, history;
      }
      FollowsOneMore(h, calls, results, r, Seen(a));
      history := h + [Seen(a)];
      results := results + [r];
      assert history[..k + 1] == h && results[..k] == results[..|results| - 1];
    }
    SpacesIsolated(a.Tabled(), a.procs);
  }
}
