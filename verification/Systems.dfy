/**
  Processes, scheduler, kernel entry and address spaces together: runs in which every system call takes its
  number and arguments from the user registers, its caller from the scheduler, the pages of new threads from the
  page allocator, and its effect on memory from the page tables.
 */
module Systems {
  import opened Words
  import opened IntrusiveLists
  import opened ProcLayout
  import opened TrapFrames
  import opened Memory
  import opened Paging
  import opened Regions
  import opened ElfLayout
  import opened AddressSpaces
  import opened Devices
  import S = Scheduler
  import R = ProcessRuns
  import opened Supplies
  import B = Blocks
  import H = KernelHeap
  import P = PageAllocator
  import T = Threads

  /** What the registers of a system call do not say: what its path names, what a framebuffer shows, garbage left over. */
  datatype Request = Request(node: Node, found: bool, img: Image, bytes: seq<Byte>, stale: u32, eax: u32)

  datatype Event = UserRuns(regs: Regs) | UserStores(addr: u32, byte: Byte) | Tick | Trap(x: Request)

  /** A call into the address spaces. */
  datatype Asked = Nothing | Asks(c: R.Call)

  /** What it returns, with the page and the file records it used. */
  datatype Answer = Answer(r: Outcome, page: nat, records: seq<u32>)

  /** Flag of `sys_mmap` for memory without a file behind it. */
  const MAP_ANON := 1

  /** The arguments the kernel's stub passes on: `read(fd, buf, count)`, `mmap(addr, len, prot, flags, fd, off)`. */
  function Args(u: Regs): seq<u32> {
    T.StubArgs(T.Index(u.eax), u)
  }

  /** What process `pid` with registers `u` asks for. */
  function Ask(pid: nat, u: Regs, nextPid: u32, e: Event): Asked {
    match e
    case UserStores(addr, byte) => Asks(R.Store(pid, addr, byte))
    case Trap(x) =>
      var i := T.Index(u.eax);
      if i == 2 then Asks(R.Fork(pid, nextPid, x.stale))
      else if i == 3 then Asks(R.Read(pid, Args(u)[0], Args(u)[1], x.bytes))
      else if i == 5 then Asks(R.Open(pid, x.node))
      else if i == 8 && x.found then Asks(R.Exec(pid, x.img))
      else if i == 9 then Asks(R.Map(pid, Args(u)[1]))
      else Nothing
    case _ => Nothing
  }

  /**
    A program that calls the library gets what it wrote: in the order of the C prototypes, `w` being the caller's words
    above the return address.
   */
  lemma AsksAsCalled(i: nat, r: Regs, mem: TrapFrames.Memory, pid: nat, nextPid: u32, x: Request)
    requires T.HasStub(i) && 16 <= r.esp
    ensures var u, w, e := T.StubCall(i, r, mem), (k: nat) => W(mem, r.esp + 4 + 4 * k), Trap(x);
      && (i == 1 ==> Ask(pid, u, nextPid, e) == Nothing)
      && (i == 2 ==> Ask(pid, u, nextPid, e) == Asks(R.Fork(pid, nextPid, x.stale)))
      && (i == 3 ==> Ask(pid, u, nextPid, e) == Asks(R.Read(pid, w(0), w(1), x.bytes)))
      && (i == 4 ==> Ask(pid, u, nextPid, e) == Nothing)
      && (i == 5 ==> Ask(pid, u, nextPid, e) == Asks(R.Open(pid, x.node)))
      && (i == 8 ==> Ask(pid, u, nextPid, e) == if x.found then Asks(R.Exec(pid, x.img)) else Nothing)
      && (i == 9 ==> Ask(pid, u, nextPid, e) == Asks(R.Map(pid, w(1))))
  {
    hide T.StubCall, T.StubArgs;
    T.ArgumentsArrive(i, r, mem);
  }

  /** The `struct proc` of a thread on physical page `page`. */
  function ThreadOn(page: nat): nat {
    page * PAGE + KERNEL_OFFSET + (PAGE - PROC_SIZE)
  }

  /** What the answer comes to for a process with `n` open files. */
  function Served(u: Regs, n: nat, x: Request, a: Answer): T.Service {
    var i := T.Index(u.eax);
    var v: u32 := if a.r.Returned? then a.r.value % U32 else 0;
    T.Service(if i == 4 then (if Args(u)[0] < n then 0 else T.MINUS_ONE) else v,
              a.r != Returned(-1), a.r != Returned(-1), if ThreadOn(a.page) < U32 then ThreadOn(a.page) else 0, a.records,
              x.found && a.r == Returned(0), x.img.entry, x.eax)
  }

  function Threaded(u: Regs, n: nat, e: Event, a: Answer): T.Event {
    match e
    case UserRuns(regs) => T.UserRuns(regs)
    case UserStores(_, _) => T.UserRuns(u)
    case Tick => T.Tick
    case Trap(x) => T.Trap(Served(u, n, x, a))
  }

  // ---------- what is allowed

  /** The `n` bytes at `a` lie in the pages of one region. */
  predicate Readable(rs: seq<Region>, a: u32, n: u32) {
    exists i :: 0 <= i < |rs| && FirstPage(rs[i]) * PAGE <= a && a + n <= FirstPage(rs[i]) * PAGE + rs[i].len
  }

  /**
    The call is within the discipline of address spaces: mappings are anonymous, a read fills as many bytes as it was
    asked for, and a write reads from a region of the caller.
   */
  predicate Proper(procs: map<nat, Space>, phases: map<nat, R.Phase>, pid: nat, u: Regs, e: Event, ask: Asked) {
    && (match ask
        case Nothing => true
        case Asks(c) =>
          && R.Allowed(procs, phases, c)
          && (c.Map? && c.pid in procs && MmapGranted(procs[c.pid].mmapBase, c.len) ==>
                e.Trap? && T.Index(u.eax) == 9 && Args(u)[3] % 2 == MAP_ANON)
          && (c.Read? ==> e.Trap? && T.Index(u.eax) == 3 && |c.bytes| == Args(u)[2]))
    && (e.Trap? && T.Index(u.eax) == 4 ==>
          && Args(u)[0] < MAXFILES && pid in procs
          && (Args(u)[0] < |procs[pid].files| ==> Readable(procs[pid].regions, Args(u)[1], Args(u)[2])))
  }

  /** The next event can happen; `p` is the running thread and `intact` says that its state word is. */
  predicate Allows(k: Layout, p: nat, pid: nat, u: Regs, nextPid: u32, intact: bool, procs: map<nat, Space>,
                   phases: map<nat, R.Phase>, e: Event, n: T.Noise) {
    && T.FitsEvent(k, p, u, Threaded(u, 0, e, Answer(Fault, 0, [])), n)
    && (Bare(u, intact, e) || Proper(procs, phases, pid, u, e, Ask(pid, u, nextPid, e)))
  }

  /** The event leads, before any call is made, where nothing is known. */
  predicate Bare(u: Regs, intact: bool, e: Event) {
    match e
    case Tick => !T.SegmentsOk(u)
    case Trap(_) => !T.Regular(u) || T.Index(u.eax) >= CALLS || (T.Index(u.eax) == 2 && !intact)
    case _ => false
  }

  /**
    When a library call is allowed, `w` being the caller's words above the return address: a fork by a process that has
    loaded a program and mapped nothing since, a read that fills `count` bytes of the user half, a write from a region of the
    caller, a mapping whose flags say anonymous by a process that has loaded a program. Exit, open and execve always are.
   */
  lemma AllowedAsCalled(i: nat, r: Regs, mem: TrapFrames.Memory, k: Layout, p: nat, pid: nat, nextPid: u32, procs: map<nat, Space>,
                        phases: map<nat, R.Phase>, x: Request, regs: Regs)
    requires T.HasStub(i) && 16 <= r.esp && pid in procs && pid in phases && T.Regular(r)
    ensures var u, w, j := T.StubCall(i, r, mem), (n: nat) => W(mem, r.esp + 4 + 4 * n), Junk(regs, map[]);
      Allows(k, p, pid, u, nextPid, true, procs, phases, Trap(x), T.Noise(j, j, j)) <==>
        && (i == 2 ==> phases[pid] == R.Fresh && nextPid !in phases && nextPid <= 128 && |procs[pid].files| <= 16)
        && (i == 3 ==> w(0) < 16 && w(1) + w(2) <= 0x8000_0000 && |x.bytes| == w(2))
        && (i == 4 ==> w(0) < 16 && (w(0) < |procs[pid].files| ==> Readable(procs[pid].regions, w(1), w(2))))
        && (i == 9 ==> phases[pid] != R.Inherited && (MmapGranted(procs[pid].mmapBase, w(1)) ==> w(3) % 2 == 1))
  {
    hide T.StubCall, T.StubArgs, Readable, MmapGranted, T.FitsEvent, Fits;
    T.ArgumentsArrive(i, r, mem);
    QuietTrap(k, p, T.StubCall(i, r, mem), x, regs);
  }

  lemma QuietTrap(k: Layout, p: nat, u: Regs, x: Request, regs: Regs)
    ensures var j := Junk(regs, map[]); T.FitsEvent(k, p, u, Threaded(u, 0, Trap(x), Answer(Fault, 0, [])), T.Noise(j, j, j))
  {
    hide T.FitsEvent;
    T.QuietFits(k, p, u, Threaded(u, 0, Trap(x), Answer(Fault, 0, [])), regs);
  }

  // ---------- states of the whole system

  /** Registers and scheduling, memory, what each process may do next, and the first thread. */
  datatype State = State(a: T.Processes, s: R.Snapshot, phases: map<nat, R.Phase>, init: Ptr)

  ghost function FrameOf(q: Ptr): int {
    (q - KERNEL_OFFSET) / PAGE
  }

  /** Every thread is on a page of the kernel's, its pid names an address space with as many files; no pid is used twice. */
  ghost predicate Tied(sys: S.System, s: R.Snapshot) {
    && sys.issued <= MAX_PID
    && (forall q :: q in sys.state && q in sys.pid && q in sys.files ==>
          && ProcAt(q) && FrameOf(q) in s.m.owner && s.m.owner[FrameOf(q)] == Kernel
          && sys.pid[q] as nat in s.procs && |s.procs[sys.pid[q]].files| == sys.files[q])
    && (forall pid :: pid in s.procs ==> pid <= sys.issued)
  }

  /** The blocks behind the file records are apart from each other and from the free part of the kernel heap. */
  ghost predicate FilesApart(records: map<Ptr, seq<u32>>, hs: seq<B.Block>) {
    && (forall q, i :: q in records && 0 <= i < |records[q]| ==> BytesBehind(records[q][i], FILE) !! H.Bytes(hs))
    && (forall q, i, r, j :: q in records && r in records && 0 <= i < |records[q]| && 0 <= j < |records[r]| && (q != r || i != j) ==>
          BytesBehind(records[q][i], FILE) !! BytesBehind(records[r][j], FILE))
  }

  ghost predicate InOrder(st: State) {
    && T.RecordsOk(st.a) && FilesApart(st.a.records, st.s.nodes)
    && S.Invariant(st.a.sys, st.init) && st.a.users.Keys == st.a.sys.state.Keys && T.Going(st.a)
    && R.Sound(st.s) && R.Orderly(st.s.procs, st.phases) && Tied(st.a.sys, st.s)
  }

  ghost function Pid(a: T.Processes): nat
    requires T.Going(a)
  {
    a.sys.pid[a.sys.cur]
  }

  ghost function FilesNow(a: T.Processes): nat
    requires T.Going(a)
  {
    a.sys.files[a.sys.cur]
  }

  ghost predicate Intact(a: T.Processes)
    requires T.Going(a)
  {
    a.sys.state[a.sys.cur] == S.RUNNING
  }

  ghost function AskOf(a: T.Processes, e: Event): Asked
    requires T.Going(a)
  {
    Ask(Pid(a), T.Current(a), S.NextPid(a.sys.issued), e)
  }

  ghost function ThreadEvent(a: T.Processes, e: Event, ans: Answer): T.Event
    requires T.Going(a)
  {
    Threaded(T.Current(a), FilesNow(a), e, ans)
  }

  ghost predicate Allowed(k: Layout, st: State, e: Event, n: T.Noise)
    requires T.Going(st.a)
  {
    Allows(k, st.a.sys.cur, Pid(st.a), T.Current(st.a), S.NextPid(st.a.sys.issued), Intact(st.a), st.s.procs, st.phases, e, n)
  }

  /** The call into the address spaces stops the kernel. */
  ghost predicate Crashes(st: State, e: Event)
    requires T.Going(st.a)
  {
    !Bare(T.Current(st.a), Intact(st.a), e) && AskOf(st.a, e).Asks? && R.Stops(st.s, AskOf(st.a, e).c)
  }

  /** What a call into the address spaces does to memory, and to what processes may do next. */
  ghost predicate Answered(s: R.Snapshot, phases: map<nat, R.Phase>, ask: Asked, ans: Answer, s': R.Snapshot, phases': map<nat, R.Phase>) {
    match ask
    case Nothing => s' == s && phases' == phases && ans.r == Returned(0)
    case Asks(c) =>
      && R.Transition(s, c, ans.r, s') && c.pid in s.procs && phases' == R.NextPhases(phases, c, ans.r, s.procs[c.pid].mmapBase)
      && (c.Fork? ==> R.NewStack(s, s', ans.page))
      && ((c.Fork? && ans.r == Returned(c.child)) || (c.Open? && ans.r != Returned(-1)) ==> R.Recorded(s, c, s', ans.records))
  }

  /**
    The run ends with the event: it leads where nothing is known, or process 1 exits, or the caller gives way and
    nobody is ready.
   */
  ghost predicate Ends(a: T.Processes, e: Event)
    requires T.Going(a)
  {
    || Bare(T.Current(a), Intact(a), e)
    || (match e
        case Tick => !T.Going(T.Switched(a, S.Yield))
        case Trap(x) =>
          var i := T.Index(T.Current(a).eax);
          || (i == 1 && !T.Going(T.Switched(a, S.Exit)))
          || (i == 8 && x.found && Accepted(x.img) && !T.Going(T.Switched(a, S.Exec(true))))
        case _ => false)
  }

  /** One event takes the system from `st` to `t`; a call into the address spaces answers `ans`. */
  ghost predicate Moves(st: State, e: Event, ans: Answer, t: State) {
    && InOrder(st) && InOrder(t) && t.init == st.init && !Bare(T.Current(st.a), Intact(st.a), e)
    && t.a == T.After(st.a, ThreadEvent(st.a, e, ans)) && T.NewBorn(st.a, ThreadEvent(st.a, e, ans))
    && Answered(st.s, st.phases, AskOf(st.a, e), ans, t.s, t.phases)
  }

  // ---------- every event keeps the system in order

  /** What an event does to pids, files and the number of pids issued. */
  lemma SysAfter(a: T.Processes, e: T.Event)
    requires T.WellFormed(a) && T.Going(a) && T.NewBorn(a, e) && (e.Trap? && T.Index(T.Current(a).eax) == 2 ==> e.s.child != 0)
    ensures var b, i, p := T.After(a, e).sys, if e.Trap? && T.Regular(T.Current(a)) then T.Index(T.Current(a).eax) else 0, a.sys.cur;
      && (i == 2 && e.s.forks && Intact(a) ==>
            b.state.Keys == a.sys.state.Keys + {e.s.child} && b.pid == a.sys.pid[e.s.child := S.NextPid(a.sys.issued)]
            && b.files == a.sys.files[e.s.child := a.sys.files[p]] && b.issued == a.sys.issued + 1)
      && (i == 2 && !e.s.forks ==> b == a.sys.(issued := a.sys.issued + 1))
      && (i == 5 && e.s.opens && a.sys.files[p] <= MAXFILES ==>
            b.state.Keys == a.sys.state.Keys && b.pid == a.sys.pid && b.files == a.sys.files[p := a.sys.files[p] + 1] && b.issued == a.sys.issued)
      && (i != 2 && !(i == 5 && e.s.opens && a.sys.files[p] <= MAXFILES) ==>
            b.state.Keys == a.sys.state.Keys && b.pid == a.sys.pid && b.files == a.sys.files && b.issued == a.sys.issued)
  {
    hide S.FilesOk, T.Regular, T.SegmentsOk, S.Placed, S.FirstReady, T.WellFormed;
    SwitchedSame(a, S.Yield);
    SwitchedSame(a, S.Exit);
    if e.Trap? {
      T.UpdatedWellFormed(a, T.NewProgram(T.Current(a), e.s));
      SwitchedSame(T.Updated(a, T.NewProgram(T.Current(a), e.s)), S.Exec(true));
      OpenedSame(a);
      if T.Index(T.Current(a).eax) == 2 && Intact(a) {
        Forks(a, e.s.child);
      }
    }
  }

  lemma Forks(a: T.Processes, c: Ptr)
    requires T.WellFormed(a) && T.Going(a) && Intact(a) && c != NULL && c !in a.sys.state
    ensures S.Enabled(a.sys, S.Fork(c))
  {
    T.Forkable(a, c);
  }

  lemma SwitchedSame(a: T.Processes, e: S.Event)
    requires T.WellFormed(a) && T.Going(a) && (e == S.Yield || e == S.Exit || e == S.Exec(true))
    ensures var b := T.Switched(a, e).sys;
      b.state.Keys == a.sys.state.Keys && b.pid == a.sys.pid && b.files == a.sys.files && b.issued == a.sys.issued
  {
    hide S.FilesOk, S.Placed, S.FirstReady;
    T.SwitchedWellFormed(a, e);
    T.StepKeeps(a.sys, e);
    T.SameKeys(a.sys, e);
    if S.Next(a.sys, e).phase == S.Scanning {
      T.SameKeys(S.Next(a.sys, e), S.Dispatch);
    }
  }

  lemma OpenedSame(a: T.Processes)
    requires T.WellFormed(a) && T.Going(a)
    ensures var b, n := S.Opened(a.sys), a.sys.files[a.sys.cur];
      && b.state.Keys == a.sys.state.Keys && b.pid == a.sys.pid && b.issued == a.sys.issued
      && b.files == if n <= MAXFILES then a.sys.files[a.sys.cur := n + 1] else a.sys.files
  {
    hide Nodes;
    assert S.Out(a.sys, a.sys.cur);
  }

  /** Address spaces keep their numbers of open files. */
  ghost predicate SameFiles(s: R.Snapshot, s': R.Snapshot) {
    forall pid :: pid in s.procs ==> pid in s'.procs && |s'.procs[pid].files| == |s.procs[pid].files|
  }

  /** What an answer does to address spaces and their files. */
  lemma AnsweredFiles(s: R.Snapshot, phases: map<nat, R.Phase>, ask: Asked, ans: Answer, s': R.Snapshot, phases': map<nat, R.Phase>)
    requires Answered(s, phases, ask, ans, s', phases') && R.Sound(s)
    ensures R.Sound(s') && OwnersStay(s.m.owner, s'.m.owner)
    ensures !(ask.Asks? && ask.c.Open? && ans.r != Returned(-1)) ==> SameFiles(s, s')
    ensures !(ask.Asks? && ask.c.Fork? && ans.r == Returned(ask.c.child)) ==> s'.procs.Keys == s.procs.Keys
    ensures ask.Asks? && ask.c.Fork? ==>
      && R.NewStack(s, s', ans.page) && ask.c.pid in s.procs
      && (ans.r == Returned(-1) || (
            && ans.r == Returned(ask.c.child) && ask.c.child !in s.procs && s'.procs.Keys == s.procs.Keys + {ask.c.child}
            && |s'.procs[ask.c.child].files| == |s.procs[ask.c.pid].files|))
    ensures ask.Asks? && ask.c.Open? ==>
      if ask.c.node == Absent || |s.procs[ask.c.pid].files| > MAXFILES then ans.r == Returned(-1) && s' == s
      else
        && ans.r == Returned(|s.procs[ask.c.pid].files|) && s'.m == s.m
        && s'.procs == s.procs[ask.c.pid := s.procs[ask.c.pid].(files := s.procs[ask.c.pid].files + [DeviceOf(ask.c.node)])]
  {
    hide R.Sound, Loaded, R.StoredOne, R.StoredMany, R.NextPhases, AllOk, SpaceShape, Separate, Walk, ReadByte;
    if ask.Asks? && !ask.c.Open? {
      forall pid | pid in s.procs
        ensures pid in s'.procs && |s'.procs[pid].files| == |s.procs[pid].files|
      {
        assert pid == ask.c.pid || R.SameView(s, s', pid);
      }
    }
  }

  lemma TiedSame(sys: S.System, s: R.Snapshot, sys': S.System, s': R.Snapshot)
    requires Tied(sys, s) && sys'.state.Keys == sys.state.Keys && sys'.pid == sys.pid && sys'.files == sys.files
    requires sys.issued <= sys'.issued <= MAX_PID && OwnersStay(s.m.owner, s'.m.owner) && s'.procs.Keys == s.procs.Keys && SameFiles(s, s')
    ensures Tied(sys', s')
  {
  }

  lemma TiedOpened(sys: S.System, s: R.Snapshot, sys': S.System, s': R.Snapshot, p: Ptr, d: Device)
    requires Tied(sys, s) && S.DistinctPids(sys) && S.Placed(sys) && p in sys.state && p in sys.pid && p in sys.files && s'.m == s.m
    requires sys'.state.Keys == sys.state.Keys && sys'.pid == sys.pid && sys'.files == sys.files[p := sys.files[p] + 1]
    requires sys'.issued == sys.issued && sys.pid[p] as nat in s.procs
    requires s'.procs == s.procs[sys.pid[p] as nat := s.procs[sys.pid[p]].(files := s.procs[sys.pid[p]].files + [d])]
    ensures Tied(sys', s')
  {
    hide S.Placed;
    forall q | q in sys'.state && q in sys'.pid && q in sys'.files
      ensures sys'.pid[q] as nat in s'.procs && |s'.procs[sys'.pid[q]].files| == sys'.files[q]
    {
      assert q != p ==> sys.pid[q] != sys.pid[p];
    }
  }

  lemma TiedForked(sys: S.System, s: R.Snapshot, sys': S.System, s': R.Snapshot, p: Ptr, c: Ptr)
    requires Tied(sys, s) && p in sys.state && p in sys.pid && p in sys.files && sys.issued + 1 <= MAX_PID
    requires sys'.state.Keys == sys.state.Keys + {c} && sys'.pid == sys.pid[c := S.NextPid(sys.issued)]
    requires sys'.files == sys.files[c := sys.files[p]] && sys'.issued == sys.issued + 1
    requires ProcAt(c) && FrameOf(c) in s'.m.owner && s'.m.owner[FrameOf(c)] == Kernel && OwnersStay(s.m.owner, s'.m.owner)
    requires SameFiles(s, s') && s'.procs.Keys == s.procs.Keys + {S.NextPid(sys.issued) as nat} && sys.pid[p] as nat in s.procs
    requires |s'.procs[S.NextPid(sys.issued)].files| == |s.procs[sys.pid[p]].files|
    ensures Tied(sys', s')
  {
    forall q | q in sys'.state && q in sys'.pid && q in sys'.files
      ensures ProcAt(q) && FrameOf(q) in s'.m.owner && s'.m.owner[FrameOf(q)] == Kernel
      ensures sys'.pid[q] as nat in s'.procs && |s'.procs[sys'.pid[q]].files| == sys'.files[q]
    {
      if q != c {
        assert q in sys.state && q in sys.pid && q in sys.files;
      }
    }
  }

  // ---------- pages of threads

  /** The idle thread's page and the pages of the scheduler's stack are the kernel's. */
  ghost predicate OwnsKernel(k: Layout, m: Mem) {
    && FrameOf(k.idle) in m.owner && m.owner[FrameOf(k.idle)] == Kernel
    && forall x: nat :: k.bootLow <= x < k.boot ==> FrameOf(x) in m.owner
  }

  lemma ThreadPage(page: nat)
    requires page < USER_PAGES
    ensures var q := ThreadOn(page); q < U32 && FrameOf(q) == page && ProcAt(q)
  {
    assert ThreadOn(page) % PAGE == PAGE - PROC_SIZE;
  }

  /** A page nobody owned is apart from the scheduler's stack. */
  lemma StackApart(lo: nat, hi: nat, owner: map<nat, Owner>, page: nat)
    requires lo < hi && page < USER_PAGES && page !in owner && forall x: nat :: lo <= x < hi ==> FrameOf(x) in owner
    ensures var q := ThreadOn(page); High(q) <= lo || hi <= Low(q)
  {
    var q := ThreadOn(page);
    ThreadPage(page);
    var x: nat := if Low(q) <= lo then lo else Low(q);
    assert Low(q) <= x < High(q) ==> FrameOf(x) == page;
  }

  /** A thread on a page nobody owned is apart from all other threads and from the scheduler's stack. */
  lemma FreshPage(k: Layout, m: Mem, page: nat)
    requires LayoutOk(k) && OwnsKernel(k, m) && page !in m.owner && page < USER_PAGES
    ensures var q := ThreadOn(page); q < U32 && FrameOf(q) == page && Placed(k, q)
  {
    ThreadPage(page);
    StackApart(k.bootLow, k.boot, m.owner, page);
  }

  lemma FreshThread(k: Layout, sys: S.System, s: R.Snapshot, page: nat)
    requires LayoutOk(k) && OwnsKernel(k, s.m) && Tied(sys, s) && S.Placed(sys) && page !in s.m.owner && page < USER_PAGES
    ensures var q := ThreadOn(page); q < U32 && FrameOf(q) == page && Placed(k, q) && q !in sys.state && q != NULL
  {
    hide S.Placed, Placed;
    var q := ThreadOn(page);
    FreshPage(k, s.m, page);
    KeysAre(sys);
    assert q in sys.state ==> FrameOf(q) in s.m.owner;
  }

  lemma KeysAre(sys: S.System)
    requires S.Placed(sys)
    ensures sys.state.Keys == sys.pid.Keys == sys.files.Keys
  {
  }

  lemma OwnsKept(k: Layout, m: Mem, m': Mem)
    requires OwnsKernel(k, m) && OwnersStay(m.owner, m'.owner)
    ensures OwnsKernel(k, m')
  {
  }

  // ---------- one event

  /** What the parts of the kernel need of each other for the next event. */
  lemma Known(st: State)
    requires InOrder(st)
    ensures T.WellFormed(st.a) && T.Going(st.a) && S.Placed(st.a.sys) && S.DistinctPids(st.a.sys) && R.Orderly(st.s.procs, st.phases)
    ensures var p := st.a.sys.cur;
      && p in st.a.sys.state && p in st.a.sys.pid && p in st.a.sys.files
      && Pid(st.a) in st.s.procs && FilesNow(st.a) == |st.s.procs[Pid(st.a)].files|
      && (Intact(st.a) ==> FilesNow(st.a) <= MAXFILES) && st.a.sys.issued <= MAX_PID
  {
    hide R.Sound, R.Orderly, Nodes;
  }

  /** The answer to a fork or open supplies what the machine needs. */
  lemma AnswerSupplies(k: Layout, st: State, e: Event, ans: Answer, s': R.Snapshot, phases': map<nat, R.Phase>)
    requires InOrder(st) && LayoutOk(k) && OwnsKernel(k, st.s.m) && !Bare(T.Current(st.a), Intact(st.a), e)
    requires Answered(st.s, st.phases, AskOf(st.a, e), ans, s', phases')
    ensures var te := ThreadEvent(st.a, e, ans);
      && T.Supplied(k, st.a, te) && T.NewBorn(st.a, te)
      && (e.Trap? && T.Index(T.Current(st.a).eax) == 2 ==> te.s.child == ThreadOn(ans.page) && te.s.child != 0)
  {
    hide FilesApart, T.RecordsOk, R.Sound, R.Orderly, R.Transition, R.NextPhases, Placed, Tied, S.Invariant;
    Known(st);
    if e.Trap? && T.Index(T.Current(st.a).eax) == 2 {
      TiedNow(st);
      FreshThread(k, st.a.sys, st.s, ans.page);
      ForkedOrNot(st.s, st.phases, AskOf(st.a, e), ans, s', phases');
    }
  }

  lemma TiedNow(st: State)
    requires InOrder(st)
    ensures Tied(st.a.sys, st.s)
  {
    hide FilesApart, T.RecordsOk;
  }

  lemma ForkedOrNot(s: R.Snapshot, phases: map<nat, R.Phase>, ask: Asked, ans: Answer, s': R.Snapshot, phases': map<nat, R.Phase>)
    requires Answered(s, phases, ask, ans, s', phases') && ask.Asks? && ask.c.Fork?
    ensures ans.r == Returned(-1) || ans.r == Returned(ask.c.child)
  {
    hide R.OthersSee, Forked, R.Sound;
  }

  /** Threads keep their pages, pids name address spaces, and descriptors agree, after every event. */
  lemma TiedKept(k: Layout, st: State, e: Event, ans: Answer, s': R.Snapshot, phases': map<nat, R.Phase>)
    requires InOrder(st) && LayoutOk(k) && OwnsKernel(k, st.s.m) && !Bare(T.Current(st.a), Intact(st.a), e)
    requires Answered(st.s, st.phases, AskOf(st.a, e), ans, s', phases')
    requires AskOf(st.a, e).Asks? && AskOf(st.a, e).c.Fork? ==> AskOf(st.a, e).c.child <= MAX_PID
    ensures Tied(T.After(st.a, ThreadEvent(st.a, e, ans)).sys, s')
  {
    hide R.Sound, R.Orderly, Placed, Tied, S.Invariant, Answered, T.After, T.WellFormed, T.NewBorn, T.Supplied, OwnsKernel, SameFiles,
      OwnersStay, S.Placed, S.DistinctPids, InOrder;
    Known(st);
    SoundNow(st);
    AnswerSupplies(k, st, e, ans, s', phases');
    AnsweredFiles(st.s, st.phases, AskOf(st.a, e), ans, s', phases');
    var ask := AskOf(st.a, e);
    if ask.Asks? && ask.c.Fork? && ans.r == Returned(ask.c.child) {
      ForkTied(k, st, e, ans, s');
    } else if ask.Asks? && ask.c.Open? && ans.r != Returned(-1) {
      OpenTied(st, e, ans, s');
    } else {
      RestTied(st, e, ans, s');
    }
  }

  lemma ForkTied(k: Layout, st: State, e: Event, ans: Answer, s': R.Snapshot)
    requires InOrder(st) && LayoutOk(k) && OwnsKernel(k, st.s.m) && e.Trap? && T.Index(T.Current(st.a).eax) == 2
    requires T.Regular(T.Current(st.a)) && Intact(st.a) && S.NextPid(st.a.sys.issued) <= MAX_PID
    requires T.NewBorn(st.a, ThreadEvent(st.a, e, ans)) && R.NewStack(st.s, s', ans.page) && ans.r == Returned(S.NextPid(st.a.sys.issued))
    requires OwnersStay(st.s.m.owner, s'.m.owner) && SameFiles(st.s, s') && s'.procs.Keys == st.s.procs.Keys + {S.NextPid(st.a.sys.issued) as nat}
    requires Pid(st.a) in st.s.procs && |s'.procs[S.NextPid(st.a.sys.issued)].files| == |st.s.procs[Pid(st.a)].files|
    ensures Tied(T.After(st.a, ThreadEvent(st.a, e, ans)).sys, s')
  {
    hide R.Sound, R.Orderly, Placed, Tied, S.Invariant, T.After, T.WellFormed, T.NewBorn, OwnsKernel, SameFiles, OwnersStay, S.Placed,
      S.DistinctPids;
    Known(st);
    TiedNow(st);
    var sys, te := st.a.sys, ThreadEvent(st.a, e, ans);
    FreshThread(k, sys, st.s, ans.page);
    SysAfter(st.a, te);
    TiedForked(sys, st.s, T.After(st.a, te).sys, s', sys.cur, ThreadOn(ans.page));
  }

  lemma OpenTied(st: State, e: Event, ans: Answer, s': R.Snapshot)
    requires InOrder(st) && e.Trap? && T.Index(T.Current(st.a).eax) == 5 && T.Regular(T.Current(st.a))
    requires T.NewBorn(st.a, ThreadEvent(st.a, e, ans)) && ans.r != Returned(-1) && FilesNow(st.a) <= MAXFILES
    requires Pid(st.a) in st.s.procs && s'.m == st.s.m
    requires s'.procs == st.s.procs[Pid(st.a) := st.s.procs[Pid(st.a)].(files := st.s.procs[Pid(st.a)].files + [DeviceOf(e.x.node)])]
    ensures Tied(T.After(st.a, ThreadEvent(st.a, e, ans)).sys, s')
  {
    hide R.Sound, R.Orderly, Tied, S.Invariant, T.After, T.WellFormed, T.NewBorn, S.Placed, S.DistinctPids;
    Known(st);
    TiedNow(st);
    SysAfter(st.a, ThreadEvent(st.a, e, ans));
    TiedOpened(st.a.sys, st.s, T.After(st.a, ThreadEvent(st.a, e, ans)).sys, s', st.a.sys.cur, DeviceOf(e.x.node));
  }

  lemma RestTied(st: State, e: Event, ans: Answer, s': R.Snapshot)
    requires InOrder(st) && T.NewBorn(st.a, ThreadEvent(st.a, e, ans)) && !Bare(T.Current(st.a), Intact(st.a), e)
    requires var i := T.Index(T.Current(st.a).eax);
      e.Trap? ==>
        && (i == 2 ==> ans.r == Returned(-1) && st.a.sys.issued < MAX_PID && ThreadEvent(st.a, e, ans).s.child != 0)
        && (i == 5 ==> ans.r == Returned(-1) || FilesNow(st.a) > MAXFILES)
    requires OwnersStay(st.s.m.owner, s'.m.owner) && s'.procs.Keys == st.s.procs.Keys && SameFiles(st.s, s')
    ensures Tied(T.After(st.a, ThreadEvent(st.a, e, ans)).sys, s')
  {
    hide R.Sound, R.Orderly, Tied, S.Invariant, T.After, T.WellFormed, T.NewBorn, S.Placed, S.DistinctPids, SameFiles, OwnersStay;
    Known(st);
    TiedNow(st);
    SysAfter(st.a, ThreadEvent(st.a, e, ans));
    TiedSame(st.a.sys, st.s, T.After(st.a, ThreadEvent(st.a, e, ans)).sys, s');
  }

  lemma SoundNow(st: State)
    requires InOrder(st)
    ensures R.Sound(st.s)
  {
    hide FilesApart, T.RecordsOk;
  }

  /** These events, and no others, lead where nothing is known, whatever the answer would be but minus one. */
  lemma BareExact(st: State, e: Event, ans: Answer)
    requires InOrder(st) && ans.r != Returned(-1)
    ensures T.After(st.a, ThreadEvent(st.a, e, ans)).wild <==> Bare(T.Current(st.a), Intact(st.a), e)
  {
    hide R.Sound, R.Orderly, Tied, S.Invariant, T.RecordsOk, FilesApart, S.Next, S.Opened, T.Regular, T.SegmentsOk;
  }

  /** The event ends the run, or user code goes on. */
  lemma GoesOn(st: State, e: Event, ans: Answer, s': R.Snapshot, phases': map<nat, R.Phase>)
    requires InOrder(st) && !Bare(T.Current(st.a), Intact(st.a), e)
    requires Answered(st.s, st.phases, AskOf(st.a, e), ans, s', phases')
    requires T.NewBorn(st.a, ThreadEvent(st.a, e, ans))
    requires e.Trap? && T.Index(T.Current(st.a).eax) == 2 ==> ThreadEvent(st.a, e, ans).s.child != 0
    ensures T.Going(T.After(st.a, ThreadEvent(st.a, e, ans))) <==> !Ends(st.a, e)
  {
    hide R.Sound, R.Orderly, Tied, S.Invariant, S.Next, S.Opened, T.Switched, T.WellFormed, Answered, S.Known, FilesApart, T.RecordsOk,
      T.WithChild, T.WithFile;
    Known(st);
    ExecSwitch(st.a, e, ans);
    ExecAnswer(st.s, st.phases, AskOf(st.a, e), ans, s', phases');
    if e.Trap? {
      OpenGoes(st.a, ans.records);
      if T.Index(T.Current(st.a).eax) == 2 {
        ForkGoes(st.a, ThreadEvent(st.a, e, ans).s);
      }
    }
  }

  lemma ForkGoes(a: T.Processes, s: T.Service)
    requires T.WellFormed(a) && T.Going(a) && T.Index(T.Current(a).eax) == 2 && Intact(a) && s.child != 0 && s.child !in a.sys.state
    ensures T.Going(T.Served(a, s))
  {
    hide S.FilesOk, S.Placed, T.WithChild, T.RecordsOk;
    T.ForkFailed(a);
    Forks(a, s.child);
    T.ChildAgrees(a, map[], s.child, s.records);
  }

  lemma ExecAnswer(s: R.Snapshot, phases: map<nat, R.Phase>, ask: Asked, ans: Answer, s': R.Snapshot, phases': map<nat, R.Phase>)
    requires Answered(s, phases, ask, ans, s', phases')
    ensures ask.Asks? && ask.c.Exec? ==> ans.r == Returned(if Accepted(ask.c.img) then 0 else -1)
  {
    hide R.OthersSee, Loaded, R.Sound;
  }

  lemma ExecSwitch(a: T.Processes, e: Event, ans: Answer)
    requires T.Going(a)
    ensures forall u: Regs :: T.Going(T.Switched(T.Updated(a, u), S.Exec(true))) <==> T.Going(T.Switched(a, S.Exec(true)))
  {
    hide S.Next;
  }

  lemma OpenGoes(a: T.Processes, records: seq<u32>)
    requires T.Going(a) && T.WellFormed(a)
    ensures T.Going(T.WithFile(a, records)) && S.Opened(a.sys).cur == a.sys.cur && T.WithFile(a, records).sys.cur == a.sys.cur
  {
    hide S.Placed, S.FilesOk;
  }

  // ---------- the machine and the address spaces

  ghost predicate Embodies(kernel: T.Kernel, spaces: AddressSpaces, st: State)
    reads kernel, kernel.m, kernel.queue, spaces, spaces.ram, spaces.alloc, spaces.alloc.freelist, spaces.heap, spaces.heap.heap
  {
    InOrder(st) && kernel.Represents(st.a) && spaces.Valid() && R.Seen(spaces) == st.s && OwnsKernel(kernel.m.k, st.s.m)
  }

  /** All that makes up the system stays in order. */
  lemma Stepped(k: Layout, st: State, e: Event, ans: Answer, s: R.Snapshot, phases: map<nat, R.Phase>)
    requires InOrder(st) && LayoutOk(k) && OwnsKernel(k, st.s.m) && !Ends(st.a, e) && R.Orderly(s.procs, phases)
    requires Answered(st.s, st.phases, AskOf(st.a, e), ans, s, phases)
    requires AskOf(st.a, e).Asks? && AskOf(st.a, e).c.Fork? ==> AskOf(st.a, e).c.child <= MAX_PID
    ensures Moves(st, e, ans, State(T.After(st.a, ThreadEvent(st.a, e, ans)), s, phases, st.init))
    ensures OwnsKernel(k, s.m)
  {
    hide FilesApart, R.Orderly, R.Sound, Tied, Answered, T.After, OwnsKernel, OwnersStay, S.Invariant, T.Supplied, T.NewBorn, SameFiles;
    var te := ThreadEvent(st.a, e, ans);
    Known(st);
    SoundNow(st);
    AnswerSupplies(k, st, e, ans, s, phases);
    AnsweredFiles(st.s, st.phases, AskOf(st.a, e), ans, s, phases);
    TiedKept(k, st, e, ans, s, phases);
    T.AfterInvariant(st.a, te, st.init);
    GoesOn(st, e, ans, s, phases);
    T.AfterWellFormed(k, st.a, te);
    ApartKept(st, e, ans, s, phases);
    OwnsKept(k, st.s.m, s.m);
  }

  // ---------- file records

  /** What an event does to the file records. */
  lemma RecordsNow(a: T.Processes, e: T.Event)
    requires T.WellFormed(a) && T.Going(a) && T.NewBorn(a, e) && (e.Trap? && T.Index(T.Current(a).eax) == 2 ==> e.s.child != 0)
    ensures var b, i, p := T.After(a, e), if e.Trap? && T.Regular(T.Current(a)) then T.Index(T.Current(a).eax) else 0, a.sys.cur;
      b.records ==
        if i == 2 && e.s.forks && Intact(a) then a.records[e.s.child := e.s.records]
        else if i == 5 && e.s.opens && a.sys.files[p] <= MAXFILES then a.records[p := a.records[p] + e.s.records]
        else a.records
  {
    hide S.FilesOk, T.Regular, T.SegmentsOk, S.Placed, S.FirstReady;
    if e.Trap? && T.Index(T.Current(a).eax) == 2 && Intact(a) {
      Forks(a, e.s.child);
    }
  }

  lemma ApartFewer(records: map<Ptr, seq<u32>>, hs: seq<B.Block>, hs': seq<B.Block>)
    requires FilesApart(records, hs) && H.Bytes(hs') <= H.Bytes(hs)
    ensures FilesApart(records, hs')
  {
    hide H.Bytes, BytesBehind;
  }

  /** New blocks for `p`, behind the records it had. */
  lemma ApartAdded(records: map<Ptr, seq<u32>>, p: Ptr, was: seq<u32>, rs: seq<u32>, hs: seq<B.Block>, hs': seq<B.Block>)
    requires FilesApart(records, hs) && NewBlocks(hs, hs', FILE, rs) && H.Bytes(hs') <= H.Bytes(hs)
    requires if p in records then was == records[p] else was == []
    ensures FilesApart(records[p := was + rs], hs')
  {
    hide H.Bytes, BytesBehind;
    var after := records[p := was + rs];
    forall q, i | q in after && 0 <= i < |after[q]|
      ensures BytesBehind(after[q][i], FILE) !! H.Bytes(hs')
    {
      WhichRecord(records, p, was, rs, q, i);
    }
    forall q, i, r, j | q in after && r in after && 0 <= i < |after[q]| && 0 <= j < |after[r]| && (q != r || i != j)
      ensures BytesBehind(after[q][i], FILE) !! BytesBehind(after[r][j], FILE)
    {
      WhichRecord(records, p, was, rs, q, i);
      WhichRecord(records, p, was, rs, r, j);
    }
  }

  /** A record that was there before, or one of the new ones. */
  lemma WhichRecord(records: map<Ptr, seq<u32>>, p: Ptr, was: seq<u32>, rs: seq<u32>, q: Ptr, i: nat)
    requires if p in records then was == records[p] else was == []
    requires var after := records[p := was + rs]; q in after && i < |after[q]|
    ensures var after := records[p := was + rs];
      if q == p && i >= |was| then i - |was| < |rs| && after[q][i] == rs[i - |was|]
      else q in records && i < |records[q]| && after[q][i] == records[q][i]
  {
  }

  /** Blocks handed out at a call are apart from all blocks behind earlier records. */
  lemma ApartKept(st: State, e: Event, ans: Answer, s': R.Snapshot, phases': map<nat, R.Phase>)
    requires InOrder(st) && !Bare(T.Current(st.a), Intact(st.a), e) && T.NewBorn(st.a, ThreadEvent(st.a, e, ans))
    requires e.Trap? && T.Index(T.Current(st.a).eax) == 2 ==> ThreadEvent(st.a, e, ans).s.child != 0
    requires Answered(st.s, st.phases, AskOf(st.a, e), ans, s', phases')
    ensures FilesApart(T.After(st.a, ThreadEvent(st.a, e, ans)).records, s'.nodes)
  {
    hide R.Sound, R.Orderly, Tied, S.Invariant, T.After, FilesApart, Answered, InOrder, S.Placed, S.FilesOk, NewBlocks, T.Regular;
    Known(st);
    ApartNow(st);
    AnsweredHeap(st.s, st.phases, AskOf(st.a, e), ans, s', phases');
    var te, p := ThreadEvent(st.a, e, ans), st.a.sys.cur;
    RecordsNow(st.a, te);
    ApartFewer(st.a.records, st.s.nodes, s'.nodes);
    if e.Trap? && T.Index(T.Current(st.a).eax) == 2 && ans.r != Returned(-1) {
      ApartAdded(st.a.records, te.s.child, [], ans.records, st.s.nodes, s'.nodes);
      assert [] + ans.records == ans.records;
    } else if e.Trap? && T.Index(T.Current(st.a).eax) == 5 && ans.r != Returned(-1) {
      ApartAdded(st.a.records, p, st.a.records[p], ans.records, st.s.nodes, s'.nodes);
    }
  }

  lemma ApartNow(st: State)
    requires InOrder(st)
    ensures FilesApart(st.a.records, st.s.nodes) && st.a.sys.cur as nat in st.a.records && st.a.records.Keys == st.a.sys.state.Keys
  {
    hide R.Sound, R.Orderly, S.Invariant, FilesApart;
  }

  /** What an answer does to the kernel heap. */
  lemma AnsweredHeap(s: R.Snapshot, phases: map<nat, R.Phase>, ask: Asked, ans: Answer, s': R.Snapshot, phases': map<nat, R.Phase>)
    requires Answered(s, phases, ask, ans, s', phases')
    ensures H.Bytes(s'.nodes) <= H.Bytes(s.nodes)
    ensures ask.Asks? && (ask.c.Fork? || ask.c.Open?) && ans.r != Returned(-1) ==> NewBlocks(s.nodes, s'.nodes, FILE, ans.records)
  {
    hide R.Sound, Loaded, R.OthersSee, R.StoredOne, R.StoredMany, R.NextPhases, NewBlocks, H.Bytes, Forked, Mapped;
  }

  /** A call into the address spaces, if one is made. */
  method Consult(spaces: AddressSpaces, ask: Asked, phases0: map<nat, R.Phase>) returns (ans: Answer, phases: map<nat, R.Phase>)
    requires spaces.Valid() && R.Orderly(spaces.procs, phases0)
    requires ask.Asks? ==> R.Allowed(spaces.procs, phases0, ask.c) && (ask.c.Exec? ==> R.GoodFile(ask.c.img))
    modifies spaces, spaces.alloc, spaces.alloc.freelist, spaces.heap, spaces.heap.heap, spaces.ram
    ensures ans.r == Fault <==> ask.Asks? && R.Stops(old(R.Seen(spaces)), ask.c)
    ensures ans.r != Fault ==> spaces.Valid() && R.Orderly(spaces.procs, phases)
    ensures ans.r != Fault ==> Answered(old(R.Seen(spaces)), phases0, ask, ans, R.Seen(spaces), phases)
  {
    hide R.Orderly, R.Transition, R.Stops, R.Allowed, R.GoodFile, R.NewStack, Records;
    ans, phases := Answer(Returned(0), 0, []), phases0;
    if ask.Asks? {
      var r, page, records;
      r, phases, page, records := R.Step(spaces, ask.c, phases0);
      ans := Answer(r, page, records);
    }
  }

  lemma FitsWhatever(k: Layout, p: nat, u: Regs, n: nat, e: Event, ans: Answer, noise: T.Noise)
    requires T.FitsEvent(k, p, u, Threaded(u, 0, e, Answer(Fault, 0, [])), noise) && u.cs % 4 == 3
    ensures T.FitsEvent(k, p, u, Threaded(u, n, e, ans), noise)
  {
    hide Fits;
  }

  /** One event on the machine and the address spaces. */
  method Step(kernel: T.Kernel, spaces: AddressSpaces, e: Event, n: T.Noise, phases0: map<nat, R.Phase>, ghost st: State)
    returns (goes: bool, ans: Answer, phases: map<nat, R.Phase>, ghost t: State)
    requires Embodies(kernel, spaces, st) && phases0 == st.phases && Allowed(kernel.m.k, st, e, n) && (e.Trap? ==> R.GoodFile(e.x.img))
    modifies kernel, kernel.m, kernel.queue, spaces, spaces.alloc, spaces.alloc.freelist, spaces.heap, spaces.heap.heap, spaces.ram
    ensures goes <==> !Ends(st.a, e) && !Crashes(st, e)
    ensures goes ==> Embodies(kernel, spaces, t) && phases == t.phases && Moves(st, e, ans, t)
  {
    hide FilesApart, T.RecordsOk, InOrder, T.WellFormed, R.Orderly, R.Sound, Tied, R.Stops, R.Allowed, R.GoodFile, T.World, T.After, Answered, AddressSpaces.Valid,
      S.Invariant, OwnsKernel, T.FitsEvent, Bare, Proper, TailQueue.Valid, Moves, Ask;
    t := st;
    ans, phases := Answer(Fault, 0, []), phases0;
    Known(st);
    StateKnown(kernel, spaces, st);
    var u, pid := kernel.m.r, W(kernel.m.mem, kernel.curthread);
    if Bare(u, W(kernel.m.mem, kernel.curthread + STATE) == RUNNING, e) {
      return false, ans, phases, t;
    }
    var files, ask := |spaces.procs[pid].files|, Ask(pid, u, kernel.nextPid, e);
    ProperAsk(st.s.procs, st.phases, pid, u, e, ask);
    AskImage(pid, u, kernel.nextPid, e);
    ans, phases := Consult(spaces, ask, phases0);
    if ans.r == Fault {
      return false, ans, phases, t;
    }
    goes, t := Carry(kernel, spaces, e, n, ans, files, phases, st);
  }

  lemma AskImage(pid: nat, u: Regs, nextPid: u32, e: Event)
    ensures var ask := Ask(pid, u, nextPid, e); ask.Asks? && ask.c.Exec? ==> e.Trap? && ask.c.img == e.x.img
  {
  }

  /** The machine's part of an event, once the address spaces have answered. */
  method Carry(kernel: T.Kernel, spaces: AddressSpaces, e: Event, n: T.Noise, ans: Answer, files: nat, phases: map<nat, R.Phase>, ghost st: State)
    returns (goes: bool, ghost t: State)
    requires InOrder(st) && kernel.Represents(st.a) && OwnsKernel(kernel.m.k, st.s.m) && Allowed(kernel.m.k, st, e, n)
    requires !Bare(T.Current(st.a), Intact(st.a), e) && files == FilesNow(st.a)
    requires spaces.Valid() && R.Orderly(spaces.procs, phases) && Answered(st.s, st.phases, AskOf(st.a, e), ans, R.Seen(spaces), phases)
    modifies kernel, kernel.m, kernel.queue
    ensures goes <==> !Ends(st.a, e)
    ensures goes ==> Embodies(kernel, spaces, t) && phases == t.phases && Moves(st, e, ans, t)
  {
    hide FilesApart, T.RecordsOk, T.WellFormed, R.Orderly, R.Sound, Tied, R.Allowed, T.World, T.After, Answered, AddressSpaces.Valid, S.Invariant, OwnsKernel,
      T.FitsEvent, T.Supplied, T.NewBorn, Bare, Proper, T.FilesAre, T.StateIs, Threaded, TailQueue.Valid, Placed, LayoutOk, Moves;
    t := st;
    kernel.Known(st.a);
    ProperAsk(st.s.procs, st.phases, Pid(st.a), T.Current(st.a), e, AskOf(st.a, e));
    AnswerSupplies(kernel.m.k, st, e, ans, R.Seen(spaces), phases);
    FitsWhatever(kernel.m.k, st.a.sys.cur, kernel.m.r, files, e, ans, n);
    goes := kernel.Step(Threaded(kernel.m.r, files, e, ans), n, st.a);
    GoesOn(st, e, ans, R.Seen(spaces), phases);
    if goes {
      t := State(T.After(st.a, ThreadEvent(st.a, e, ans)), R.Seen(spaces), phases, st.init);
      Stepped(kernel.m.k, st, e, ans, R.Seen(spaces), phases);
      MovesOrder(st, e, ans, t);
    }
  }

  lemma MovesOrder(st: State, e: Event, ans: Answer, t: State)
    requires Moves(st, e, ans, t)
    ensures InOrder(st) && InOrder(t) && T.Going(st.a)
  {
  }

  lemma ProperAsk(procs: map<nat, Space>, phases: map<nat, R.Phase>, pid: nat, u: Regs, e: Event, ask: Asked)
    requires Proper(procs, phases, pid, u, e, ask)
    ensures ask.Asks? ==> R.Allowed(procs, phases, ask.c) && (ask.c.Fork? ==> ask.c.child <= MAX_PID)
  {
  }

  // ---------- runs

  /** Link-time facts but for the idle thread, whose page is allocated at boot. */
  ghost predicate Linkage(k: Layout) {
    && Distinct(k.labels) && k.bootLow + 256 <= k.boot < U32 - 4 && k.yieldFrame + k.execFrame <= 900 && k.table + 4 * CALLS <= U32
  }

  /**
    The first process runs its image's first instruction with pid 1; what `console` names is open three times, with a
    file record each.
   */
  ghost predicate Begins(st: State, init: Image, console: Node) {
    && InOrder(st) && st.phases == map[1 := R.Fresh] && st.s.procs.Keys == {1} && Loaded(st.s.m, st.s.ram, st.s.procs[1], init)
    && st.s.procs[1].files == (
         if console == Absent then [] else if console == Major(1) then [Framebuffer, Framebuffer, Framebuffer] else [Console, Console, Console])
    && st.init in st.a.records && |st.a.records[st.init]| == |st.s.procs[1].files|
    && st.a == T.Started(st.init, st.a.records[st.init], init.entry)
  }

  lemma FilesThree(node: Node)
    ensures FilesAfter(node, 3) ==
      if node == Absent then [] else if node == Major(1) then [Framebuffer, Framebuffer, Framebuffer] else [Console, Console, Console]
  {
    assert FilesAfter(node, 1) == if node == Absent then [] else [DeviceOf(node)];
    assert FilesAfter(node, 2) == if node == Absent then [] else [DeviceOf(node), DeviceOf(node)];
  }

  /** `initsys`, `init_sched` and the first turn of `scheduler`. */
  method Boot(spaces: AddressSpaces, lay: Layout, r: Regs, mem: TrapFrames.Memory, init: Image, js: Junk)
    returns (ok: bool, kernel: T.Kernel, ghost st: State)
    requires spaces.Valid() && spaces.procs == map[] && R.GoodFile(init)
    requires Linkage(lay) && r.esp == lay.boot && Fits(js, lay.bootLow, lay.boot)
    requires forall x: nat :: lay.bootLow <= x < lay.boot ==> FrameOf(x) in spaces.owner
    modifies spaces, spaces.alloc, spaces.alloc.freelist, spaces.heap, spaces.heap.heap, spaces.ram
    ensures !ok <==> BootStops(old(spaces.Free()), old(spaces.Nodes()), init, spaces.devconsole, spaces.devfb)
    ensures fresh(kernel) && fresh(kernel.m) && fresh(kernel.queue) && kernel.m.k == lay.(idle := kernel.m.k.idle)
    ensures ok ==> Embodies(kernel, spaces, st) && Begins(st, init, spaces.devconsole)
  {
    hide Fits, T.World, AddressSpaces.Valid, Loaded, R.Orderly, BootStops, GoodImage, FileHolds, Loads, R.Sound, TailQueue.Valid,
      OwnersStay, S.Next, Begins, T.Started, OwnsKernel, T.Kernel.Represents, R.Seen, RecordsAfter, NodesAfter, FilesAfter, OpensReturn,
      NodesSize, Allotted, Refused;
    ghost var owner, hs, bs := spaces.owner, spaces.Nodes(), spaces.Free();
    R.HeapCanonical(spaces);
    var o, page, idle, records := spaces.Boot(init);
    var m := new Machine(lay.(idle := ThreadOn(idle)), r, mem);
    kernel := new T.Kernel(m);
    st := State(T.Started(0, [], 0), R.Seen(spaces), map[1 := R.Fresh], 0);
    if o == Fault {
      return false, kernel, st;
    }
    ThreadPage(idle);
    StackApart(lay.bootLow, lay.boot, owner, idle);
    ThreadPage(page);
    StackApart(lay.bootLow, lay.boot, owner, page);
    FilesThree(spaces.devconsole);
    kernel.Boot(ThreadOn(page), init.entry, records, js);
    st := State(T.Started(ThreadOn(page), records, init.entry), R.Seen(spaces), map[1 := R.Fresh], ThreadOn(page));
    Begun(spaces, ThreadOn(page), records, init, hs, bs);
    SeenIs(spaces);
    StackStays(lay.bootLow, lay.boot, owner, st.s.m, m.k);
    BeginsKnown(st, init, spaces.devconsole);
    ok := true;
  }

  lemma BeginsKnown(st: State, init: Image, console: Node)
    requires Begins(st, init, console)
    ensures InOrder(st)
  {
  }

  /** What `initsys` leaves is a beginning. */
  lemma Begun(spaces: AddressSpaces, first: Ptr, records: seq<u32>, init: Image, hs: seq<B.Block>, bs: seq<B.Block>)
    requires spaces.Valid() && spaces.procs.Keys == {1} && Loaded(spaces.Tabled(), spaces.ram[..], spaces.procs[1], init)
    requires Accepted(init) && H.Canonical(hs) && !BootStops(bs, hs, init, spaces.devconsole, spaces.devfb)
    requires spaces.procs[1].files == FilesAfter(spaces.devconsole, 3) && Records(records, |spaces.procs[1].files|)
    requires var hs1 := Allotted(hs, NodesSize(init));
      records == RecordsAfter(hs1, spaces.devconsole, 3) && spaces.Nodes() == NodesAfter(hs1, spaces.devconsole, 3)
    requires first != NULL && ProcAt(first) && FrameOf(first) in spaces.owner && spaces.owner[FrameOf(first)] == Kernel
    ensures Begins(State(T.Started(first, records, init.entry), R.Seen(spaces), map[1 := R.Fresh], first), init, spaces.devconsole)
  {
    hide Loaded, R.Orderly, BootStops, R.Sound, InOrder, T.Started, RecordsAfter, NodesAfter, FilesAfter, NodesSize, Allotted, Accepted,
      AddressSpaces.Valid, H.Canonical, FilesApart, ProcAt;
    R.Booted(spaces.Tabled(), spaces.ram[..], spaces.procs, init);
    var st := State(T.Started(first, records, init.entry), R.Seen(spaces), map[1 := R.Fresh], first);
    SoundSeen(spaces);
    SeenIs(spaces);
    FilesThree(spaces.devconsole);
    FirstApart(first, records, hs, init, bs, spaces.devconsole, spaces.devfb);
    StartsInOrder(st, records, init.entry);
    StartedIs(first, records, init.entry);
  }

  lemma StackStays(lo: nat, hi: nat, before: map<nat, Owner>, m: Mem, k: Layout)
    requires OwnersStay(before, m.owner) && forall x: nat :: lo <= x < hi ==> FrameOf(x) in before
    requires k.bootLow == lo && k.boot == hi && FrameOf(k.idle) in m.owner && m.owner[FrameOf(k.idle)] == Kernel
    ensures OwnsKernel(k, m)
  {
  }

  lemma SeenIs(spaces: AddressSpaces)
    ensures var s := R.Seen(spaces); s.m == spaces.Tabled() && s.m.owner == spaces.owner && s.ram == spaces.ram[..] && s.procs == spaces.procs && s.nodes == spaces.Nodes()
  {
  }

  lemma SoundSeen(spaces: AddressSpaces)
    requires spaces.Valid()
    ensures R.Sound(R.Seen(spaces))
  {
    hide Core, SpacesOk;
  }

  /** The records of the first process come from the heap its image left. */
  lemma FirstApart(first: Ptr, records: seq<u32>, hs: seq<B.Block>, img: Image, bs: seq<B.Block>, console: Node, fb: Node)
    requires H.Canonical(hs) && Accepted(img) && !BootStops(bs, hs, img, console, fb)
    requires records == RecordsAfter(Allotted(hs, NodesSize(img)), console, 3)
    ensures FilesApart(map[first := records], NodesAfter(Allotted(hs, NodesSize(img)), console, 3))
  {
    hide H.Canonical, H.Bytes, LoadStops, OpensReturn, RecordsAfter, NodesAfter, Allotted, NodesSize, Accepted, BytesBehind;
    R.ExecHeap(hs, P.AllocatedRest(bs, KSTACK_SIZE), img);
    OpensFresh(Allotted(hs, NodesSize(img)), console, fb, 3);
  }

  lemma StartsInOrder(st: State, records: seq<u32>, entry: u32)
    requires st.init != NULL && |records| <= MAXFILES && st.a == T.Started(st.init, records, entry) && ProcAt(st.init)
    requires Records(records, |records|) && FilesApart(map[st.init := records], st.s.nodes)
    requires R.Sound(st.s) && R.Orderly(st.s.procs, st.phases) && st.s.procs.Keys == {1} && |st.s.procs[1].files| == |records|
    requires FrameOf(st.init) in st.s.m.owner && st.s.m.owner[FrameOf(st.init)] == Kernel
    ensures InOrder(st)
  {
    hide R.Sound, R.Orderly, FilesApart, S.Placed, S.FilesOk;
    T.BootGoes(st.init, records, entry);
    S.BootedInvariant(st.init, |records|);
    S.StepInvariant(S.Booted(st.init, |records|), S.Dispatch, st.init);
    StartedIs(st.init, records, entry);
  }

  lemma StartedIs(first: Ptr, records: seq<u32>, entry: u32)
    requires first != NULL && |records| <= MAXFILES
    ensures T.Started(first, records, entry).sys ==
      S.System([], first, S.Running, map[first := S.RUNNING], map[first := 1], map[first := |records|], 1)
    ensures T.Started(first, records, entry).users == map[first := T.FirstUser(entry)]
    ensures T.Started(first, records, entry).records == map[first := records]
  {
    var b := S.Booted(first, |records|);
    assert S.Ready(b.state, first);
    assert S.FirstReady(b.queue, b.state) == 0 && Removed(b.queue, 0) == [];
  }

  /** A history of states in which each event is a move. */
  ghost predicate Linked(h: seq<State>, es: seq<Event>, rs: seq<Answer>) {
    && |h| == |rs| + 1 && |rs| <= |es| && InOrder(h[0])
    && forall i, j {:trigger h[i], h[j]} :: 0 <= i < |rs| && j == i + 1 ==> Moves(h[i], es[i], rs[i], h[j])
  }

  lemma LinkedOneMore(h: seq<State>, es: seq<Event>, rs: seq<Answer>, r: Answer, t: State)
    requires Linked(h, es, rs) && |rs| < |es| && Moves(h[|rs|], es[|rs|], r, t)
    ensures Linked(h + [t], es, rs + [r])
  {
    hide Moves, InOrder;
    var h' := h + [t];
    forall i, j | 0 <= i < |rs| + 1 && j == i + 1
      ensures Moves(h'[i], es[i], (rs + [r])[i], h'[j])
    {
      if i < |rs| {
        assert Moves(h[i], es[i], rs[i], h[j]);
      }
    }
  }

  /** How a run ends before its last event: by an event that is not allowed, that ends it, or that stops the kernel. */
  ghost predicate Over(k: Layout, st: State, e: Event, n: T.Noise) {
    T.Going(st.a) && (!Allowed(k, st, e, n) || Ends(st.a, e) || Crashes(st, e))
  }

  /**
    Every run from boot. Each event does to registers, run queue, memory and page tables exactly what `Moves` says;
    the run ends early just at an event that is outside the discipline, ends the run or stops the kernel.
   */
  method Run(spaces: AddressSpaces, lay: Layout, r: Regs, mem: TrapFrames.Memory, init: Image, js: Junk, es: seq<Event>, ns: seq<T.Noise>)
    returns (kernel: T.Kernel, rs: seq<Answer>, ghost h: seq<State>)
    requires spaces.Valid() && spaces.procs == map[] && R.GoodFile(init)
    requires Linkage(lay) && r.esp == lay.boot && Fits(js, lay.bootLow, lay.boot)
    requires forall x: nat :: lay.bootLow <= x < lay.boot ==> FrameOf(x) in spaces.owner
    requires |ns| == |es| && forall i :: 0 <= i < |es| && es[i].Trap? ==> R.GoodFile(es[i].x.img)
    modifies spaces, spaces.alloc, spaces.alloc.freelist, spaces.heap, spaces.heap.heap, spaces.ram
    ensures h == [] <==> BootStops(old(spaces.Free()), old(spaces.Nodes()), init, spaces.devconsole, spaces.devfb)
    ensures h != [] ==> Linked(h, es, rs) && Begins(h[0], init, spaces.devconsole)
    ensures h != [] && |rs| < |es| ==> Over(kernel.m.k, h[|rs|], es[|rs|], ns[|rs|])
    ensures h != [] && (|rs| == |es| || !Allowed(kernel.m.k, h[|rs|], es[|rs|], ns[|rs|])) ==>
      Embodies(kernel, spaces, h[|rs|]) && R.Isolated(spaces.Tabled(), spaces.procs)
  {
    hide Fits, BootStops, Begins, Linked, Moves, Ends, Crashes, Allowed, AddressSpaces.Valid, Linkage, R.GoodFile, Embodies, R.Isolated;
    rs, h := [], [];
    var ok;
    ghost var st;
    ok, kernel, st := Boot(spaces, lay, r, mem, init, js);
    if !ok {
      return;
    }
    h := [st];
    LinkedOne(st, es, init, spaces.devconsole);
    var phases := map[1 := R.Fresh];
    while |rs| < |es|
      invariant |h| == |rs| + 1 && |rs| <= |es| && Linked(h, es, rs) && Begins(h[0], init, spaces.devconsole)
      invariant Embodies(kernel, spaces, h[|rs|]) && phases == h[|rs|].phases
      invariant fresh(kernel) && fresh(kernel.m) && fresh(kernel.queue)
      decreases |es| - |rs|
    {
      ghost var now := h[|rs|];
      var allowed := Permits(kernel, spaces, phases, es[|rs|], ns[|rs|], now);
      if !allowed {
        NowIsolated(kernel, spaces, now);
        return;
      }
      var goes, ans;
      ghost var t;
      goes, ans, phases, t := Step(kernel, spaces, es[|rs|], ns[|rs|], phases, now);
      if !goes {
        return;
      }
      LinkedOneMore(h, es, rs, ans, t);
      h := h + [t];
      rs := rs + [ans];
    }
    NowIsolated(kernel, spaces, h[|rs|]);
  }

  /** The words of the kernel tell whether the next event is allowed. */
  method Permits(kernel: T.Kernel, spaces: AddressSpaces, phases: map<nat, R.Phase>, e: Event, n: T.Noise, ghost st: State)
    returns (allowed: bool)
    requires Embodies(kernel, spaces, st) && phases == st.phases
    ensures T.Going(st.a) && allowed == Allowed(kernel.m.k, st, e, n)
  {
    hide T.World, TailQueue.Valid, AddressSpaces.Valid, InOrder, Allows;
    StateKnown(kernel, spaces, st);
    var p := kernel.curthread;
    allowed := Allows(kernel.m.k, p, W(kernel.m.mem, p), kernel.m.r, kernel.nextPid, W(kernel.m.mem, p + STATE) == RUNNING,
                      spaces.procs, phases, e, n);
  }

  /** What the words of the kernel say of the state. */
  lemma StateKnown(kernel: T.Kernel, spaces: AddressSpaces, st: State)
    requires Embodies(kernel, spaces, st)
    ensures var p := kernel.curthread;
      && T.Going(st.a) && p == st.a.sys.cur && W(kernel.m.mem, p) == Pid(st.a) && kernel.m.r == T.Current(st.a)
      && kernel.nextPid == S.NextPid(st.a.sys.issued) && (W(kernel.m.mem, p + STATE) == RUNNING <==> Intact(st.a))
      && spaces.procs == st.s.procs
  {
    hide T.World, TailQueue.Valid, AddressSpaces.Valid, InOrder, T.FilesAre;
    kernel.Known(st.a);
    T.StateWord(kernel.m.mem, kernel.curthread, st.a.sys.state[st.a.sys.cur]);
  }

  lemma LinkedOne(st: State, es: seq<Event>, init: Image, console: Node)
    requires Begins(st, init, console)
    ensures Linked([st], es, []) && st.phases == map[1 := R.Fresh]
  {
    hide InOrder;
  }

  lemma NowIsolated(kernel: T.Kernel, spaces: AddressSpaces, st: State)
    requires Embodies(kernel, spaces, st)
    ensures R.Isolated(spaces.Tabled(), spaces.procs)
  {
    hide T.World, R.Isolated, Core, SpacesOk, InOrder;
    R.SpacesIsolated(spaces.Tabled(), spaces.procs);
  }

  // ---------- file records on the machine

  /** The descriptors on the machine hold the records of the state. */
  lemma DescriptorsAre(kernel: T.Kernel, spaces: AddressSpaces, st: State, q: Ptr)
    requires Embodies(kernel, spaces, st) && q in st.a.sys.state
    ensures q in st.a.records && T.FilesAre(kernel.m.mem, q, st.a.records[q])
  {
    hide TailQueue.Valid, AddressSpaces.Valid, R.Sound, R.Orderly, S.Invariant, FilesApart, Parked, T.FilesAre, Placed, LayoutOk, IdleParked,
      S.FilesOk;
    ApartNow(st);
    Known(st);
    KeysAre(st.a.sys);
    assert T.Held(kernel.m.k, kernel.m.mem, q, st.a.users[q], st.a.sys.pid[q], st.a.records[q], st.a.sys.state[q], T.LeftFor(kernel.left, q));
  }

  /** No file record is in two descriptors, of one process or of two. */
  lemma DescriptorsUnshared(kernel: T.Kernel, spaces: AddressSpaces, st: State, q: Ptr, i: nat, r: Ptr, j: nat)
    requires Embodies(kernel, spaces, st) && q in st.a.sys.state && r in st.a.sys.state && i < MAXFILES && j < MAXFILES
    requires Descriptor(kernel.m.mem, q, i) == Descriptor(kernel.m.mem, r, j) != 0
    ensures q == r && i == j
  {
    hide InOrder, T.Kernel.Represents, AddressSpaces.Valid, OwnsKernel, Descriptor;
    DescriptorsAre(kernel, spaces, st, q);
    DescriptorsAre(kernel, spaces, st, r);
    ApartNow(st);
    var x, y := st.a.records[q][i], st.a.records[r][j];
    assert x - 2 in BytesBehind(x, FILE) && BytesBehind(x, FILE) == BytesBehind(y, FILE);
  }

  /**
    A fork gives the child as many records as its parent has files, an open one more: the blocks the kernel heap hands out
    at that call. They were free before, are not free afterwards, and no other process's records change.
   */
  lemma RecordsGiven(st: State, x: Request, ans: Answer, t: State)
    requires Moves(st, Trap(x), ans, t) && ans.r != Returned(-1)
    ensures Pid(st.a) in st.s.procs && st.a.sys.cur as nat in st.a.records
    ensures T.Index(T.Current(st.a).eax) == 2 ==>
      var c, n, hs := ThreadOn(ans.page), FilesNow(st.a), AllottedAll(st.s.nodes, NODE, |st.s.procs[Pid(st.a)].regions|);
      && c !in st.a.records && c in t.a.records && |t.a.records[c]| == n && t.a.records == st.a.records[c := t.a.records[c]]
      && t.a.records[c] == AllotsAt(hs, FILE, n) && NewBlocks(st.s.nodes, t.s.nodes, FILE, t.a.records[c])
    ensures T.Index(T.Current(st.a).eax) == 5 ==>
      var p := st.a.sys.cur;
      && p in t.a.records && t.a.records == st.a.records[p := t.a.records[p]]
      && t.a.records[p] == st.a.records[p] + [AllotAt(st.s.nodes, FILE)]
      && NewBlocks(st.s.nodes, t.s.nodes, FILE, [AllotAt(st.s.nodes, FILE)])
  {
    hide R.Orderly, FilesApart, InOrder, T.Served, R.Sound, R.NextPhases, T.WellFormed, NewBlocks, AllotsAt, AllottedAll, AllotAt, Moves, Answered;
    TrapServed(st, x, ans, t);
    MovesOrder(st, Trap(x), ans, t);
    ApartNow(st);
    AnsweredFiles(st.s, st.phases, AskOf(st.a, Trap(x)), ans, t.s, t.phases);
    AnsweredRecords(st.s, st.phases, AskOf(st.a, Trap(x)), ans, t.s, t.phases);
    ServedRecords(st.a, Served(T.Current(st.a), FilesNow(st.a), x, ans));
    if T.Index(T.Current(st.a).eax) == 2 {
      ThreadPage(ans.page);
    }
  }

  lemma ServedRecords(a: T.Processes, s: T.Service)
    requires T.WellFormed(a) && T.Going(a) && T.Index(T.Current(a).eax) < CALLS
    requires T.Index(T.Current(a).eax) == 2 ==> Intact(a) && s.child !in a.sys.state && s.child != 0
    ensures T.Index(T.Current(a).eax) == 2 && s.forks ==> T.Served(a, s).records == a.records[s.child := s.records]
    ensures T.Index(T.Current(a).eax) == 5 && s.opens && FilesNow(a) <= MAXFILES ==>
      T.Served(a, s).records == a.records[a.sys.cur := a.records[a.sys.cur] + s.records]
  {
    hide S.FilesOk, S.Placed;
    if T.Index(T.Current(a).eax) == 2 {
      Forks(a, s.child);
    }
  }

  lemma AnsweredRecords(s: R.Snapshot, phases: map<nat, R.Phase>, ask: Asked, ans: Answer, s': R.Snapshot, phases': map<nat, R.Phase>)
    requires Answered(s, phases, ask, ans, s', phases')
    ensures ask.Asks? && (ask.c.Fork? || ask.c.Open?) && ans.r != Returned(-1) ==> R.Recorded(s, ask.c, s', ans.records)
  {
    hide R.Sound, R.OthersSee, R.NextPhases, R.Recorded, Forked;
  }

  // ---------- what a call leaves in registers

  /** A call that returns to its caller leaves there the answer, modulo 2^32, and touches no other register of anybody. */
  lemma CallReturns(st: State, x: Request, ans: Answer, t: State)
    requires Moves(st, Trap(x), ans, t) && T.Index(T.Current(st.a).eax) != 1 && T.Index(T.Current(st.a).eax) != 8
    ensures var i, u := T.Index(T.Current(st.a).eax), T.Current(st.a);
      && (i == 2 || i == 3 || i == 5 || i == 9 ==> ans.r.Returned? && ReturnsWith(st.a, t.a, ans.r.value % U32))
      && (i == 4 ==> ReturnsWith(st.a, t.a, if u.ebx < FilesNow(st.a) then 0 else 0xFFFF_FFFF) && t.s == st.s)
      && (i == 0 || i == 6 || i == 7 ==> t.a == st.a && t.s == st.s)
  {
    hide R.Orderly, T.WellFormed, FilesApart, InOrder, Moves, T.Served, Served, Answered, R.Sound, T.Index;
    TrapServed(st, x, ans, t);
    var u, n := T.Current(st.a), FilesNow(st.a);
    AnswerIs(st.s, st.phases, AskOf(st.a, Trap(x)), ans, t.s, t.phases);
    AnsweredFiles(st.s, st.phases, AskOf(st.a, Trap(x)), ans, t.s, t.phases);
    ServedReturns(st.a, Served(u, n, x, ans));
    ServiceIs(u, n, x, ans);
  }

  /** The caller goes on with a value in eax; all other registers of all processes stay. */
  ghost predicate ReturnsWith(a: T.Processes, b: T.Processes, eax: u32)
    requires T.Going(a)
  {
    && T.Going(b) && b.sys.cur == a.sys.cur && T.Current(b) == T.Current(a).(eax := eax)
    && forall q :: q in a.users && q != a.sys.cur ==> q in b.users && b.users[q] == a.users[q]
  }

  lemma ServiceIs(u: Regs, n: nat, x: Request, ans: Answer)
    ensures var s, i := Served(u, n, x, ans), T.Index(u.eax);
      && s.forks == s.opens == (ans.r != Returned(-1))
      && (i == 4 ==> s.ret == if u.ebx < n then 0 else 0xFFFF_FFFF)
      && (i != 4 && ans.r.Returned? ==> s.ret == ans.r.value % U32)
  {
  }

  /** A system call in a run is served, and meets what the machine needs for that. */
  lemma TrapServed(st: State, x: Request, ans: Answer, t: State)
    requires Moves(st, Trap(x), ans, t)
    ensures T.Going(st.a) && T.WellFormed(st.a) && T.Index(T.Current(st.a).eax) < CALLS && R.Sound(st.s)
    ensures var s := Served(T.Current(st.a), FilesNow(st.a), x, ans);
      t.a == T.Served(st.a, s) && (T.Index(T.Current(st.a).eax) == 2 ==> Intact(st.a) && s.child !in st.a.sys.state && s.child != 0)
    ensures Pid(st.a) in st.s.procs && FilesNow(st.a) == |st.s.procs[Pid(st.a)].files|
    ensures Answered(st.s, st.phases, AskOf(st.a, Trap(x)), ans, t.s, t.phases)
  {
    hide R.Orderly, FilesApart, InOrder, T.Served, R.Sound, R.Transition, R.NextPhases, R.Recorded, T.WellFormed, T.Regular;
    MovesOrder(st, Trap(x), ans, t);
    Known(st);
    SoundNow(st);
    if T.Index(T.Current(st.a).eax) == 2 {
      ThreadPage(ans.page);
    }
  }

  lemma ServedReturns(a: T.Processes, s: T.Service)
    requires T.WellFormed(a) && T.Going(a) && T.Index(T.Current(a).eax) < CALLS
    requires T.Index(T.Current(a).eax) == 2 ==> Intact(a) && s.child !in a.sys.state && s.child != 0
    ensures var b, i := T.Served(a, s), T.Index(T.Current(a).eax);
      i != 1 && i != 8 ==>
        && (i == 2 ==> ReturnsWith(a, b, if s.forks then S.NextPid(a.sys.issued) else 0xFFFF_FFFF))
        && (i == 5 ==> ReturnsWith(a, b, if s.opens && FilesNow(a) <= MAXFILES then FilesNow(a) else 0xFFFF_FFFF))
        && (i == 3 || i == 4 || i == 9 ==> ReturnsWith(a, b, s.ret))
        && (i == 0 || i == 6 || i == 7 ==> b == a)
  {
    hide S.FilesOk, S.Placed, T.RecordsOk, S.Next, S.Opened, T.WithChild;
    OpenGoes(a, s.records);
    if T.Index(T.Current(a).eax) == 2 {
      ForkGoes(a, s);
      ForkRegisters(a, s);
    }
  }

  lemma ForkRegisters(a: T.Processes, s: T.Service)
    requires T.WellFormed(a) && T.Going(a) && T.Index(T.Current(a).eax) == 2 && Intact(a) && s.child !in a.sys.state
    ensures var b, p := T.Served(a, s), a.sys.cur;
      && b.sys.cur == p && p in b.users && forall q :: q in a.users && q != p ==> q in b.users && b.users[q] == a.users[q]
    ensures T.Served(a, s).users[a.sys.cur] == T.Current(a).(eax := if s.forks then S.NextPid(a.sys.issued) else 0xFFFF_FFFF)
  {
    hide S.FilesOk;
    assert a.sys.cur in a.sys.state && s.child != a.sys.cur;
  }

  lemma AnswerIs(s: R.Snapshot, phases: map<nat, R.Phase>, ask: Asked, ans: Answer, s': R.Snapshot, phases': map<nat, R.Phase>)
    requires Answered(s, phases, ask, ans, s', phases')
    ensures ask == Nothing ==> s' == s && ans.r == Returned(0)
    ensures ask.Asks? && !ask.c.Exec? ==> ans.r.Returned?
  {
    hide R.OthersSee, Loaded, Mapped, Forked, R.Sound, R.StoredOne, R.StoredMany, R.NextPhases, R.Recorded;
  }

  /**
    After a successful `execve` the process has exactly the entry and stack pointer of its new address space, in its
    own other registers; it runs on if nobody else is ready and otherwise waits last. After a failed one it runs on
    with minus one, and nothing it can see has changed.
   */
  lemma ExecResumes(st: State, x: Request, ans: Answer, t: State)
    requires Moves(st, Trap(x), ans, t) && T.Index(T.Current(st.a).eax) == 8
    ensures var p, pid, u, j := st.a.sys.cur, Pid(st.a), T.Current(st.a), |T.Waiting(st.a)|;
      && pid in t.s.procs && p in t.a.users
      && var v, space := t.a.users[p], t.s.procs[pid];
        if x.found && Accepted(x.img) then
          && v.eip == space.eip == x.img.entry && v.esp == space.esp == KERNEL_OFFSET
          && v == u.(eip := v.eip, esp := v.esp, eax := v.eax) && Loaded(t.s.m, t.s.ram, space, x.img)
          && (Intact(st.a) ==> if j == 0 then T.Resumed(t.a, p, v) else T.InPlace(t.a, p, j - 1, v))
        else
          T.Resumed(t.a, p, u.(eax := 0xFFFF_FFFF)) && R.SameView(st.s, t.s, pid)
  {
    hide R.Orderly, T.WellFormed, FilesApart, InOrder, Moves, T.Served, Answered, R.Sound, T.Index, T.InPlace, T.Resumed, R.SameView,
      Loaded, Accepted, T.Switched;
    TrapServed(st, x, ans, t);
    ExecAnswer(st.s, st.phases, AskOf(st.a, Trap(x)), ans, t.s, t.phases);
    ExecMemory(st.s, st.phases, AskOf(st.a, Trap(x)), ans, t.s, t.phases, Pid(st.a));
    var s := Served(T.Current(st.a), FilesNow(st.a), x, ans);
    ExecServed(st.a, s);
    if s.loads {
      ExecTurn(st.a, s);
    } else {
      ResumedNow(T.Updated(st.a, T.Current(st.a).(eax := 0xFFFF_FFFF)));
    }
  }

  lemma ExecServed(a: T.Processes, s: T.Service)
    requires T.Going(a) && T.Index(T.Current(a).eax) == 8
    ensures T.Served(a, s) ==
      if s.loads then T.Switched(T.Updated(a, T.NewProgram(T.Current(a), s)), S.Exec(true))
      else T.Updated(a, T.Current(a).(eax := 0xFFFF_FFFF))
  {
    hide T.Switched;
  }

  lemma ResumedNow(a: T.Processes)
    requires T.Going(a)
    ensures T.Resumed(a, a.sys.cur, T.Current(a))
  {
  }

  lemma ExecMemory(s: R.Snapshot, phases: map<nat, R.Phase>, ask: Asked, ans: Answer, s': R.Snapshot, phases': map<nat, R.Phase>, pid: nat)
    requires Answered(s, phases, ask, ans, s', phases') && pid in s.procs
    ensures ask.Asks? && ask.c.Exec? && ask.c.pid == pid ==>
      if Accepted(ask.c.img) then pid in s'.procs && Loaded(s'.m, s'.ram, s'.procs[pid], ask.c.img)
      else R.SameView(s, s', pid)
    ensures ask.Asks? && ask.c.Exec? && ask.c.pid == pid && Accepted(ask.c.img) ==>
      s'.procs[pid].eip == ask.c.img.entry && s'.procs[pid].esp == KERNEL_OFFSET
    ensures ask == Nothing ==> R.SameView(s, s', pid)
    ensures R.SameView(s, s', pid) ==> pid in s'.procs
  {
    hide ReadsAs, SpaceShape, Loads, ReadByte, R.Sound, R.NextPhases;
    ViewSame(s, pid);
  }

  lemma ExecTurn(a: T.Processes, s: T.Service)
    requires T.WellFormed(a) && T.Going(a)
    ensures var b, p, v, j := T.Switched(T.Updated(a, T.NewProgram(T.Current(a), s)), S.Exec(true)), a.sys.cur,
        T.NewProgram(T.Current(a), s), |T.Waiting(a)|;
      && p in b.users && b.users[p] == v
      && (Intact(a) ==> if j == 0 then T.Resumed(b, p, v) else T.InPlace(b, p, j - 1, v))
  {
    hide S.Placed, S.FilesOk, S.ReadyQueue;
    var c := T.Updated(a, T.NewProgram(T.Current(a), s));
    S.StepPlaced(c.sys, S.Exec(true));
    S.StepIsFifo(c.sys, S.Exec(true));
    S.StepIsFifo(S.Next(c.sys, S.Exec(true)), S.Dispatch);
  }

  // ---------- a process that waits

  /** How often the processor has changed hands. */
  ghost function Turns(h: seq<State>, es: seq<Event>, rs: seq<Answer>): nat
    requires |h| == |rs| + 1 && |rs| <= |es|
    decreases |rs|
  {
    if rs == [] then 0
    else
      var n := |rs| - 1;
      Turns(h[..n + 1], es, rs[..n])
      + if T.Going(h[n].a) && T.HandsOver(h[n].a, ThreadEvent(h[n].a, es[n], rs[n])) then 1 else 0
  }

  lemma LinkedPrefix(h: seq<State>, es: seq<Event>, rs: seq<Answer>)
    requires Linked(h, es, rs) && rs != []
    ensures var n := |rs| - 1;
      Linked(h[..n + 1], es, rs[..n]) && Moves(h[n], es[n], rs[n], h[n + 1]) && T.Going(h[n].a)
  {
    hide Moves, InOrder, T.Going;
    var n := |rs| - 1;
    assert Moves(h[n], es[n], rs[n], h[n + 1]);
    MovesOrder(h[n], es[n], rs[n], h[n + 1]);
    var h', rs' := h[..n + 1], rs[..n];
    forall i, j {:trigger h'[i], h'[j]} | 0 <= i < n && j == i + 1
      ensures Moves(h'[i], es[i], rs'[i], h'[j])
    {
      assert Moves(h[i], es[i], rs[i], h[j]);
    }
  }

  /** Thread `q` with pid `pid` waits in place `j`, and nothing it could see differs from `s`. */
  ghost predicate WaitsIntact(s: R.Snapshot, st: State, q: Ptr, pid: nat, j: nat, u: Regs) {
    T.InPlace(st.a, q, j, u) && q in st.a.sys.pid && st.a.sys.pid[q] == pid && R.SameView(s, st.s, pid)
  }

  /** What another process does changes neither registers nor memory of one that waits. */
  lemma StepIntact(s: R.Snapshot, st: State, e: Event, ans: Answer, t: State, q: Ptr, pid: nat, j: nat, u: Regs)
    requires Moves(st, e, ans, t) && WaitsIntact(s, st, q, pid, j, u)
    ensures var hands := T.HandsOver(st.a, ThreadEvent(st.a, e, ans));
      && (!hands ==> WaitsIntact(s, t, q, pid, j, u))
      && (hands && j > 0 ==> WaitsIntact(s, t, q, pid, j - 1, u))
      && (hands && j == 0 ==> T.Resumed(t.a, q, u) && R.SameView(s, t.s, pid))
  {
    hide InOrder, Answered, T.After, T.HandsOver, T.NewBorn, R.SameView, T.InPlace, T.WellFormed, Bare;
    MovesOrder(st, e, ans, t);
    Known(st);
    Known(t);
    T.NotCurrent(st.a, q, j, u);
    T.StepTurn(st.a, ThreadEvent(st.a, e, ans), q, j, u);
    PidKept(st, e, ans, t, q);
    ViewIntact(st, e, ans, t, q);
    ViewTransitive(s, st.s, t.s, pid);
  }

  /** Pids stay. */
  lemma PidKept(st: State, e: Event, ans: Answer, t: State, q: Ptr)
    requires Moves(st, e, ans, t) && q in st.a.sys.state && q in st.a.sys.pid
    ensures q in t.a.sys.pid && t.a.sys.pid[q] == st.a.sys.pid[q]
  {
    hide FilesApart, T.RecordsOk, T.After, Tied, R.Sound, R.Orderly, Answered, Bare, S.Next;
    Known(st);
    AfterPid(st.a, ThreadEvent(st.a, e, ans), q);
  }

  lemma AfterPid(a: T.Processes, e: T.Event, q: Ptr)
    requires T.WellFormed(a) && T.Going(a) && T.NewBorn(a, e) && q in a.sys.state && q in a.sys.pid
    ensures q in T.After(a, e).sys.pid && T.After(a, e).sys.pid[q] == a.sys.pid[q]
  {
    hide S.FilesOk, T.Regular, T.SegmentsOk, S.Placed, S.FirstReady, T.WellFormed;
    SwitchedSame(a, S.Yield);
    SwitchedSame(a, S.Exit);
    if e.Trap? {
      T.UpdatedWellFormed(a, T.NewProgram(T.Current(a), e.s));
      SwitchedSame(T.Updated(a, T.NewProgram(T.Current(a), e.s)), S.Exec(true));
      OpenedSame(a);
    }
  }

  lemma ViewIntact(st: State, e: Event, ans: Answer, t: State, q: Ptr)
    requires Moves(st, e, ans, t) && q in st.a.sys.state && q in st.a.sys.pid && q != st.a.sys.cur
    ensures R.SameView(st.s, t.s, st.a.sys.pid[q])
  {
    hide FilesApart, T.RecordsOk, T.After, T.NewBorn, R.SameView, Bare, Answered, InOrder;
    MovesOrder(st, e, ans, t);
    Known(st);
    OtherPid(st, q);
    AnswerViews(st.s, st.phases, AskOf(st.a, e), ans, t.s, t.phases, st.a.sys.pid[q]);
  }

  /** What one process asks for does not show to another. */
  lemma AnswerViews(s: R.Snapshot, phases: map<nat, R.Phase>, ask: Asked, ans: Answer, s': R.Snapshot, phases': map<nat, R.Phase>, pid: nat)
    requires Answered(s, phases, ask, ans, s', phases') && pid in s.procs && (ask.Asks? ==> ask.c.pid != pid)
    ensures R.SameView(s, s', pid)
  {
    hide R.Sound, R.SameView, Loaded, Mapped, Forked, R.StoredOne, R.StoredMany, R.NextPhases, R.NewStack;
    ViewSame(s, pid);
  }

  /** The pid of another thread names another address space. */
  lemma OtherPid(st: State, q: Ptr)
    requires InOrder(st) && q in st.a.sys.state && q in st.a.sys.pid && q != st.a.sys.cur
    ensures T.Going(st.a) && st.a.sys.pid[q] as nat in st.s.procs && st.a.sys.pid[q] != Pid(st.a)
  {
    hide FilesApart, T.RecordsOk, R.Sound, R.Orderly, S.FilesOk;
    KeysAre(st.a.sys);
  }

  lemma ViewSame(s: R.Snapshot, pid: nat)
    requires pid in s.procs
    ensures R.SameView(s, s, pid)
  {
  }

  lemma ViewTransitive(s0: R.Snapshot, s1: R.Snapshot, s2: R.Snapshot, pid: nat)
    requires R.SameView(s0, s1, pid) && R.SameView(s1, s2, pid)
    ensures R.SameView(s0, s2, pid)
  {
  }

  /** While others run, a waiting process keeps its registers, every byte of its memory, and its place but for the turns. */
  lemma {:induction false} KeptIntact(h: seq<State>, es: seq<Event>, rs: seq<Answer>, q: Ptr, pid: nat, j: nat, u: Regs)
    requires Linked(h, es, rs) && WaitsIntact(h[0].s, h[0], q, pid, j, u) && Turns(h, es, rs) <= j
    ensures WaitsIntact(h[0].s, h[|rs|], q, pid, j - Turns(h, es, rs), u)
    decreases |rs|
  {
    hide WaitsIntact, Moves, InOrder;
    if rs != [] {
      var n := |rs| - 1;
      LinkedPrefix(h, es, rs);
      KeptIntact(h[..n + 1], es, rs[..n], q, pid, j, u);
      StepIntact(h[0].s, h[n], es[n], rs[n], h[n + 1], q, pid, j - Turns(h[..n + 1], es, rs[..n]), u);
    }
  }

  /** The history ends with the (j+1)-th change of hands. */
  ghost predicate TurnCame(h: seq<State>, es: seq<Event>, rs: seq<Answer>, j: nat)
    requires |h| == |rs| + 1 && |rs| <= |es|
  {
    rs != [] && Turns(h, es, rs) == j + 1 && Turns(h[..|rs|], es, rs[..|rs| - 1]) == j
  }

  /**
    A process with `j` others before it resumes at the (j+1)-th change of hands, with the registers it had and with
    every byte of its memory as it was, whatever the others did meanwhile.
   */
  lemma ResumesIntact(h: seq<State>, es: seq<Event>, rs: seq<Answer>, q: Ptr, pid: nat, j: nat, u: Regs)
    requires Linked(h, es, rs) && T.InPlace(h[0].a, q, j, u) && q in h[0].a.sys.pid && h[0].a.sys.pid[q] == pid
    requires TurnCame(h, es, rs, j)
    ensures T.Resumed(h[|rs|].a, q, u) && R.SameView(h[0].s, h[|rs|].s, pid)
  {
    hide WaitsIntact, Moves, InOrder, T.InPlace, R.SameView, T.HandsOver, T.Resumed;
    var n := |rs| - 1;
    StartsIntact(h[0], q, pid, j, u);
    LinkedPrefix(h, es, rs);
    KeptIntact(h[..n + 1], es, rs[..n], q, pid, j, u);
    StepIntact(h[0].s, h[n], es[n], rs[n], h[n + 1], q, pid, 0, u);
  }

  lemma StartsIntact(st: State, q: Ptr, pid: nat, j: nat, u: Regs)
    requires InOrder(st) && T.InPlace(st.a, q, j, u) && q in st.a.sys.pid && st.a.sys.pid[q] == pid
    ensures WaitsIntact(st.s, st, q, pid, j, u)
  {
    hide R.Sound, R.Orderly, T.InPlace, R.SameView;
    Known(st);
    T.NotCurrent(st.a, q, j, u);
    OtherPid(st, q);
    ViewSame(st.s, pid);
  }

  /** Directory `pd'` of `s'` reads as `pd` of `s` at every user address. */
  ghost predicate SameBytes(s: R.Snapshot, pd: nat, s': R.Snapshot, pd': nat) {
    forall x :: 0 <= x < KERNEL_OFFSET ==> ReadByte(s'.m, s'.ram, pd', x) == ReadByte(s.m, s.ram, pd, x)
  }

  /**
    `fork` duplicates a process: the parent goes on with the child's pid in eax; and the child, when all that waited
    before it have had their turn, starts with the parent's registers but zero in eax, and with every byte of
    memory as the parent had it at the call, whatever parent and others have done since.
   */
  lemma ForkDuplicates(st: State, x: Request, ans: Answer, h: seq<State>, es: seq<Event>, rs: seq<Answer>)
    requires Linked(h, es, rs) && Moves(st, Trap(x), ans, h[0]) && ans.r != Returned(-1)
    requires T.Index(T.Current(st.a).eax) == 2 && TurnCame(h, es, rs, |T.Waiting(st.a)|)
    ensures var a, u, b, t, pid := st.a, T.Current(st.a), h[0].a, h[|rs|], S.NextPid(st.a.sys.issued);
      && b.sys.cur == a.sys.cur && T.Going(b) && T.Current(b) == u.(eax := pid)
      && T.Resumed(t.a, ThreadOn(ans.page), u.(eax := 0))
      && pid as nat in t.s.procs && Pid(a) in st.s.procs
      && SameBytes(st.s, st.s.procs[Pid(a)].pd, t.s, t.s.procs[pid].pd)
  {
    hide InOrder, Moves, TurnCame, T.InPlace, SameBytes, R.SameView, T.Resumed, T.Waiting;
    MovesOrder(st, Trap(x), ans, h[0]);
    ForkAnswer(st, x, ans, h[0]);
    BytesThenView(st.s, st.s.procs[Pid(st.a)].pd, h[0].s, S.NextPid(st.a.sys.issued), h[|rs|].s);
    ResumesIntact(h, es, rs, ThreadOn(ans.page), S.NextPid(st.a.sys.issued), |T.Waiting(st.a)|, T.Current(st.a).(eax := 0));
  }

  lemma BytesThenView(s: R.Snapshot, pd: nat, s': R.Snapshot, pid: nat, s'': R.Snapshot)
    requires pid in s'.procs && SameBytes(s, pd, s', s'.procs[pid].pd)
    ensures R.SameView(s', s'', pid) ==> pid in s''.procs && SameBytes(s, pd, s'', s''.procs[pid].pd)
  {
    hide ReadByte;
  }

  lemma ForkAnswer(st: State, x: Request, ans: Answer, t: State)
    requires Moves(st, Trap(x), ans, t) && ans.r != Returned(-1) && T.Index(T.Current(st.a).eax) == 2
    ensures var a, u, b, q, pid := st.a, T.Current(st.a), t.a, ThreadOn(ans.page), S.NextPid(st.a.sys.issued);
      && b.sys.cur == a.sys.cur && T.Going(b) && T.Current(b) == u.(eax := pid)
      && T.InPlace(b, q, |T.Waiting(a)|, u.(eax := 0)) && q in b.sys.pid && b.sys.pid[q] == pid
      && pid as nat in t.s.procs && Pid(a) in st.s.procs && SameBytes(st.s, st.s.procs[Pid(a)].pd, t.s, t.s.procs[pid].pd)
  {
    hide FilesApart, T.RecordsOk, R.Sound, R.Orderly, T.WellFormed, T.InPlace, T.Waiting, T.Served, S.Invariant, Tied, ReadByte, R.OthersSee;
    Known(st);
    ThreadPage(ans.page);
    T.ChildInPlace(st.a, Served(T.Current(st.a), FilesNow(st.a), x, ans));
    ForkBytes(st, x, ans, t);
  }

  lemma ForkBytes(st: State, x: Request, ans: Answer, t: State)
    requires Moves(st, Trap(x), ans, t) && ans.r != Returned(-1) && T.Index(T.Current(st.a).eax) == 2
    ensures var pid := S.NextPid(st.a.sys.issued);
      pid as nat in t.s.procs && Pid(st.a) in st.s.procs && SameBytes(st.s, st.s.procs[Pid(st.a)].pd, t.s, t.s.procs[pid].pd)
  {
    hide FilesApart, T.RecordsOk, R.Sound, R.Orderly, T.After, S.Invariant, Tied, ReadByte, R.OthersSee, Walk, Separate;
  }
}
