/**
  Processes on the machine: the system call table of kernel/interrupt.S, `yield`, `scheduler`, `sys_fork`,
  `sys_execve`, `sys_exit` of kernel/proc.c with the run queue and the state words. Whole runs of user code,
  timer interrupts and system calls are carried out exactly on the user registers of every process.
 */
module Threads {
  import opened Words
  import opened IntrusiveLists
  import opened TrapFrames
  import opened ProcLayout
  import S = Scheduler

  // ---------- the system call table

  /** The address `jmp *tbl_syscall(, %eax, 4)` loads its target from. */
  function Slot(k: Layout, eax: u32): u32 {
    (k.table + 4 * eax) % U32
  }

  predicate InTable(k: Layout, a: u32) {
    k.table <= a < k.table + 4 * CALLS
  }

  /** The table entry a number selects, if it selects one. */
  function Index(eax: u32): nat {
    eax % 0x4000_0000
  }

  /** The load hits the table exactly for ten numbers modulo 2^30, because the address is computed in 32 bits. */
  lemma TableHit(k: Layout, eax: u32)
    requires k.table + 4 * CALLS <= U32
    ensures InTable(k, Slot(k, eax)) <==> eax % 0x4000_0000 <= 9
    ensures Index(eax) < CALLS <==> eax % 0x4000_0000 <= 9
    ensures Index(eax) < CALLS ==> Slot(k, eax) == k.table + 4 * Index(eax)
  {
    assert 4 * eax == 4 * Index(eax) + U32 * (eax / 0x4000_0000);
    Wrapped(k.table + 4 * Index(eax), eax / 0x4000_0000);
  }

  lemma Wrapped(x: int, n: int)
    ensures (x + U32 * n) % U32 == x % U32
  {
    DivisionIsUnique(U32, x / U32 + n, x % U32, (x + U32 * n) / U32, (x + U32 * n) % U32);
  }

  /** A number far above nine that makes the `fork` call. */
  lemma HighNumberForks(k: Layout)
    requires k.table + 4 * CALLS <= U32
    ensures Slot(k, 0x4000_0002) == Slot(k, 2) == k.table + 8
  {
    TableHit(k, 0x4000_0002);
    TableHit(k, 2);
  }

  /** The registers the stub of entry `i` pushes as arguments, lowest address first. */
  function StubArgs(i: nat, r: Regs): seq<u32> {
    if i == 1 then [r.ecx]
    else if i == 3 || i == 4 || i == 5 || i == 8 then [r.ebx, r.ecx, r.edx]
    else if i == 9 then [r.edi, r.esi, r.ebp, r.ebx, r.edx, r.ecx]
    else []
  }

  // ---------- the library's side of a call

  /** The number of parameters the library declares for call `i`. */
  function Arity(i: nat): nat {
    if i == 1 then 1 else if i == 3 || i == 4 || i == 5 || i == 8 then 3 else if i == 9 then 6 else 0
  }

  /** The calls the library has a stub for. */
  predicate HasStub(i: nat) {
    1 <= i <= 5 || i == 8 || i == 9
  }

  /** The registers at `int $0x80` in the library's stub for call `i`, entered with registers `r` and stack `mem`. */
  function StubCall(i: nat, r: Regs, mem: Memory): Regs
    requires HasStub(i) && r.esp >= 16
  {
    if i == 1 then r.(eax := 1, ecx := W(mem, r.esp + 4))
    else if i == 2 then r.(eax := 2)
    else if i == 9 then
      var pushed := Put(Put(Put(Put(mem, r.esp - 4, r.ebp), r.esp - 8, r.ebx), r.esp - 12, r.esi), r.esp - 16, r.edi);
      var sp: u32 := r.esp - 16;
      r.(esp := sp, eax := 9, ecx := W(pushed, sp + 40), edx := W(pushed, sp + 36), ebx := W(pushed, sp + 32),
         ebp := W(pushed, sp + 28), esi := W(pushed, sp + 24), edi := W(pushed, sp + 20))
    else r.(eax := i, edx := W(mem, r.esp + 12), ecx := W(mem, r.esp + 8), ebx := W(mem, r.esp + 4))
  }

  /** What the caller put above its return address, first parameter first, is what the kernel's stub passes on. */
  lemma ArgumentsArrive(i: nat, r: Regs, mem: Memory)
    requires HasStub(i) && r.esp >= 16
    ensures var u := StubCall(i, r, mem);
      && Index(u.eax) == i && |StubArgs(i, u)| == Arity(i)
      && (u.ds == r.ds && u.es == r.es && u.eflags == r.eflags && u.cs == r.cs)
      && forall k :: 0 <= k < Arity(i) ==> StubArgs(i, u)[k] == W(mem, r.esp + 4 + 4 * k)
  {
  }

  /**
    What the kernel needs of user registers to work at all: data segments that can be written, since entry keeps
    them, and upward string moves, since entry keeps the direction flag.
   */
  predicate Regular(u: Regs) {
    SegmentsOk(u) && u.eflags / 0x400 % 2 == 0
  }

  /** So a word whose bit 10 is clear, and the selectors of the user data segment with any privilege level asked for. */
  lemma RegularIs(u: Regs)
    ensures Regular(u) <==> u.eflags % 0x800 < 0x400 && 0x20 <= u.ds <= 0x23 && 0x20 <= u.es <= 0x23
    ensures var f := FirstRegs();
      && Regular(f) && f.cs == 8 * 3 + 3 && f.ss == 8 * 4 + 3 && f.eflags / 0x200 % 2 == 1
      && f.eax == f.ecx == f.edx == f.ebx == f.ebp == f.esi == f.edi == 0
  {
  }

  /** Both selectors name the user data segment. */
  predicate SegmentsOk(u: Regs) {
    u.ds / 4 == 8 && u.es / 4 == 8
  }

  // ---------- processes as user programs see them

  /**
    The user registers and the file records of all processes, and the scheduler's state. Wild: the kernel has been
    led where nothing is known of it.
   */
  datatype Processes = Processes(users: map<Ptr, Regs>, sys: S.System, records: map<Ptr, seq<u32>>, wild: bool)

  /** What a system call comes to, where that depends on more than registers. */
  datatype Service = Service(ret: u32, opens: bool, forks: bool, child: u32, records: seq<u32>, loads: bool, entry: u32, eax: u32)

  datatype Event = UserRuns(regs: Regs) | Tick | Trap(s: Service)

  const MINUS_ONE: u32 := 0xFFFF_FFFF

  /** User code can run on. */
  ghost predicate Going(a: Processes) {
    !a.wild && a.sys.phase == S.Running && S.Known(a.sys) && a.sys.cur in a.users && a.sys.cur in a.records
  }

  ghost function Current(a: Processes): Regs
    requires Going(a)
  {
    a.users[a.sys.cur]
  }

  /** The registers `loadelf` leaves in the trap frame, and what `sys_execve` leaves in eax. */
  function NewProgram(u: Regs, s: Service): Regs {
    u.(eip := s.entry, esp := KERNEL_OFFSET, eax := s.eax)
  }

  ghost function Updated(a: Processes, u: Regs): Processes {
    a.(users := a.users[a.sys.cur := u])
  }

  /** The scheduler step `e`, and the next dispatch if the process gives way. */
  ghost function Switched(a: Processes, e: S.Event): Processes {
    if !S.Enabled(a.sys, e) then a
    else
      var s := S.Next(a.sys, e);
      a.(sys := if s.phase == S.Scanning then S.Next(s, S.Dispatch) else s)
  }

  /** `a` with a copy of the running process that reads zero in eax, and has records of its own for its files. */
  ghost function WithChild(a: Processes, child: Ptr, records: seq<u32>): Processes
    requires Going(a)
  {
    if S.Enabled(a.sys, S.Fork(child))
    then a.(users := a.users[child := Current(a).(eax := 0)], sys := S.Next(a.sys, S.Fork(child)), records := a.records[child := records])
    else a
  }

  /** `a` with one more file record of the running process. */
  ghost function WithFile(a: Processes, records: seq<u32>): Processes
    requires Going(a)
  {
    a.(sys := S.Opened(a.sys), records := a.records[a.sys.cur := a.records[a.sys.cur] + records])
  }

  /** The effect of a system call, by its number in eax. */
  ghost function Served(a: Processes, s: Service): Processes
    requires Going(a)
  {
    var u, i := Current(a), Index(Current(a).eax);
    if i == 1 then Switched(a, S.Exit)
    else if i == 2 then
      if !s.forks then Updated(a.(sys := S.Next(a.sys, S.ForkFails)), u.(eax := MINUS_ONE))
      else if a.sys.state[a.sys.cur] != S.RUNNING then a.(wild := true)
      else Updated(WithChild(a, s.child, s.records), u.(eax := S.NextPid(a.sys.issued)))
    else if i == 8 then
      if s.loads then Switched(Updated(a, NewProgram(u, s)), S.Exec(true))
      else Updated(a, u.(eax := MINUS_ONE))
    else if i == 5 then
      var n := a.sys.files[a.sys.cur];
      if s.opens && n <= MAXFILES then Updated(WithFile(a, s.records), u.(eax := n))
      else Updated(a, u.(eax := MINUS_ONE))
    else if i == 3 || i == 4 || i == 9 then Updated(a, u.(eax := s.ret))
    else if i < CALLS then a
    else a.(wild := true)
  }

  /** The effect of an event, seen from the user programs. */
  ghost function After(a: Processes, e: Event): Processes {
    if !Going(a) then a
    else
      match e
      case UserRuns(regs) => Updated(a, regs)
      case Tick => if SegmentsOk(Current(a)) then Switched(a, S.Yield) else a.(wild := true)
      case Trap(s) => if Regular(Current(a)) then Served(a, s) else a.(wild := true)
  }

  ghost function AfterAll(a: Processes, es: seq<Event>): Processes {
    if es == [] then a else After(AfterAll(a, es[..|es| - 1]), es[|es| - 1])
  }

  /** Every process is in its place, has as many files as its state allows, and has registers and records. */
  ghost predicate WellFormed(a: Processes) {
    S.Placed(a.sys) && S.FilesOk(a.sys) && a.users.Keys == a.sys.state.Keys && RecordsOk(a)
  }

  /** A record for every open file. */
  ghost predicate RecordsOk(a: Processes) {
    && a.records.Keys == a.sys.state.Keys
    && forall q :: q in a.records && q in a.sys.files ==> Records(a.records[q], a.sys.files[q])
  }

  /** A fork sets up a new thread on a page of its own, also when it fails later. */
  ghost predicate NewChild(k: Layout, a: Processes, q: Ptr) {
    Placed(k, q) && q !in a.sys.state
  }

  /** How far the stack is in use when compiled code of a system call, and of `yield`, begins. */
  function CallDepth(p: nat, i: nat, r: Regs): int {
    p - FRAME - 4 * |StubArgs(i, r)| - 4
  }

  function YieldDepth(k: Layout, p: nat, i: nat): int {
    if i == 8 then p - FRAME - 20 - 4 * k.execFrame else p - FRAME - 12
  }

  /** What the kernel's code path leaves to chance: three stretches of compiled code. */
  datatype Noise = Noise(jx: Junk, jy: Junk, js: Junk)

  /** User code stays in user mode, compiled code within its stack. */
  predicate FitsEvent(k: Layout, p: nat, u: Regs, e: Event, n: Noise) {
    && Fits(n.js, k.bootLow, k.boot)
    && match e
       case UserRuns(regs) => regs.cs % 4 == 3
       case Tick => Fits(n.jy, Low(p), p - FRAME - 4)
       case Trap(s) => Fits(n.jx, Low(p), CallDepth(p, Index(u.eax), u)) && Fits(n.jy, Low(p), YieldDepth(k, p, Index(u.eax)))
  }

  /** With compiled code that stores nothing, every event fits but one: user code cannot leave user mode by itself. */
  lemma QuietFits(k: Layout, p: nat, u: Regs, e: Event, regs: Regs)
    ensures var j := Junk(regs, map[]); FitsEvent(k, p, u, e, Noise(j, j, j)) <==> (e.UserRuns? ==> e.regs.cs % 4 == 3)
  {
  }

  /** What other parts of the kernel supply for the event. */
  ghost predicate Supplied(k: Layout, a: Processes, e: Event)
    requires Going(a)
  {
    e.Trap? ==>
      var i := Index(Current(a).eax);
      && (i == 2 ==> NewChild(k, a, e.s.child) && (e.s.forks ==> Records(e.s.records, a.sys.files[a.sys.cur])))
      && (i == 5 && e.s.opens ==> Records(e.s.records, 1))
  }

  ghost predicate Allowed(k: Layout, a: Processes, e: Event, n: Noise) {
    Going(a) && FitsEvent(k, a.sys.cur, Current(a), e, n) && Supplied(k, a, e)
  }

  ghost predicate AllAllowed(k: Layout, a: Processes, es: seq<Event>, ns: seq<Noise>) {
    |ns| == |es| && forall i :: 0 <= i < |es| ==> Going(AfterAll(a, es[..i])) ==> Allowed(k, AfterAll(a, es[..i]), es[i], ns[i])
  }

  ghost function FirstUser(entry: u32): Regs {
    FirstRegs().(eip := entry, esp := KERNEL_OFFSET)
  }

  /** The first process waits to run, with pid 1 and its open files. */
  ghost function Booted(first: Ptr, records: seq<u32>, entry: u32): Processes {
    Processes(map[first := FirstUser(entry)], S.Booted(first, |records|), map[first := records], false)
  }

  ghost function Dispatched(b: Processes): Processes {
    if b.sys.phase == S.Scanning then b.(sys := S.Next(b.sys, S.Dispatch)) else b
  }

  ghost function Started(first: Ptr, records: seq<u32>, entry: u32): Processes {
    Dispatched(Booted(first, records, entry))
  }

  lemma AfterOneMore(a: Processes, es: seq<Event>, i: nat)
    requires i < |es|
    ensures AfterAll(a, es[..i + 1]) == After(AfterAll(a, es[..i]), es[i])
  {
    assert es[..i + 1][..i] == es[..i];
  }

  /** Nothing happens to the processes once the run has ended. */
  lemma {:induction false} Stopped(a: Processes, es: seq<Event>, n: nat)
    requires n <= |es| && !Going(AfterAll(a, es[..n]))
    ensures AfterAll(a, es) == AfterAll(a, es[..n])
    decreases |es|
  {
    if n < |es| {
      assert es[..|es| - 1][..n] == es[..n];
      Stopped(a, es[..|es| - 1], n);
    } else {
      assert es[..n] == es;
    }
  }

  // ---------- events keep the processes in order

  lemma RecordsStay(a: Processes, s: S.System)
    requires RecordsOk(a) && s.state.Keys == a.sys.state.Keys && s.files == a.sys.files
    ensures RecordsOk(a.(sys := s))
  {
  }

  /** The scheduler steps of an event, two at most. */
  lemma SwitchedWellFormed(a: Processes, e: S.Event)
    requires WellFormed(a) && S.Enabled(a.sys, e) && (e == S.Yield || e == S.Exit || e == S.Exec(true))
    ensures WellFormed(Switched(a, e)) && Switched(a, e).records == a.records
  {
    hide S.Placed, S.FilesOk, RecordsOk;
    StepKeeps(a.sys, e);
    var s := S.Next(a.sys, e);
    SameKeys(a.sys, e);
    if s.phase == S.Scanning {
      StepKeeps(s, S.Dispatch);
      SameKeys(s, S.Dispatch);
    }
    RecordsStay(a, Switched(a, e).sys);
  }

  lemma DispatchedWellFormed(b: Processes)
    requires WellFormed(b) && b.sys.phase == S.Scanning
    ensures WellFormed(Dispatched(b))
  {
    hide S.Placed, S.FilesOk, S.Next, RecordsOk;
    StepKeeps(b.sys, S.Dispatch);
    SameKeys(b.sys, S.Dispatch);
    RecordsStay(b, S.Next(b.sys, S.Dispatch));
  }

  lemma StepKeeps(s: S.System, e: S.Event)
    requires S.Placed(s) && S.FilesOk(s) && S.Enabled(s, e)
    ensures S.Placed(S.Next(s, e)) && S.FilesOk(S.Next(s, e))
  {
    hide S.Placed, S.FilesOk, S.Next;
    S.StepPlaced(s, e);
    S.StepFiles(s, e);
  }

  lemma SameKeys(s: S.System, e: S.Event)
    requires S.Placed(s) && S.Enabled(s, e) && !e.Fork?
    ensures S.Next(s, e).state.Keys == s.state.Keys && (!e.Open? ==> S.Next(s, e).files == s.files)
  {
    hide S.FirstReady, Removed, Nodes;
    S.FirstReadyIs(s.queue, s.state);
  }

  lemma ChildWellFormed(a: Processes, c: Ptr, rs: seq<u32>)
    requires WellFormed(a) && Going(a) && S.Enabled(a.sys, S.Fork(c)) && Records(rs, a.sys.files[a.sys.cur])
    ensures var b := WithChild(a, c, rs); WellFormed(b) && b.sys.cur == a.sys.cur && b.sys.cur in b.users && b.wild == a.wild
  {
    hide S.Placed, S.FilesOk;
    StepKeeps(a.sys, S.Fork(c));
  }

  lemma FileWellFormed(a: Processes, rs: seq<u32>)
    requires WellFormed(a) && Going(a) && a.sys.files[a.sys.cur] <= MAXFILES && Records(rs, 1)
    ensures var b := WithFile(a, rs); WellFormed(b) && b.sys.cur == a.sys.cur && b.sys.cur in b.users && b.wild == a.wild
  {
    OpensOne(a);
    hide S.Placed, S.FilesOk;
    OpenIs(a.sys);
    StepKeeps(a.sys, S.Open);
    SameKeys(a.sys, S.Open);
  }

  lemma OpensOne(a: Processes)
    requires WellFormed(a) && Going(a) && a.sys.files[a.sys.cur] <= MAXFILES
    ensures S.Opened(a.sys).files == a.sys.files[a.sys.cur := a.sys.files[a.sys.cur] + 1]
  {
    hide Nodes;
    assert S.Out(a.sys, a.sys.cur);
  }

  lemma Forkable(a: Processes, c: Ptr)
    requires WellFormed(a) && Going(a) && a.sys.state[a.sys.cur] == S.RUNNING && c != NULL && c !in a.sys.state
    ensures S.Enabled(a.sys, S.Fork(c))
  {
    hide Nodes;
  }

  lemma UpdatedWellFormed(a: Processes, u: Regs)
    requires WellFormed(a) && a.sys.cur in a.users
    ensures WellFormed(Updated(a, u))
  {
    hide S.Placed, S.FilesOk;
  }

  /** Every event keeps the processes in order. */
  lemma AfterWellFormed(k: Layout, a: Processes, e: Event)
    requires WellFormed(a) && Going(a) && Supplied(k, a, e)
    ensures WellFormed(After(a, e))
  {
    hide S.Placed, S.FilesOk, Served;
    match e
    case UserRuns(regs) => UpdatedWellFormed(a, regs);
    case Tick =>
      if SegmentsOk(Current(a)) {
        SwitchedWellFormed(a, S.Yield);
      }
    case Trap(s) => ServedWellFormed(k, a, s);
  }

  lemma SuppliedNow(k: Layout, a: Processes, e: Event, n: Noise)
    requires Allowed(k, a, e, n)
    ensures Going(a) && Supplied(k, a, e)
  {
  }

  lemma ServedWellFormed(k: Layout, a: Processes, s: Service)
    requires WellFormed(a) && Going(a) && Supplied(k, a, Trap(s))
    ensures WellFormed(Served(a, s))
  {
    hide S.Placed, S.FilesOk, S.Next, S.Opened, Switched, WithChild, WithFile;
    var u, i := Current(a), Index(Current(a).eax);
    if i == 1 {
      SwitchedWellFormed(a, S.Exit);
    } else if i == 2 && s.forks && a.sys.state[a.sys.cur] == S.RUNNING {
      Forkable(a, s.child);
      ChildWellFormed(a, s.child, s.records);
      UpdatedWellFormed(WithChild(a, s.child, s.records), u.(eax := S.NextPid(a.sys.issued)));
    } else if i == 2 && !s.forks {
      StepKeeps(a.sys, S.ForkFails);
      SameKeys(a.sys, S.ForkFails);
      IssuedOnly(a.sys);
      RecordsStay(a, S.Next(a.sys, S.ForkFails));
    } else if i == 8 && s.loads {
      SwitchedWellFormed(Updated(a, NewProgram(u, s)), S.Exec(true));
    } else if i == 5 && s.opens && a.sys.files[a.sys.cur] <= MAXFILES {
      FileWellFormed(a, s.records);
    }
  }

  lemma IssuedOnly(s: S.System)
    requires S.Enabled(s, S.ForkFails)
    ensures S.Next(s, S.ForkFails) == s.(issued := s.issued + 1)
  {
  }

  lemma OpenIs(s: S.System)
    requires S.Enabled(s, S.Open)
    ensures S.Next(s, S.Open) == S.Opened(s) && S.Opened(s).cur == s.cur
  {
  }

  // ---------- when a waiting process resumes

  /** The waiting processes in the order of their turns. */
  ghost function Waiting(a: Processes): seq<Ptr> {
    S.ReadyQueue(a.sys.queue, a.sys.state)
  }

  /** Another process gets its turn. */
  ghost predicate HandsOver(a: Processes, e: Event) {
    Going(a) &&
    match e
    case UserRuns(_) => false
    case Tick => SegmentsOk(Current(a))
    case Trap(s) =>
      var i := Index(Current(a).eax);
      Regular(Current(a)) && ((i == 1 && a.sys.pid[a.sys.cur] != 1) || (i == 8 && s.loads))
  }

  ghost function Turns(a: Processes, es: seq<Event>): nat {
    if es == [] then 0
    else
      var n := |es| - 1;
      Turns(a, es[..n]) + if HandsOver(AfterAll(a, es[..n]), es[n]) then 1 else 0
  }

  /** `q` waits in place `j` with registers `u`. */
  ghost predicate InPlace(a: Processes, q: Ptr, j: nat, u: Regs) {
    j < |Waiting(a)| && Waiting(a)[j] == q && q in a.users && a.users[q] == u
  }

  /** It is the turn of `q`. */
  ghost predicate Resumed(a: Processes, q: Ptr, u: Regs) {
    a.sys.phase == S.Running && a.sys.cur == q && q in a.users && a.users[q] == u
  }

  /** A fork's child is nobody yet. */
  ghost predicate NewBorn(a: Processes, e: Event) {
    Going(a) && e.Trap? && Index(Current(a).eax) == 2 ==> e.s.child !in a.sys.state
  }

  lemma NotCurrent(a: Processes, q: Ptr, j: nat, u: Regs)
    requires WellFormed(a) && Going(a) && InPlace(a, q, j, u)
    ensures q != a.sys.cur && q in a.sys.state && a.sys.state[q] == S.READY
  {
    hide Nodes;
    S.ReadyMembers(a.sys.queue, a.sys.state);
    assert q in Waiting(a);
  }

  lemma SwitchTurn(a: Processes, e: S.Event, q: Ptr, j: nat, u: Regs)
    requires WellFormed(a) && Going(a) && InPlace(a, q, j, u)
    requires e == S.Yield || e == S.Exec(true) || (e == S.Exit && a.sys.pid[a.sys.cur] != 1)
    ensures j > 0 ==> InPlace(Switched(a, e), q, j - 1, u)
    ensures j == 0 ==> Resumed(Switched(a, e), q, u)
  {
    hide S.Placed, S.FilesOk, S.ReadyQueue;
    var s := S.Next(a.sys, e);
    S.StepPlaced(a.sys, e);
    S.StepIsFifo(a.sys, e);
    S.StepIsFifo(s, S.Dispatch);
  }

  lemma StepTurn(a: Processes, e: Event, q: Ptr, j: nat, u: Regs)
    requires WellFormed(a) && NewBorn(a, e) && InPlace(a, q, j, u)
    ensures !HandsOver(a, e) ==> InPlace(After(a, e), q, j, u)
    ensures HandsOver(a, e) && j > 0 ==> InPlace(After(a, e), q, j - 1, u)
    ensures HandsOver(a, e) && j == 0 ==> Resumed(After(a, e), q, u)
  {
    hide S.Placed, S.FilesOk, S.ReadyQueue, S.Next, Switched, Served;
    if Going(a) {
      NotCurrent(a, q, j, u);
      match e
      case UserRuns(_) =>
      case Tick =>
        if SegmentsOk(Current(a)) {
          SwitchTurn(a, S.Yield, q, j, u);
        }
      case Trap(s) =>
        if Regular(Current(a)) {
          ServedTurn(a, s, q, j, u);
        }
    }
  }

  lemma ServedTurn(a: Processes, s: Service, q: Ptr, j: nat, u: Regs)
    requires WellFormed(a) && Going(a) && Regular(Current(a)) && NewBorn(a, Trap(s)) && InPlace(a, q, j, u)
    requires q != a.sys.cur && q in a.sys.state
    ensures !HandsOver(a, Trap(s)) ==> InPlace(Served(a, s), q, j, u)
    ensures HandsOver(a, Trap(s)) && j > 0 ==> InPlace(Served(a, s), q, j - 1, u)
    ensures HandsOver(a, Trap(s)) && j == 0 ==> Resumed(Served(a, s), q, u)
  {
    hide S.Placed, S.FilesOk, S.ReadyQueue, S.Opened;
    var i, v := Index(Current(a).eax), Current(a);
    if i == 1 && a.sys.pid[a.sys.cur] != 1 {
      SwitchTurn(a, S.Exit, q, j, u);
    } else if i == 8 && s.loads {
      SwitchTurn(Updated(a, NewProgram(v, s)), S.Exec(true), q, j, u);
    } else if i == 2 && s.forks && S.Enabled(a.sys, S.Fork(s.child)) {
      S.StepIsFifo(a.sys, S.Fork(s.child));
    } else if i == 5 {
      S.StepIsFifo(a.sys, S.Open);
      OpenIs(a.sys);
    }
  }

  lemma AllowedBefore(k: Layout, a: Processes, es: seq<Event>, ns: seq<Noise>)
    requires AllAllowed(k, a, es, ns) && es != []
    ensures |ns| == |es|
    ensures var n := |es| - 1;
      && AllAllowed(k, a, es[..n], ns[..n])
      && (Going(AfterAll(a, es[..n])) ==> Allowed(k, AfterAll(a, es[..n]), es[n], ns[n]))
      && NewBorn(AfterAll(a, es[..n]), es[n])
  {
    hide AfterAll, Placed, FitsEvent;
    var n := |es| - 1;
    assert Going(AfterAll(a, es[..n])) ==> Allowed(k, AfterAll(a, es[..n]), es[n], ns[n]);
    hide Allowed;
    forall i | 0 <= i < n && Going(AfterAll(a, es[..n][..i]))
      ensures Allowed(k, AfterAll(a, es[..n][..i]), es[..n][i], ns[..n][i])
    {
      assert es[..n][..i] == es[..i];
    }
  }

  /** Over every run the processes stay in order. */
  lemma {:induction false} RunWellFormed(k: Layout, a: Processes, es: seq<Event>, ns: seq<Noise>)
    requires WellFormed(a) && AllAllowed(k, a, es, ns)
    ensures WellFormed(AfterAll(a, es))
  {
    hide WellFormed, After, Allowed, AllAllowed;
    if es != [] {
      var n := |es| - 1;
      AllowedBefore(k, a, es, ns);
      RunWellFormed(k, a, es[..n], ns[..n]);
      if Going(AfterAll(a, es[..n])) {
        SuppliedNow(k, AfterAll(a, es[..n]), es[n], ns[n]);
        AfterWellFormed(k, AfterAll(a, es[..n]), es[n]);
      } else {
        StoppedFor(AfterAll(a, es[..n]), es[n]);
      }
    }
  }

  lemma StoppedFor(b: Processes, e: Event)
    requires !Going(b)
    ensures After(b, e) == b
  {
  }

  /** A waiting process keeps its registers, and its place but for the changes of turn. */
  lemma {:induction false} KeepsPlace(k: Layout, a: Processes, es: seq<Event>, ns: seq<Noise>, q: Ptr, j: nat, u: Regs)
    requires WellFormed(a) && AllAllowed(k, a, es, ns) && InPlace(a, q, j, u) && Turns(a, es) <= j
    ensures InPlace(AfterAll(a, es), q, j - Turns(a, es), u)
  {
    hide WellFormed, After, HandsOver, AllAllowed, InPlace, NewBorn;
    if es != [] {
      var n := |es| - 1;
      AllowedBefore(k, a, es, ns);
      RunWellFormed(k, a, es[..n], ns[..n]);
      KeepsPlace(k, a, es[..n], ns[..n], q, j, u);
      StepTurn(AfterAll(a, es[..n]), es[n], q, j - Turns(a, es[..n]), u);
    }
  }

  /**
    The process with `j` others before it resumes at the (j+1)-th change of turn, with the registers it had,
    whatever the others do.
   */
  lemma ResumesInTurn(k: Layout, a: Processes, es: seq<Event>, ns: seq<Noise>, q: Ptr, j: nat, u: Regs)
    requires WellFormed(a) && AllAllowed(k, a, es, ns) && InPlace(a, q, j, u)
    requires es != [] && Turns(a, es[..|es| - 1]) == j && Turns(a, es) == j + 1
    ensures Resumed(AfterAll(a, es), q, u)
  {
    hide WellFormed, After, Allowed, InPlace, NewBorn, AllAllowed;
    var n := |es| - 1;
    AllowedBefore(k, a, es, ns);
    RunWellFormed(k, a, es[..n], ns[..n]);
    KeepsPlace(k, a, es[..n], ns[..n], q, j, u);
    StepTurn(AfterAll(a, es[..n]), es[n], q, 0, u);
  }

  /** A fork puts its child behind all that wait, with the parent's registers but zero in eax. */
  lemma ChildInPlace(a: Processes, s: Service)
    requires WellFormed(a) && Going(a) && Index(Current(a).eax) == 2 && s.forks && a.sys.state[a.sys.cur] == S.RUNNING
    requires s.child != 0 && s.child !in a.sys.state
    ensures var b := Served(a, s);
      Going(b) && b.sys.cur == a.sys.cur && Current(b) == Current(a).(eax := S.NextPid(a.sys.issued))
      && InPlace(b, s.child, |Waiting(a)|, Current(a).(eax := 0))
      && s.child as nat in b.sys.pid && b.sys.pid[s.child] == S.NextPid(a.sys.issued)
  {
    hide S.FilesOk, S.ReadyQueue, Nodes;
    Forkable(a, s.child);
    S.StepIsFifo(a.sys, S.Fork(s.child));
  }

  /**
    `fork` returns twice: the child's pid at once to the parent, and zero to the child, when all that waited
    before it have had their turn.
   */
  lemma ForkReturnsTwice(k: Layout, a: Processes, s: Service, n: Noise, es: seq<Event>, ns: seq<Noise>)
    requires WellFormed(a) && Allowed(k, a, Trap(s), n) && Regular(Current(a))
    requires Index(Current(a).eax) == 2 && s.forks && a.sys.state[a.sys.cur] == S.RUNNING
    requires AllAllowed(k, After(a, Trap(s)), es, ns)
    ensures var b, j := After(a, Trap(s)), |Waiting(a)|;
      && b.sys.cur == a.sys.cur && Going(b) && Current(b) == Current(a).(eax := S.NextPid(a.sys.issued))
      && (es != [] && Turns(b, es[..|es| - 1]) == j && Turns(b, es) == j + 1 ==>
          Resumed(AfterAll(b, es), s.child, Current(a).(eax := 0)))
  {
    hide WellFormed, S.Placed, AllAllowed, FitsEvent, Placed, Turns, AfterAll, Waiting, InPlace, Served;
    var b, j := After(a, Trap(s)), |Waiting(a)|;
    AfterWellFormed(k, a, Trap(s));
    ChildNotNull(k, a, s.child);
    ChildInPlace(a, s);
    if es != [] && Turns(b, es[..|es| - 1]) == j && Turns(b, es) == j + 1 {
      ResumesInTurn(k, b, es, ns, s.child, j, Current(a).(eax := 0));
    }
  }

  lemma ChildNotNull(k: Layout, a: Processes, q: Ptr)
    requires NewChild(k, a, q)
    ensures q != NULL && q !in a.sys.state
  {
  }

  // ---------- the scheduler's theorems hold of the processes

  lemma SwitchedInvariant(a: Processes, e: S.Event, init: Ptr)
    requires S.Invariant(a.sys, init) && S.Enabled(a.sys, e)
    ensures S.Invariant(Switched(a, e).sys, init)
  {
    hide S.Invariant, S.Next;
    S.StepInvariant(a.sys, e, init);
    var s := S.Next(a.sys, e);
    if s.phase == S.Scanning {
      S.StepInvariant(s, S.Dispatch, init);
    }
  }

  /** Each process in one place, at most one running, distinct pids, process 1 alive: every event keeps all that. */
  lemma AfterInvariant(a: Processes, e: Event, init: Ptr)
    requires S.Invariant(a.sys, init)
    ensures S.Invariant(After(a, e).sys, init)
  {
    hide S.Invariant, Switched, Regular, SegmentsOk;
    if Going(a) {
      if e.Tick? && SegmentsOk(Current(a)) {
        SwitchedInvariant(a, S.Yield, init);
      }
      if e.Trap? && Regular(Current(a)) {
        ServedInvariant(a, e.s, init);
      }
    }
  }

  lemma ServedInvariant(a: Processes, s: Service, init: Ptr)
    requires S.Invariant(a.sys, init) && Going(a)
    ensures S.Invariant(Served(a, s).sys, init)
  {
    hide S.Invariant, S.Next, S.Opened, Switched;
    var u, i := Current(a), Index(Current(a).eax);
    if i == 1 {
      SwitchedInvariant(a, S.Exit, init);
    } else if i == 2 {
      S.StepInvariant(a.sys, S.ForkFails, init);
      IssuedOnly(a.sys);
      if S.Enabled(a.sys, S.Fork(s.child)) {
        S.StepInvariant(a.sys, S.Fork(s.child), init);
      }
    } else if i == 8 {
      SwitchedInvariant(Updated(a, NewProgram(u, s)), S.Exec(true), init);
    } else if i == 5 {
      S.StepInvariant(a.sys, S.Open, init);
      OpenIs(a.sys);
    }
  }

  lemma {:induction false} RunInvariant(a: Processes, es: seq<Event>, init: Ptr)
    requires S.Invariant(a.sys, init)
    ensures S.Invariant(AfterAll(a, es).sys, init)
  {
    hide S.Invariant, After;
    if es != [] {
      var n := |es| - 1;
      RunInvariant(a, es[..n], init);
      AfterInvariant(AfterAll(a, es[..n]), es[n], init);
    }
  }

  /** On every run from boot the halt loop is not reached while process 1 has at most sixteen open files. */
  lemma NeverHalts(first: Ptr, records: seq<u32>, entry: u32, es: seq<Event>)
    requires first != NULL && |records| <= MAXFILES
    ensures var b := AfterAll(Started(first, records, entry), es);
      first in b.sys.files && (b.sys.files[first] <= MAXFILES ==> b.sys.phase != S.Halted)
  {
    var a, b := Started(first, records, entry), AfterAll(Started(first, records, entry), es);
    S.BootedInvariant(first, |records|);
    S.StepInvariant(S.Booted(first, |records|), S.Dispatch, first);
    RunInvariant(a, es, first);
    hide AfterAll, S.DistinctPids, Nodes, Started;
    assert first in b.sys.queue || S.Out(b.sys, first);
  }

  /** Switched out for good: in the queue, but not ready. */
  ghost predicate Gone(s: S.System, q: Ptr) {
    q in s.queue && q in s.state && s.state[q] != S.READY
  }

  lemma SwitchedGone(a: Processes, e: S.Event, init: Ptr, q: Ptr)
    requires S.Invariant(a.sys, init) && S.Enabled(a.sys, e) && Gone(a.sys, q)
    ensures Gone(Switched(a, e).sys, q)
  {
    hide S.Invariant, S.Next;
    S.StepGone(a.sys, e, init, q);
    S.StepInvariant(a.sys, e, init);
    var s := S.Next(a.sys, e);
    if s.phase == S.Scanning {
      S.StepGone(s, S.Dispatch, init, q);
    }
  }

  lemma AfterGone(a: Processes, e: Event, init: Ptr, q: Ptr)
    requires S.Invariant(a.sys, init) && Gone(a.sys, q)
    ensures Gone(After(a, e).sys, q)
  {
    hide S.Invariant, S.Next, S.Opened, Switched, Gone, Regular, SegmentsOk;
    if Going(a) {
      var u := Current(a);
      GoneIs(a.sys, a.sys, q);
      SwitchedGone(a, S.Yield, init, q);
      SwitchedGone(a, S.Exit, init, q);
      S.StepGone(a.sys, S.ForkFails, init, q);
      S.StepGone(a.sys, S.Open, init, q);
      OpenIs(a.sys);
      GoneIs(a.sys, S.Next(a.sys, S.ForkFails), q);
      GoneIs(a.sys, S.Next(a.sys, S.Open), q);
      if e.Trap? {
        SwitchedGone(Updated(a, NewProgram(u, e.s)), S.Exec(true), init, q);
        if S.Enabled(a.sys, S.Fork(e.s.child)) {
          S.StepGone(a.sys, S.Fork(e.s.child), init, q);
          GoneIs(a.sys, S.Next(a.sys, S.Fork(e.s.child)), q);
        }
      }
    }
  }

  lemma GoneIs(s: S.System, t: S.System, q: Ptr)
    requires Gone(s, q)
    ensures q in s.queue && q in s.state && s.state[q] != S.READY
    ensures q in t.queue && q in t.state && t.state[q] == s.state[q] ==> Gone(t, q)
  {
  }

  /**
    A process that exits, or gives way after its seventeenth open file, never runs again, whatever happens; before
    that it is not affected.
   */
  lemma {:induction false} GoneForever(a: Processes, es: seq<Event>, init: Ptr, q: Ptr)
    requires S.Invariant(a.sys, init) && Gone(a.sys, q)
    ensures Gone(AfterAll(a, es).sys, q) && (Going(AfterAll(a, es)) ==> AfterAll(a, es).sys.cur != q)
  {
    RunInvariant(a, es, init);
    if es != [] {
      var n := |es| - 1;
      RunInvariant(a, es[..n], init);
      GoneForever(a, es[..n], init, q);
      AfterGone(AfterAll(a, es[..n]), es[n], init, q);
    }
    hide S.DistinctPids, S.FilesOk, After, AfterAll;
  }

  // ---------- processes as words of memory

  /** What `sys_execve` happens to leave in eax for a process that waits inside it. */
  function LeftFor(left: map<Ptr, u32>, q: Ptr): u32 {
    if q in left then left[q] else 0
  }

  /** The state word; a pointer is none of the five values. */
  ghost predicate StateIs(mem: Memory, q: Ptr, st: S.ProcState) {
    var w := W(mem, q + STATE);
    match st
    case RUNNING => w == RUNNING
    case READY => w == READY
    case DEAD => w == DEAD
    case Overwritten => w > DEAD
    case _ => false
  }

  /** The descriptors hold the records `rs`, and zero behind them. */
  ghost predicate FilesAre(mem: Memory, q: Ptr, rs: seq<u32>) {
    Records(rs, |rs|) && forall i :: 0 <= i < MAXFILES ==> Descriptor(mem, q, i) == if i < |rs| then rs[i] else 0
  }

  lemma FilesTell(mem: Memory, q: Ptr, rs: seq<u32>)
    requires FilesAre(mem, q, rs)
    ensures forall i :: 0 <= i < MAXFILES ==> (Descriptor(mem, q, i) != 0 <==> i < |rs|)
  {
    forall i | 0 <= i < MAXFILES
      ensures Descriptor(mem, q, i) != 0 <==> i < |rs|
    {
      assert i < |rs| ==> rs[i] > DEAD;
    }
  }

  /** The words of a process: trap frame pointer, pid, descriptors, state, and, if it waits, all that resumes it. */
  ghost predicate Held(k: Layout, mem: Memory, q: Ptr, u: Regs, pid: u32, rs: seq<u32>, st: S.ProcState, left: u32)
    requires LayoutOk(k)
  {
    && Placed(k, q) && W(mem, q + TF) == q - FRAME && W(mem, q) == pid && FilesAre(mem, q, rs) && StateIs(mem, q, st)
    && (st == S.Overwritten ==> |rs| == MAXFILES + 1 && W(mem, q + STATE) == rs[MAXFILES])
    && (st == S.READY ==> u.cs % 4 == 3 && Parked(k, mem, q, u, left))
  }

  ghost predicate Holds(k: Layout, mem: Memory, a: Processes, left: map<Ptr, u32>)
    requires LayoutOk(k)
  {
    forall q :: q in a.sys.state && q in a.users && q in a.sys.pid && q in a.records ==>
      Held(k, mem, q, a.users[q], a.sys.pid[q], a.records[q], a.sys.state[q], LeftFor(left, q))
  }

  lemma FilesKept(before: Memory, after: Memory, q: Ptr, rs: seq<u32>)
    requires FilesAre(before, q, rs) && forall a: nat :: q + OFILE <= a < q + STATE ==> W(after, a) == W(before, a)
    ensures FilesAre(after, q, rs)
  {
    forall i: nat | i < MAXFILES
      ensures Descriptor(after, q, i) == if i < |rs| then rs[i] else 0
    {
      var a := q + OFILE + 4 * i;
      assert Descriptor(before, q, i) == W(before, a) && W(after, a) == W(before, a);
    }
  }

  lemma HeldKept(k: Layout, before: Memory, after: Memory, q: Ptr, u: Regs, pid: u32, rs: seq<u32>, st: S.ProcState, left: u32)
    requires LayoutOk(k) && Held(k, before, q, u, pid, rs, st, left) && SameOn(before, after, Low(q), High(q))
    ensures Held(k, after, q, u, pid, rs, st, left)
  {
    hide Parked, Placed, FilesAre;
    FilesKept(before, after, q, rs);
    if st == S.READY {
      ParkedKept(k, before, after, q, u, left);
    }
  }

  /** The same processes but for `p`. */
  ghost predicate AgreeBut(a: Processes, left: map<Ptr, u32>, b: Processes, left': map<Ptr, u32>, p: Ptr) {
    forall q :: q != p && q in b.sys.state && q in b.users && q in b.sys.pid && q in b.records ==>
      && q in a.sys.state && q in a.users && q in a.sys.pid && q in a.records
      && a.sys.state[q] == b.sys.state[q] && a.users[q] == b.users[q] && a.sys.pid[q] == b.sys.pid[q]
      && a.records[q] == b.records[q] && LeftFor(left, q) == LeftFor(left', q)
  }

  /** Work on the page of `p` concerns only `p`. */
  lemma HoldsNow(k: Layout, before: Memory, after: Memory, a: Processes, left: map<Ptr, u32>, b: Processes, left': map<Ptr, u32>, p: Ptr)
    requires LayoutOk(k) && Holds(k, before, a, left) && SameBut(k, before, after, p) && AgreeBut(a, left, b, left', p)
    requires p in b.sys.state && p in b.users && p in b.sys.pid && p in b.records ==>
      Held(k, after, p, b.users[p], b.sys.pid[p], b.records[p], b.sys.state[p], LeftFor(left', p))
    ensures Holds(k, after, b, left')
  {
    forall q | q in b.sys.state && q in b.users && q in b.sys.pid && q in b.records
      ensures Held(k, after, q, b.users[q], b.sys.pid[q], b.records[q], b.sys.state[q], LeftFor(left', q))
    {
      hide Parked, FilesAre, StateIs;
      if q != p {
        HeldKept(k, before, after, q, a.users[q], a.sys.pid[q], a.records[q], a.sys.state[q], LeftFor(left, q));
      }
    }
  }

  lemma OwnIsSame(k: Layout, before: Memory, after: Memory, p: Ptr)
    requires Placed(k, p) && OwnPage(before, after, p)
    ensures SameBut(k, before, after, p)
  {
    forall q: nat | Placed(k, q) && q != p
      ensures SameOn(before, after, Low(q), High(q))
    {
      PagesApart(p, q);
    }
  }

  lemma OnIsSame(k: Layout, before: Memory, after: Memory, p: Ptr)
    requires Placed(k, p) && OnPage(before, after, p)
    ensures SameBut(k, before, after, p)
  {
    forall q: nat | Placed(k, q) && q != p
      ensures SameOn(before, after, Low(q), High(q))
    {
      PagesApart(p, q);
    }
  }

  lemma StatePut(mem: Memory, p: Ptr, x: u32)
    ensures var m := Put(mem, p + STATE, x);
      OwnPage(mem, m, p) && W(m, p + STATE) == x
  {
  }

  // ---------- between two instructions of user code, and while the scheduler scans

  /** The words of memory are those of the processes, and user code can run on. */
  ghost predicate World(k: Layout, mem: Memory, a: Processes, left: map<Ptr, u32>, saved: Regs) {
    && LayoutOk(k) && WellFormed(a) && Going(a) && Current(a).cs % 4 == 3 && Holds(k, mem, a, left) && IdleParked(k, mem, saved)
  }

  /** Nobody runs. */
  ghost predicate AllWait(k: Layout, mem: Memory, b: Processes, left: map<Ptr, u32>) {
    LayoutOk(k) && WellFormed(b) && !b.wild && b.sys.phase == S.Scanning && Holds(k, mem, b, left)
  }

  /** What is known of the running process's words. */
  lemma Running(k: Layout, mem: Memory, a: Processes, left: map<Ptr, u32>, saved: Regs)
    requires World(k, mem, a, left, saved)
    ensures var p := a.sys.cur;
      && p in a.sys.state && p in a.users && p in a.sys.pid && p in a.records && Placed(k, p) && ProcAt(p)
      && Held(k, mem, p, a.users[p], a.sys.pid[p], a.records[p], a.sys.state[p], LeftFor(left, p))
      && p !in a.sys.queue && p != NULL && (a.sys.state[p] == S.RUNNING || a.sys.state[p] == S.Overwritten)
      && (a.sys.state[p] == S.RUNNING ==> a.sys.files[p] <= MAXFILES)
      && (a.sys.state[p] == S.Overwritten ==> a.sys.files[p] == MAXFILES + 1) && |a.records[p]| == a.sys.files[p]
    ensures 0 <= k.yieldFrame + k.execFrame <= 900
  {
    hide Parked, FilesAre, StateIs, Nodes;
    var p := a.sys.cur;
    assert S.Out(a.sys, p);
  }

  /** Work on the running process's stack, which may change the registers it will have. */
  lemma WorldNow(k: Layout, before: Memory, after: Memory, a: Processes, left: map<Ptr, u32>, saved: Regs, v: Regs)
    requires World(k, before, a, left, saved) && OwnPage(before, after, a.sys.cur) && IdleParked(k, after, saved)
    requires W(after, a.sys.cur + STATE) == W(before, a.sys.cur + STATE) && v.cs % 4 == 3
    ensures World(k, after, Updated(a, v), left, saved)
  {
    hide IdleParked, Parked, SameBut, Holds, LayoutOk, OwnPage, Held, Placed, S.Placed, S.FilesOk;
    var p := a.sys.cur;
    Running(k, before, a, left, saved);
    HeldOwn(k, before, after, p, a.users[p], v, a.sys.pid[p], a.records[p], a.sys.state[p], LeftFor(left, p));
    OwnIsSame(k, before, after, p);
    UpdatedWellFormed(a, v);
    HoldsNow(k, before, after, a, left, Updated(a, v), left, p);
  }

  lemma HeldOwn(k: Layout, before: Memory, after: Memory, p: Ptr, u: Regs, v: Regs, pid: u32, rs: seq<u32>, st: S.ProcState, left: u32)
    requires LayoutOk(k) && Held(k, before, p, u, pid, rs, st, left) && OwnPage(before, after, p)
    requires (st == S.RUNNING || st == S.Overwritten) && W(after, p + STATE) == W(before, p + STATE)
    ensures Held(k, after, p, v, pid, rs, st, left)
  {
    hide FilesAre, Placed, Parked;
    FilesKept(before, after, p, rs);
  }

  /** The running process has yielded, with registers `u` to resume with; its overwritten state word, if so, stays. */
  lemma YieldedWorld(k: Layout, before: Memory, after: Memory, a: Processes, left: map<Ptr, u32>, saved: Regs,
                     u: Regs, left': map<Ptr, u32>, e: S.Event)
    requires World(k, before, a, left, saved) && OwnPage(before, after, a.sys.cur) && u.cs % 4 == 3
    requires e == S.Yield || e == S.Exec(true)
    requires Parked(k, after, a.sys.cur, u, LeftFor(left', a.sys.cur)) && (left' == left || left' == left[a.sys.cur := u.eax])
    requires var was := W(before, a.sys.cur + STATE); W(after, a.sys.cur + STATE) == if was == RUNNING then READY else was
    ensures AllWait(k, after, Updated(a, u).(sys := S.Next(a.sys, e)), left')
  {
    hide IdleParked, Parked, SameBut, Holds, LayoutOk, OwnPage, Held, Placed, S.Placed, S.FilesOk;
    var p, b := a.sys.cur, Updated(a, u).(sys := S.Next(a.sys, e));
    Running(k, before, a, left, saved);
    StepKeeps(a.sys, e);
    SameKeys(a.sys, e);
    HeldYielded(k, before, after, p, a.users[p], u, a.sys.pid[p], a.records[p], a.sys.state[p], LeftFor(left, p), LeftFor(left', p));
    OwnIsSame(k, before, after, p);
    GivesWay(a, u, e, left, left');
    hide AgreeBut, S.Next, WellFormed, LeftFor;
    HoldsNow(k, before, after, a, left, b, left', p);
  }

  lemma GivesWay(a: Processes, u: Regs, e: S.Event, left: map<Ptr, u32>, left': map<Ptr, u32>)
    requires Going(a) && S.Placed(a.sys) && (e == S.Yield || e == S.Exec(true)) && (left' == left || left' == left[a.sys.cur := u.eax])
    ensures var p, b := a.sys.cur, Updated(a, u).(sys := S.Next(a.sys, e));
      && AgreeBut(a, left, b, left', p) && b.users[p] == u && p in b.sys.state && p in b.sys.pid && p in b.records
      && b.sys.state[p] == (if a.sys.state[p] == S.RUNNING then S.READY else a.sys.state[p])
      && b.sys.pid == a.sys.pid && b.sys.files == a.sys.files && b.sys.phase == S.Scanning
      && b.sys.queue == a.sys.queue + [p] && b.sys.issued == a.sys.issued
  {
    hide Nodes;
  }

  lemma HeldYielded(k: Layout, before: Memory, after: Memory, p: Ptr, u: Regs, v: Regs, pid: u32, rs: seq<u32>, st: S.ProcState,
                    left: u32, left': u32)
    requires LayoutOk(k) && Held(k, before, p, u, pid, rs, st, left) && OwnPage(before, after, p) && v.cs % 4 == 3
    requires Parked(k, after, p, v, left') && (st == S.RUNNING || st == S.Overwritten)
    requires var was := W(before, p + STATE); W(after, p + STATE) == if was == RUNNING then READY else was
    ensures Held(k, after, p, v, pid, rs, if st == S.RUNNING then S.READY else st, left')
  {
    hide FilesAre, Placed, Parked;
    FilesKept(before, after, p, rs);
  }

  /** The running process has exited. */
  lemma ExitedWorld(k: Layout, before: Memory, after: Memory, a: Processes, left: map<Ptr, u32>, saved: Regs)
    requires Going(a) && a.sys.pid[a.sys.cur] != 1
    requires World(k, before, a, left, saved) && OwnPage(before, after, a.sys.cur) && W(after, a.sys.cur + STATE) == DEAD
    ensures AllWait(k, after, a.(sys := S.Next(a.sys, S.Exit)), left)
  {
    hide IdleParked, Parked, SameBut, Holds, LayoutOk, OwnPage, Held, Placed, S.Placed, S.FilesOk;
    var p, b := a.sys.cur, a.(sys := S.Next(a.sys, S.Exit));
    Running(k, before, a, left, saved);
    StepKeeps(a.sys, S.Exit);
    SameKeys(a.sys, S.Exit);
    HeldDead(k, before, after, p, a.users[p], a.sys.pid[p], a.records[p], a.sys.state[p], LeftFor(left, p));
    OwnIsSame(k, before, after, p);
    Dies(a, left);
    hide AgreeBut, S.Next, WellFormed, LeftFor;
    HoldsNow(k, before, after, a, left, b, left, p);
  }

  lemma Dies(a: Processes, left: map<Ptr, u32>)
    requires Going(a) && a.sys.pid[a.sys.cur] != 1
    ensures var p, b := a.sys.cur, a.(sys := S.Next(a.sys, S.Exit));
      && AgreeBut(a, left, b, left, p) && p in b.sys.state && b.sys.state[p] == S.DEAD && b.sys.pid == a.sys.pid
      && b.sys.files == a.sys.files && b.sys.phase == S.Scanning && b.sys.queue == a.sys.queue + [p] && b.sys.issued == a.sys.issued
  {
  }

  lemma HeldDead(k: Layout, before: Memory, after: Memory, p: Ptr, u: Regs, pid: u32, rs: seq<u32>, st: S.ProcState, left: u32)
    requires LayoutOk(k) && Held(k, before, p, u, pid, rs, st, left) && OwnPage(before, after, p) && W(after, p + STATE) == DEAD
    ensures Held(k, after, p, u, pid, rs, S.DEAD, left)
  {
    hide FilesAre, Placed, Parked;
    FilesKept(before, after, p, rs);
  }

  /** A file record has been stored in the first empty descriptor, or behind the last one. */
  lemma OpenedWorld(k: Layout, before: Memory, after: Memory, a: Processes, left: map<Ptr, u32>, saved: Regs, record: u32)
    requires World(k, before, a, left, saved) && record > DEAD && Going(a) && a.sys.files[a.sys.cur] <= MAXFILES
    requires after == Put(before, a.sys.cur + OFILE + 4 * a.sys.files[a.sys.cur], record)
    ensures World(k, after, WithFile(a, [record]), left, saved)
  {
    hide IdleParked, Parked, SameBut, Holds, LayoutOk, Held, Placed, S.Placed, S.FilesOk;
    var p, b := a.sys.cur, WithFile(a, [record]);
    Running(k, before, a, left, saved);
    FileWellFormed(a, [record]);
    HeldOpened(k, before, after, p, a.users[p], a.sys.pid[p], a.records[p], a.sys.state[p], LeftFor(left, p), record);
    DescriptorOnPage(k, before, p, a.sys.files[p], record, saved);
    Opens(a, left, record);
    hide AgreeBut, S.Opened, S.Next, WellFormed, LeftFor;
    HoldsNow(k, before, after, a, left, b, left, p);
  }

  lemma Opens(a: Processes, left: map<Ptr, u32>, record: u32)
    requires Going(a) && a.sys.files[a.sys.cur] <= MAXFILES && a.sys.state[a.sys.cur] == S.RUNNING
    ensures var p, n, b := a.sys.cur, a.sys.files[a.sys.cur], WithFile(a, [record]);
      && AgreeBut(a, left, b, left, p) && p in b.sys.state && p in b.records && p in b.sys.pid && b.records[p] == a.records[p] + [record]
      && b.sys.state[p] == (if n < MAXFILES then S.RUNNING else S.Overwritten)
      && b.sys.pid == a.sys.pid && Going(b) && b.sys.cur == p && b.sys.queue == a.sys.queue && b.sys.issued == a.sys.issued
  {
  }

  /** Storing the record spares the state word if and only if one of the sixteen descriptors was empty. */
  lemma StateSpared(mem: Memory, q: Ptr, rs: seq<u32>, record: u32)
    requires FilesAre(mem, q, rs) && |rs| <= MAXFILES && record != 0 && W(mem, q + STATE) == RUNNING
    ensures W(Put(mem, q + OFILE + 4 * |rs|, record), q + STATE) == RUNNING <==>
      exists i :: 0 <= i < MAXFILES && Descriptor(mem, q, i) == 0
  {
    FilesTell(mem, q, rs);
    if |rs| < MAXFILES {
      assert Descriptor(mem, q, |rs|) == 0;
    }
  }

  lemma HeldOpened(k: Layout, before: Memory, after: Memory, p: Ptr, u: Regs, pid: u32, rs: seq<u32>, st: S.ProcState, left: u32,
                   record: u32)
    requires LayoutOk(k) && Held(k, before, p, u, pid, rs, st, left) && |rs| <= MAXFILES && record > DEAD
    requires st == S.RUNNING && after == Put(before, p + OFILE + 4 * |rs|, record)
    ensures Held(k, after, p, u, pid, rs + [record], if |rs| < MAXFILES then st else S.Overwritten, left)
  {
    hide Placed, Parked;
    FilesPut(before, p, rs, record);
  }

  lemma FilesPut(mem: Memory, q: Ptr, rs: seq<u32>, record: u32)
    requires FilesAre(mem, q, rs) && |rs| <= MAXFILES && record > DEAD
    ensures FilesAre(Put(mem, q + OFILE + 4 * |rs|, record), q, rs + [record])
  {
    var n, m := |rs|, Put(mem, q + OFILE + 4 * |rs|, record);
    forall i | 0 <= i < MAXFILES
      ensures Descriptor(m, q, i) == if i < n + 1 then (rs + [record])[i] else 0
    {
      assert Descriptor(mem, q, i) == if i < n then rs[i] else 0;
    }
  }

  lemma DescriptorOnPage(k: Layout, mem: Memory, p: Ptr, n: nat, record: u32, saved: Regs)
    requires LayoutOk(k) && Placed(k, p) && n <= MAXFILES && IdleParked(k, mem, saved)
    ensures var m := Put(mem, p + OFILE + 4 * n, record); SameBut(k, mem, m, p) && IdleParked(k, m, saved)
  {
    PagesApart(p, k.idle);
    OnIsSame(k, mem, Put(mem, p + OFILE + 4 * n, record), p);
  }

  /** The scheduler has taken the first ready process off its queue and switched to it. */
  lemma PickedWorld(k: Layout, before: Memory, after: Memory, b: Processes, left: map<Ptr, u32>, saved: Regs, n: nat)
    requires AllWait(k, before, b, left) && IdleParked(k, after, saved)
    requires n < |b.sys.queue| && n == S.FirstReady(b.sys.queue, b.sys.state)
    requires var q := b.sys.queue[n];
      SameBut(k, before, after, q) && W(after, q + STATE) == RUNNING
      && forall x: nat :: q <= x < q + STATE && x != q + CONTEXT ==> W(after, x) == W(before, x)
    ensures World(k, after, Dispatched(b), left, saved) && b.sys.queue[n] in b.users
  {
    hide IdleParked, Parked, SameBut, Holds, LayoutOk, Held, Placed, S.Placed, S.FilesOk, S.FirstReady, Removed;
    var q := b.sys.queue[n];
    FirstHeld(k, before, b, left, n);
    DispatchedWellFormed(b);
    HeldPicked(k, before, after, q, b.users[q], b.sys.pid[q], b.records[q], LeftFor(left, q));
    HoldsNow(k, before, after, b, left, Dispatched(b), left, q);
  }

  lemma FirstHeld(k: Layout, mem: Memory, b: Processes, left: map<Ptr, u32>, n: nat)
    requires AllWait(k, mem, b, left) && n < |b.sys.queue| && n == S.FirstReady(b.sys.queue, b.sys.state)
    ensures var q := b.sys.queue[n];
      && q in b.sys.state && q in b.users && q in b.sys.pid && q in b.sys.files && q in b.records && b.sys.state[q] == S.READY
      && Held(k, mem, q, b.users[q], b.sys.pid[q], b.records[q], S.READY, LeftFor(left, q))
      && Placed(k, q) && Parked(k, mem, q, b.users[q], LeftFor(left, q)) && b.users[q].cs % 4 == 3 && q < U32
  {
    hide Parked, Nodes, FilesAre;
    S.FirstReadyIs(b.sys.queue, b.sys.state);
    var q := b.sys.queue[n];
    assert S.Ready(b.sys.state, q);
  }

  lemma HeldPicked(k: Layout, before: Memory, after: Memory, q: Ptr, u: Regs, pid: u32, rs: seq<u32>, left: u32)
    requires LayoutOk(k) && Held(k, before, q, u, pid, rs, S.READY, left) && W(after, q + STATE) == RUNNING
    requires forall x: nat :: q <= x < q + STATE && x != q + CONTEXT ==> W(after, x) == W(before, x)
    ensures Held(k, after, q, u, pid, rs, S.RUNNING, left)
  {
    hide FilesAre, Placed, Parked;
    FilesKept(before, after, q, rs);
  }

  /** A child has been built on its page and queued. */
  lemma ForkedWorld(k: Layout, before: Memory, after: Memory, a: Processes, left: map<Ptr, u32>, saved: Regs, c: Ptr,
                    rs: seq<u32>)
    requires World(k, before, a, left, saved) && OnPage(before, after, c) && NewChild(k, a, c) && IdleParked(k, after, saved)
    requires Going(a) && a.sys.state[a.sys.cur] == S.RUNNING && Records(rs, a.sys.files[a.sys.cur])
    requires Held(k, after, c, Current(a).(eax := 0), S.NextPid(a.sys.issued), rs, S.READY, LeftFor(left, c))
    ensures World(k, after, WithChild(a, c, rs), left, saved) && S.Enabled(a.sys, S.Fork(c))
    ensures var b := WithChild(a, c, rs); b.sys.cur == a.sys.cur && Current(b) == Current(a)
  {
    hide IdleParked, Parked, SameBut, Holds, LayoutOk, OnPage, Held, Placed, S.Placed, S.FilesOk;
    ChildNotNull(k, a, c);
    Forkable(a, c);
    ChildWellFormed(a, c, rs);
    ChildPlaced(k, a, c);
    OnIsSame(k, before, after, c);
    ChildAgrees(a, left, c, rs);
    hide AgreeBut, S.Next, WellFormed, LeftFor, WithChild;
    HoldsNow(k, before, after, a, left, WithChild(a, c, rs), left, c);
  }

  lemma ChildAgrees(a: Processes, left: map<Ptr, u32>, c: Ptr, rs: seq<u32>)
    requires Going(a) && S.Enabled(a.sys, S.Fork(c))
    ensures var b := WithChild(a, c, rs);
      && AgreeBut(a, left, b, left, c) && Going(b) && b.sys.cur == a.sys.cur && Current(b) == Current(a)
      && c in b.sys.state && c in b.users && c in b.sys.pid && c in b.records && b.users[c] == Current(a).(eax := 0)
      && b.sys.state[c] == S.READY && b.sys.pid[c] == S.NextPid(a.sys.issued) && b.records[c] == rs
      && b.sys.queue == a.sys.queue + [c] && b.sys.issued == a.sys.issued + 1
  {
  }

  lemma ChildPlaced(k: Layout, a: Processes, c: Ptr)
    requires NewChild(k, a, c)
    ensures Placed(k, c) && ProcAt(c)
  {
  }

  /** Work on a page that belongs to no process; a pid is taken. */
  lemma WorldElsewhere(k: Layout, before: Memory, after: Memory, a: Processes, left: map<Ptr, u32>, saved: Regs, c: Ptr)
    requires World(k, before, a, left, saved) && OnPage(before, after, c) && NewChild(k, a, c) && IdleParked(k, after, saved)
    ensures Going(a) && World(k, after, a.(sys := S.Next(a.sys, S.ForkFails)), left, saved)
  {
    hide IdleParked, Parked, SameBut, Holds, LayoutOk, OnPage, Held, Placed, S.Placed, S.FilesOk;
    ChildPlaced(k, a, c);
    IssuedOnly(a.sys);
    StepKeeps(a.sys, S.ForkFails);
    OnIsSame(k, before, after, c);
    HoldsNow(k, before, after, a, left, a.(sys := S.Next(a.sys, S.ForkFails)), left, c);
  }

  /** The words of a thread just built by `fork`. */
  lemma ChildHeld(k: Layout, mem: Memory, c: Ptr, u: Regs, pid: u32, left: u32)
    requires LayoutOk(k) && Placed(k, c) && NewThread(k, mem, c, u) && Described(mem, c, pid) && u.cs % 4 == 3
    ensures Held(k, mem, c, u, pid, [], S.READY, left)
  {
    hide FrameAt;
    FilesNone(mem, c);
  }

  lemma FilesNone(mem: Memory, c: Ptr)
    requires NoFiles(mem, c)
    ensures FilesAre(mem, c, [])
  {
  }

  lemma HeldFile(k: Layout, mem: Memory, c: Ptr, u: Regs, pid: u32, rs: seq<u32>, left: u32, record: u32)
    requires LayoutOk(k) && Held(k, mem, c, u, pid, rs, S.READY, left) && |rs| < MAXFILES && record > DEAD
    ensures Held(k, Put(mem, c + OFILE + 4 * |rs|, record), c, u, pid, rs + [record], S.READY, left)
    ensures OnPage(mem, Put(mem, c + OFILE + 4 * |rs|, record), c)
  {
    hide Placed, Parked, FilesAre;
    FilesPut(mem, c, rs, record);
    ParkedKept(k, mem, Put(mem, c + OFILE + 4 * |rs|, record), c, u, left);
  }

  // ---------- the kernel

  class Kernel {
    const m: Machine
    const queue: TailQueue
    var curthread: u32
    /** The stack pointer the processor loads when it leaves user mode. */
    var esp0: u32
    /** The scheduler's own local variable, kept on its stack while a process runs. */
    var local: u32
    var nextPid: u32
    /** What `sys_execve`, which returns no value, will leave in eax. */
    var left: map<Ptr, u32>

    /** A process runs; user and kernel registers aside, all is as `a` says. */
    ghost predicate Runs(a: Processes)
      reads this, m, queue
    {
      && World(m.k, m.mem, a, left, m.saved) && queue.Valid() && queue.elems == a.sys.queue
      && curthread == a.sys.cur && esp0 == a.sys.cur && local == a.sys.cur && nextPid == S.NextPid(a.sys.issued)
    }

    /** The machine is in user mode, in the process and with the registers `a` says. */
    ghost predicate Represents(a: Processes)
      reads this, m, queue
    {
      Runs(a) && m.r == Current(a)
    }

    /** The scheduler is about to scan. */
    ghost predicate Scans(b: Processes)
      reads this, m, queue
    {
      && AllWait(m.k, m.mem, b, left) && queue.Valid() && queue.elems == b.sys.queue
      && nextPid == S.NextPid(b.sys.issued) && m.r.esp == m.k.boot
    }

    /** In the kernel on the stack of the running process, whose registers are in its trap frame. */
    ghost predicate Entered(a: Processes)
      reads this, m, queue
    {
      Runs(a) && a.sys.cur >= FRAME && FrameAt(m.mem, a.sys.cur - FRAME, Current(a))
    }

    constructor (m: Machine)
      ensures this.m == m && fresh(queue) && queue.Valid() && queue.elems == [] && nextPid == 1
    {
      this.m := m;
      queue := new TailQueue();
      curthread, esp0, local, nextPid, left := 0, 0, 0, 1, map[];
    }

    /** The scan of `scheduler` over the run queue, reading state words. */
    method FindReady(ghost b: Processes) returns (t: Ptr)
      requires Scans(b)
      ensures var n := S.FirstReady(b.sys.queue, b.sys.state); t == At(b.sys.queue, n) && (t == NULL <==> n == |b.sys.queue|)
    {
      hide TailQueue.Valid, Holds, LayoutOk, Nodes, Scans, AllWait;
      ghost var s, n := queue.elems, 0;
      ScanStarts(b);
      queue.FirstAndNext(0);
      t := queue.first;
      while t != NULL && W(m.mem, t + STATE) != READY
        invariant 0 <= n <= |s| && t == At(s, n) && (t == NULL <==> n == |s|)
        invariant forall j :: 0 <= j < n ==> W(m.mem, s[j] + STATE) != READY
        decreases |s| - n
      {
        queue.FirstAndNext(n);
        queue.FirstAndNext(n + 1);
        t := queue.next[t];
        n := n + 1;
      }
      ScanEnds(m.mem, s, b.sys.state, n);
    }

    lemma ScanStarts(b: Processes)
      requires Scans(b)
      ensures queue.Valid() && queue.elems == b.sys.queue
      ensures forall j :: 0 <= j < |queue.elems| ==>
        (S.Ready(b.sys.state, queue.elems[j]) <==> W(m.mem, queue.elems[j] + STATE) == READY)
    {
      hide TailQueue.Valid, Parked, Nodes;
      forall j | 0 <= j < |queue.elems|
        ensures S.Ready(b.sys.state, queue.elems[j]) <==> W(m.mem, queue.elems[j] + STATE) == READY
      {
        var q := queue.elems[j];
        assert q in b.sys.queue;
        assert Held(m.k, m.mem, q, b.users[q], b.sys.pid[q], b.records[q], b.sys.state[q], LeftFor(left, q));
      }
    }

    /** The scheduler's scan, and its switch to the first ready process or its halt loop. */
    method Pick(js: Junk, ghost b: Processes) returns (halts: bool)
      requires Scans(b) && Fits(js, m.k.bootLow, m.k.boot)
      modifies this`curthread, this`esp0, this`local, m, queue
      ensures b.sys.phase == S.Scanning && halts == (Dispatched(b).sys.phase == S.Halted)
      ensures !halts ==> Going(Dispatched(b)) && Represents(Dispatched(b))
    {
      hide TailQueue.Valid, Holds, IdleParked, LayoutOk, Nodes, Parked, Removed, WellFormed, SameBut, SameOn, OwnPage, Fits, W, Put, Held,
        S.FirstReady;
      ghost var m0, n := m.mem, S.FirstReady(b.sys.queue, b.sys.state);
      var t := FindReady(b);
      if t == NULL {
        return true;
      }
      FirstHeld(m.k, m0, b, left, n);
      queue.Remove(t, n);
      curthread, esp0, local := t, t, t;
      StatePut(m.mem, t, RUNNING);
      m.mem := Put(m.mem, t + STATE, RUNNING);
      ghost var m1 := m.mem;
      StillParked(m.k, m0, m1, t, b.users[t], LeftFor(left, t));
      m.Dispatch(t, js, LeftFor(left, t), b.users[t]);
      PickedSame(m.k, m0, m1, m.mem, t);
      PickedWorld(m.k, m0, m.mem, b, left, m.saved, n);
      halts := false;
    }

    /** `yield` of the running process, up to the scheduler putting it at the end of the run queue. */
    method Yield(j: Junk, ghost u: Regs, ghost eax: u32)
      requires LayoutOk(m.k) && Placed(m.k, curthread) && IdleParked(m.k, m.mem, m.saved) && u.cs % 4 == 3
      requires Low(curthread) + 4 * m.k.yieldFrame + 28 <= m.r.esp <= curthread - FRAME && Fits(j, Low(curthread), m.r.esp)
      requires W(m.mem, curthread + TF) == curthread - FRAME
      requires queue.Valid() && local == curthread && curthread !in queue.elems
      modifies m, queue
      ensures OwnPage(old(m.mem), m.mem, curthread) && IdleParked(m.k, m.mem, m.saved) && m.r.esp == m.k.boot
      ensures var was := old(W(m.mem, curthread + STATE));
        W(m.mem, curthread + STATE) == if was == RUNNING then READY else was
      ensures old(ReturnsTo(m.k, m.mem, curthread, m.r.esp, u, eax)) ==> Parked(m.k, m.mem, curthread, u, eax)
      ensures queue.Valid() && queue.elems == old(queue.elems) + [curthread]
    {
      hide TailQueue.Valid, IdleParked, Nodes, Parked, ReturnsTo, OwnPage, Fits, W, Put;
      ghost var m0, e := m.mem, m.r.esp;
      YieldStore(m.k, m0, curthread, e, u, eax, m.saved);
      if W(m.mem, curthread + STATE) == RUNNING {
        m.mem := Put(m.mem, curthread + STATE, READY);
      }
      ghost var m1 := m.mem;
      m.YieldOut(curthread, j, u, eax);
      OwnPageTransitive(m0, m1, m.mem, curthread);
      m.r := m.r.(esp := m.r.esp + 8);
      queue.InsertTail(local);
    }

    /** `INT_0x20`: the running process is preempted. */
    method Timer(jy: Junk, js: Junk, ghost a: Processes) returns (halts: bool)
      requires Represents(a) && Fits(jy, Low(a.sys.cur), a.sys.cur - FRAME - 4) && Fits(js, m.k.bootLow, m.k.boot)
      modifies this, m, queue
      ensures Going(a) && halts == (Switched(a, S.Yield).sys.phase == S.Halted)
      ensures !halts ==> Going(Switched(a, S.Yield)) && Represents(Switched(a, S.Yield))
    {
      hide TailQueue.Valid, World, AllWait, IdleParked, LayoutOk, Nodes, Parked, ReturnsTo, OwnPage, Fits, W, Put, FrameAt, Placed,
        StateIs, FilesAre, WellFormed;
      ghost var m0, u := m.mem, m.r;
      Known(a);
      var p := esp0;
      m.EnterKernel(p);
      m.r := m.r.(eax := m.r.eax / 256 * 256 + 0x20);
      ghost var m1 := m.mem;
      TimerReturns(m.k, m1, p, u, LeftFor(left, p));
      m.Push(m.k.labels.timerRet);
      EntryPushed(m0, m1, m.mem, p, p - FRAME - 4, m.k.labels.timerRet);
      IdleUntouched(m.k, m0, m.mem, p, m.saved);
      ghost var m2 := m.mem;
      Yield(jy, u, LeftFor(left, p));
      OwnPageTransitive(m0, m2, m.mem, p);
      YieldedWorld(m.k, m0, m.mem, a, left, old(m.saved), u, left, S.Yield);
      SameUsers(a);
      halts := Pick(js, a.(sys := S.Next(a.sys, S.Yield)));
    }

    /** `INT_0x80` up to the jump through the table. */
    method EnterTrap(ghost a: Processes)
      requires Represents(a)
      modifies m
      ensures Entered(a) && m.r == Current(a).(esp := a.sys.cur - FRAME, cs := 8, ss := 16)
    {
      hide TailQueue.Valid, World, IdleParked, Nodes, OwnPage, W, Put, FrameAt, Placed, Outside, StateIs, FilesAre, WellFormed;
      ghost var m0, u := m.mem, m.r;
      Known(a);
      m.EnterKernel(esp0);
      FramePushed(m0, m.mem, a.sys.cur);
      StillRuns(m0, m.saved, a, u);
    }

    /** Work on the stack of the running process, which gets registers `v`, keeps everything else. */
    lemma StillRuns(m0: Memory, saved: Regs, a: Processes, v: Regs)
      requires World(m.k, m0, a, left, saved) && queue.Valid() && queue.elems == a.sys.queue && m.saved == saved && v.cs % 4 == 3
      requires curthread == a.sys.cur && esp0 == a.sys.cur && local == a.sys.cur && nextPid == S.NextPid(a.sys.issued)
      requires OwnPage(m0, m.mem, a.sys.cur) && W(m.mem, a.sys.cur + STATE) == W(m0, a.sys.cur + STATE)
      ensures Runs(Updated(a, v)) && Going(a) && (v == Current(a) ==> Runs(a))
    {
      hide TailQueue.Valid, IdleParked, Nodes, OwnPage, FrameAt, Placed, LayoutOk, Holds, WellFormed;
      Running(m.k, m0, a, left, saved);
      IdleUntouched(m.k, m0, m.mem, a.sys.cur, saved);
      WorldNow(m.k, m0, m.mem, a, left, saved, v);
      SameUsers(a);
    }

    /** The stub of entry `i` up to its handler, with `frame` words on the handler's stack and compiled code behind it. */
    method Handle(i: nat, back: u32, frame: nat, j: Junk, ghost a: Processes)
      requires Entered(a) && StubArgs(i, m.r) == StubArgs(i, Current(a)) && m.r.esp == a.sys.cur - FRAME
      requires frame <= m.k.execFrame && Fits(j, Low(a.sys.cur), CallDepth(a.sys.cur, i, Current(a)))
      modifies m
      ensures Entered(a) && m.r.esp == CallDepth(a.sys.cur, i, Current(a)) - 4 * frame
      ensures var e: nat := m.r.esp + 4 * frame; W(m.mem, e) == back && ArgsAt(m.mem, e + 4, StubArgs(i, Current(a)))
      ensures var e: nat := m.r.esp + 4 * frame;
        forall j: nat :: j < |StubArgs(i, Current(a))| ==> W(m.mem, e + 4 + 4 * j) == StubArgs(i, Current(a))[j]
    {
      hide TailQueue.Valid, World, IdleParked, Nodes, OwnPage, W, Put, FrameAt, Placed, Outside, ArgsAt, Fits, StateIs, FilesAre, WellFormed;
      Known(a);
      ghost var m0, u, p := m.mem, Current(a), a.sys.cur;
      m.PushArgs(StubArgs(i, m.r), back);
      ghost var m1, e := m.mem, m.r.esp;
      m.Compiled(frame, Low(p), j);
      StackWork(m0, m1, m.mem, p, e, u);
      ArgsStay(m1, m.mem, Low(p), e, StubArgs(i, u));
      ArgsAre(m.mem, e + 4, StubArgs(i, u));
      StillRuns(m0, m.saved, a, u);
    }

    /** The handler returns `ret`, the stub stores it in the frame, and `end_syscall` leaves the kernel. */
    method Return(i: nat, ret: u32, ghost back: u32, ghost a: Processes)
      requires Entered(a) && m.r.esp == CallDepth(a.sys.cur, i, Current(a)) && W(m.mem, m.r.esp) == back
      modifies m
      ensures Going(a) && Represents(Updated(a, Current(a).(eax := ret)))
    {
      hide TailQueue.Valid, World, IdleParked, Nodes, OwnPage, W, Put, FrameAt, Placed, Outside, ArgsAt, Fits, StateIs, FilesAre, WellFormed;
      Known(a);
      ghost var m0, u, p := m.mem, Current(a), a.sys.cur;
      m.Ret();
      assert m.r.eip == back;
      m.LeaveSyscall(|StubArgs(i, m.r)|, ret, u);
      EaxPut(m0, p, ret);
      StillRuns(m0, m.saved, a, u.(eax := ret));
    }

    /** A system call that only returns a value: `read`, `write`, `mmap`. */
    method Call(i: nat, ret: u32, j: Junk, ghost a: Processes)
      requires Entered(a) && m.r == Current(a).(esp := a.sys.cur - FRAME, cs := 8, ss := 16)
      requires Fits(j, Low(a.sys.cur), CallDepth(a.sys.cur, i, Current(a)))
      modifies m
      ensures Going(a) && Represents(Updated(a, Current(a).(eax := ret)))
    {
      hide TailQueue.Valid, World, FrameAt, Fits, WellFormed;
      Known(a);
      Handle(i, m.k.labels.callRet, 0, j, a);
      Return(i, ret, m.k.labels.callRet, a);
    }

    /** `restart`, `close` and `creat`, which jump straight to `end_syscall`. */
    method Ignored(ghost a: Processes)
      requires Entered(a) && m.r.esp == a.sys.cur - FRAME
      modifies m
      ensures Represents(a)
    {
      hide TailQueue.Valid, World, IdleParked, FrameAt, StateIs, FilesAre, WellFormed;
      Known(a);
      m.RestoreAll(Current(a));
    }

    /**
      The descriptor loop of `sys_open`: the first empty word, which can be the state word behind the array, takes
      the record; minus one if even that is in use.
     */
    method PutFile(record: u32, ghost rs: seq<u32>) returns (fd: int)
      requires FilesAre(m.mem, curthread, rs) && |rs| <= MAXFILES + 1 && (|rs| == MAXFILES + 1 ==> W(m.mem, curthread + STATE) != 0)
      modifies m`mem
      ensures var n := |rs|; if n < MAXFILES || (n == MAXFILES && old(W(m.mem, curthread + STATE)) == 0)
        then fd == n && m.mem == Put(old(m.mem), curthread + OFILE + 4 * n, record)
        else fd == -1 && m.mem == old(m.mem)
    {
      hide Put;
      ghost var n := |rs|;
      FilesTell(m.mem, curthread, rs);
      fd := 0;
      while Descriptor(m.mem, curthread, fd) != 0
        invariant 0 <= fd <= MAXFILES && fd <= n
        decreases MAXFILES - fd
      {
        if fd >= MAXFILES {
          return -1;
        }
        fd := fd + 1;
      }
      StateBehind(m.mem, curthread);
      m.mem := Put(m.mem, curthread + OFILE + 4 * fd, record);
    }

    /** `open`: with a path that resolves and a record, the caller gets the next descriptor, or minus one. */
    method Open(s: Service, j: Junk, ghost a: Processes)
      requires Entered(a) && m.r == Current(a).(esp := a.sys.cur - FRAME, cs := 8, ss := 16)
      requires Fits(j, Low(a.sys.cur), CallDepth(a.sys.cur, 5, Current(a))) && (s.opens ==> Records(s.records, 1))
      modifies m
      ensures Going(a)
      ensures var n := a.sys.files[a.sys.cur];
        Represents(if s.opens && n <= MAXFILES then Updated(WithFile(a, s.records), Current(a).(eax := n))
                   else Updated(a, Current(a).(eax := MINUS_ONE)))
    {
      hide TailQueue.Valid, World, IdleParked, FrameAt, Fits, WellFormed, Put, W, Descriptor, FilesAre, S.Opened, OwnPage, Placed, ArgsAt;
      Known(a);
      Handle(5, m.k.labels.callRet, 0, j, a);
      Known(a);
      if !s.opens {
        Return(5, MINUS_ONE, m.k.labels.callRet, a);
        return;
      }
      ghost var m0, p, n, e: nat, u := m.mem, a.sys.cur, a.sys.files[a.sys.cur], m.r.esp, Current(a);
      StateWord(m0, p, a.sys.state[p]);
      var fd := PutFile(s.records[0], a.records[p]);
      if fd < 0 {
        Return(5, MINUS_ONE, m.k.labels.callRet, a);
        return;
      }
      assert s.records == [s.records[0]];
      OpenedWorld(m.k, m0, m.mem, a, left, m.saved, s.records[0]);
      Opens(a, left, s.records[0]);
      DescriptorElsewhere(m0, p, n, s.records[0], e, u);
      Return(5, fd, m.k.labels.callRet, WithFile(a, s.records));
    }

    /** `exit`: a dead process goes back to the run queue, unless it is process 1. */
    method Exit(jx: Junk, jy: Junk, js: Junk, ghost a: Processes) returns (ends: bool)
      requires Entered(a) && m.r == Current(a).(esp := a.sys.cur - FRAME, cs := 8, ss := 16)
      requires Fits(jx, Low(a.sys.cur), CallDepth(a.sys.cur, 1, Current(a))) && Fits(js, m.k.bootLow, m.k.boot)
      requires Fits(jy, Low(a.sys.cur), YieldDepth(m.k, a.sys.cur, 1))
      modifies this, m, queue
      ensures Going(a) && ends == !Going(Switched(a, S.Exit))
      ensures a.sys.pid[a.sys.cur] == 1 ==> Switched(a, S.Exit).sys.phase == S.Panicked
      ensures !ends ==> Represents(Switched(a, S.Exit))
    {
      hide TailQueue.Valid, World, AllWait, IdleParked, Nodes, Parked, ReturnsTo, OwnPage, FrameAt, Fits, W, Put, Placed, ArgsAt,
        StateIs, FilesAre, WellFormed, S.FirstReady, Removed;
      Handle(1, m.k.labels.callRet, 0, jx, a);
      Known(a);
      if W(m.mem, curthread) == 1 {
        return true;
      }
      ghost var m0, u, p, was := m.mem, Current(a), a.sys.cur, m.saved;
      StatePut(m.mem, p, DEAD);
      m.mem := Put(m.mem, curthread + STATE, DEAD);
      ghost var m1 := m.mem;
      m.Push(m.k.labels.callRet);
      DeadPushed(m.k, m0, m1, m.mem, p, m.k.labels.callRet, was);
      ghost var m2 := m.mem;
      Yield(jy, u, 0);
      OwnPageTransitive(m0, m2, m.mem, p);
      ExitedWorld(m.k, m0, m.mem, a, left, was);
      Dies(a, left);
      ends := Pick(js, a.(sys := S.Next(a.sys, S.Exit)));
    }

    /** `execve`: a load that fails returns minus one. */
    method Exec(s: Service, jx: Junk, jy: Junk, js: Junk, ghost a: Processes) returns (ends: bool)
      requires Entered(a) && m.r == Current(a).(esp := a.sys.cur - FRAME, cs := 8, ss := 16)
      requires Fits(jx, Low(a.sys.cur), CallDepth(a.sys.cur, 8, Current(a))) && Fits(js, m.k.bootLow, m.k.boot)
      requires Fits(jy, Low(a.sys.cur), YieldDepth(m.k, a.sys.cur, 8))
      modifies this, m, queue
      ensures Going(a)
      ensures var b := if s.loads then Switched(Updated(a, NewProgram(Current(a), s)), S.Exec(true))
                       else Updated(a, Current(a).(eax := MINUS_ONE));
        ends == !Going(b) && (!ends ==> Represents(b))
    {
      hide TailQueue.Valid, World, FrameAt, Fits, WellFormed, S.FirstReady, Removed, Switched, S.Next;
      Known(a);
      if s.loads {
        ends := ExecLoads(s, jx, jy, js, a);
      } else {
        Handle(8, m.k.labels.execRet, 0, jx, a);
        Return(8, MINUS_ONE, m.k.labels.execRet, a);
        ends := false;
      }
    }

    /** A load that succeeds redirects the trap frame and yields. */
    method ExecLoads(s: Service, jx: Junk, jy: Junk, js: Junk, ghost a: Processes) returns (ends: bool)
      requires Entered(a) && m.r == Current(a).(esp := a.sys.cur - FRAME, cs := 8, ss := 16)
      requires Fits(jx, Low(a.sys.cur), CallDepth(a.sys.cur, 8, Current(a))) && Fits(js, m.k.bootLow, m.k.boot)
      requires Fits(jy, Low(a.sys.cur), YieldDepth(m.k, a.sys.cur, 8))
      modifies this, m, queue
      ensures Going(a)
      ensures var b := Switched(Updated(a, NewProgram(Current(a), s)), S.Exec(true)); ends == !Going(b) && (!ends ==> Represents(b))
    {
      hide TailQueue.Valid, World, AllWait, IdleParked, Nodes, Parked, ReturnsTo, OwnPage, FrameAt, Fits, W, Put, Placed, ArgsAt, Outside,
        LayoutOk, StateIs, FilesAre, WellFormed, S.Next, S.Placed, Dispatched;
      Known(a);
      ghost var u, v := Current(a), NewProgram(Current(a), s);
      Handle(8, m.k.labels.execRet, m.k.execFrame, jx, a);
      Known(a);
      ghost var m0, p, was := m.mem, a.sys.cur, m.saved;
      var tf := W(m.mem, curthread + TF);
      m.mem := Put(m.mem, tf + 48, s.entry);
      m.mem := Put(m.mem, tf + 60, KERNEL_OFFSET);
      ghost var m1 := m.mem;
      m.Push(m.k.labels.execYieldRet);
      ghost var m2 := m.mem;
      ExecReturns(m.k, m0, m1, m2, p, u, s.entry, s.eax);
      StackIsOwn(m0, m2, p, Low(p), p);
      IdleUntouched(m.k, m0, m2, p, was);
      OwnTf(m0, m2, p);
      Yield(jy, v, s.eax);
      OwnPageTransitive(m0, m2, m.mem, p);
      ghost var left0 := left;
      left := left[curthread := s.eax];
      YieldedWorld(m.k, m0, m.mem, a, left0, was, v, left, S.Exec(true));
      GivesWay(a, v, S.Exec(true), left0, left);
      SwitchIs(a, v, S.Exec(true));
      ends := Pick(js, Updated(a, v).(sys := S.Next(a.sys, S.Exec(true))));
    }

    /**
      `sys_fork` sets up the child's thread; a call that fails later leaves that thread behind, unqueued. With the
      state word overwritten the descriptors of the parent have no end, and nothing is known of what the copy does.
     */
    method Fork(s: Service, j: Junk, ghost a: Processes) returns (wild: bool)
      requires Entered(a) && m.r == Current(a).(esp := a.sys.cur - FRAME, cs := 8, ss := 16)
      requires Fits(j, Low(a.sys.cur), CallDepth(a.sys.cur, 2, Current(a))) && NewChild(m.k, a, s.child)
      requires s.forks ==> Records(s.records, a.sys.files[a.sys.cur])
      modifies this, m, queue
      ensures Going(a) && wild == (s.forks && a.sys.state[a.sys.cur] != S.RUNNING)
      ensures !wild ==>
        Represents(if s.forks then Updated(WithChild(a, s.child, s.records), Current(a).(eax := S.NextPid(a.sys.issued)))
                   else Updated(a.(sys := S.Next(a.sys, S.ForkFails)), Current(a).(eax := MINUS_ONE)))
      ensures s.forks && !wild ==> forall i :: 0 <= i < |s.records| ==>
        && Descriptor(m.mem, s.child, i) == s.records[i]
        && Descriptor(m.mem, a.sys.cur, i) == old(Descriptor(m.mem, a.sys.cur, i))
    {
      hide TailQueue.Valid, World, IdleParked, Nodes, Parked, OwnPage, OnPage, FrameAt, Fits, W, Put, Placed, ArgsAt, Outside,
        LayoutOk, NewThread, FreshThread, Described, SameBut, WithChild, StateIs, FilesAre, WellFormed, Descriptor, Held, S.Next, S.Placed;
      Known(a);
      Handle(2, m.k.labels.callRet, 0, j, a);
      Known(a);
      ChildPlaced(m.k, a, s.child);
      ChildNotNull(m.k, a, s.child);
      ChildUnqueued(a, s.child);
      var child := s.child;
      ghost var m0, u, p, e: nat, n := m.mem, Current(a), a.sys.cur, m.r.esp, a.sys.files[a.sys.cur];
      m.ProcCreate(child);
      ghost var m1 := m.mem;
      var pid := nextPid;
      nextPid := (nextPid + 1) % U32;
      ForkReady(m.k, m0, m1, p, child, pid, u);
      m.mem := Put(m.mem, child, pid);
      ghost var m2 := m.mem;
      if !s.forks {
        ForkLeaves(m.k, m0, m2, p, child, e, u, m.saved);
        ForkFailed(a);
        WorldElsewhere(m.k, m0, m2, a, left, m.saved, child);
        Return(2, MINUS_ONE, m.k.labels.callRet, a.(sys := S.Next(a.sys, S.ForkFails)));
        return false;
      }
      wild := CopyParent(s, e, m0, a);
      if !wild {
        Return(2, pid, m.k.labels.callRet, WithChild(a, child, s.records));
        RecordsShow(a, s, pid, old(m.mem));
      }
    }

    /** What the representation says of the descriptors after a fork. */
    lemma RecordsShow(a: Processes, s: Service, eax: u32, was: Memory)
      requires Going(a) && a.sys.cur as nat in a.records && a.sys.state[a.sys.cur] == S.RUNNING && NewChild(m.k, a, s.child)
      requires FilesAre(was, a.sys.cur, a.records[a.sys.cur]) && |s.records| == |a.records[a.sys.cur]| <= MAXFILES
      requires s.child != NULL && Represents(Updated(WithChild(a, s.child, s.records), Current(a).(eax := eax)))
      ensures forall i :: 0 <= i < |s.records| ==>
        && Descriptor(m.mem, s.child, i) == s.records[i]
        && Descriptor(m.mem, a.sys.cur, i) == Descriptor(was, a.sys.cur, i)
    {
      hide TailQueue.Valid, Parked, Nodes, LayoutOk, IdleParked, Placed;
      var b := Updated(WithChild(a, s.child, s.records), Current(a).(eax := eax));
      assert Held(m.k, m.mem, s.child, b.users[s.child], b.sys.pid[s.child], b.records[s.child], b.sys.state[s.child], LeftFor(left, s.child));
      var p := a.sys.cur;
      assert Held(m.k, m.mem, p, b.users[p], b.sys.pid[p], b.records[p], b.sys.state[p], LeftFor(left, p));
    }

    /** The second half of `sys_fork`: the parent's frame and files for the child, which then waits last. */
    method CopyParent(s: Service, ghost e: nat, ghost m0: Memory, ghost a: Processes) returns (wild: bool)
      requires World(m.k, m0, a, left, m.saved) && queue.Valid() && queue.elems == a.sys.queue && nextPid == S.NextPid(a.sys.issued + 1)
      requires curthread == a.sys.cur && esp0 == a.sys.cur && local == a.sys.cur && NewChild(m.k, a, s.child)
      requires ProcAt(a.sys.cur) && FrameAt(m0, a.sys.cur - FRAME, Current(a)) && Low(a.sys.cur) <= e <= a.sys.cur
      requires Records(s.records, a.sys.files[a.sys.cur]) && OnPage(m0, m.mem, s.child) && ProcAt(s.child)
      requires FreshThread(m.k, m.mem, s.child) && Described(m.mem, s.child, S.NextPid(a.sys.issued))
      requires W(m.mem, s.child + TF) == s.child - FRAME && W(m.mem, curthread + TF) == curthread - FRAME
      requires FrameAt(m.mem, a.sys.cur - FRAME, Current(a)) && (s.child <= a.sys.cur - FRAME || a.sys.cur <= s.child - FRAME)
      modifies m`mem, queue
      ensures wild == (a.sys.state[a.sys.cur] != S.RUNNING)
      ensures !wild ==>
        && Entered(WithChild(a, s.child, s.records)) && W(m.mem, e) == W(m0, e)
        && var b := WithChild(a, s.child, s.records); b.sys.cur == a.sys.cur && Going(b) && Current(b) == Current(a)
    {
      hide TailQueue.Valid, World, IdleParked, Nodes, Parked, OwnPage, OnPage, FrameAt, Fits, W, Put, Placed, Outside,
        LayoutOk, NewThread, FreshThread, Described, SameBut, WithChild, StateIs, FilesAre, WellFormed, Descriptor, Held;
      ParentFacts(m.k, m0, a, left, m.saved);
      ghost var u, p, pid, n := Current(a), a.sys.cur, S.NextPid(a.sys.issued), a.sys.files[a.sys.cur];
      ChildPlaced(m.k, a, s.child);
      ChildNotNull(m.k, a, s.child);
      ChildUnqueued(a, s.child);
      var child := s.child;
      ghost var m2 := m.mem;
      m.CopyFrame(W(m.mem, child + TF), W(m.mem, curthread + TF), u);
      ForkFilled(m.k, m0, m2, m.mem, child, pid, u);
      m.mem := Put(m.mem, W(m.mem, child + TF) + 28, 0);
      StateWord(m0, p, a.sys.state[p]);
      ParentKept(m0, m.mem, p, child, a.records[p]);
      if W(m.mem, curthread + STATE) != RUNNING {
        return true;
      }
      ChildHeld(m.k, m.mem, child, u.(eax := 0), pid, LeftFor(left, child));
      CopyFiles(child, s.records, p, a.records[p], m0, u.(eax := 0), pid);
      ForkLeaves(m.k, m0, m.mem, p, child, e, u, m.saved);
      queue.InsertTail(child);
      ForkedWorld(m.k, m0, m.mem, a, left, m.saved, child, s.records);
      ChildAgrees(a, left, child, s.records);
      wild := false;
    }

    /** The descriptor loop of `sys_fork`: each open file of the parent gives the child a record of its own. */
    method CopyFiles(child: u32, records: seq<u32>, ghost p: Ptr, ghost rs: seq<u32>, ghost m0: Memory, ghost u: Regs,
                     ghost pid: u32)
      requires LayoutOk(m.k) && ProcAt(p) && ProcAt(child) && child != p && curthread == p && |rs| <= MAXFILES && Records(records, |rs|)
      requires FilesAre(m0, p, rs) && W(m0, p + STATE) == 0 && OnPage(m0, m.mem, child)
      requires Held(m.k, m.mem, child, u, pid, [], S.READY, LeftFor(left, child))
      modifies m`mem
      ensures Held(m.k, m.mem, child, u, pid, records, S.READY, LeftFor(left, child)) && OnPage(m0, m.mem, child)
      ensures forall i :: 0 <= i < |rs| ==> Descriptor(m.mem, child, i) == records[i] && Descriptor(m.mem, p, i) == rs[i]
    {
      hide LayoutOk, Held, OnPage, FilesAre, Put, W, Descriptor;
      ghost var n := |rs|;
      var fd := 0;
      ParentFiles(m0, m.mem, p, child, rs, fd);
      while Descriptor(m.mem, curthread, fd) != 0
        invariant 0 <= fd <= n && OnPage(m0, m.mem, child) && (Descriptor(m.mem, curthread, fd) != 0 <==> fd < n)
        invariant Held(m.k, m.mem, child, u, pid, records[..fd], S.READY, LeftFor(left, child))
        decreases n - fd
      {
        ghost var before := m.mem;
        HeldFile(m.k, before, child, u, pid, records[..fd], LeftFor(left, child), records[fd]);
        assert records[..fd] + [records[fd]] == records[..fd + 1];
        m.mem := Put(m.mem, child + OFILE + 4 * fd, records[fd]);
        OnPageTransitive(m0, before, m.mem, child);
        fd := fd + 1;
        ParentFiles(m0, m.mem, p, child, rs, fd);
      }
      assert records[..n] == records;
      BothFiles(m.k, m0, m.mem, p, child, u, pid, rs, records, LeftFor(left, child));
    }

    /** `INT_0x80`: the jump through the table selects the stub; outside the table nothing is known. */
    method Syscall(s: Service, n: Noise, ghost a: Processes) returns (goes: bool)
      requires Represents(a) && Allowed(m.k, a, Trap(s), n) && Regular(Current(a))
      modifies this, m, queue
      ensures Going(a) && goes == Going(Served(a, s))
      ensures goes ==> Represents(Served(a, s))
    {
      hide TailQueue.Valid, World, IdleParked, Nodes, Parked, FrameAt, Fits, W, Placed, NewChild, Records, StateIs, FilesAre, WellFormed,
        S.FirstReady, Removed, Switched, S.Next, S.Opened;
      Known(a);
      ServedGoes(a, s);
      EnterTrap(a);
      TableHit(m.k, m.r.eax);
      var slot := Slot(m.k, m.r.eax);
      if !InTable(m.k, slot) {
        return false;
      }
      var i := (slot - m.k.table) / 4;
      goes := true;
      if i == 1 {
        var ends := Exit(n.jx, n.jy, n.js, a);
        goes := !ends;
      } else if i == 2 {
        var wild := Fork(s, n.jx, a);
        goes := !wild;
      } else if i == 5 {
        Open(s, n.jx, a);
      } else if i == 8 {
        var ends := Exec(s, n.jx, n.jy, n.js, a);
        goes := !ends;
      } else if i == 0 || i == 6 || i == 7 {
        Ignored(a);
      } else {
        Call(i, s.ret, n.jx, a);
      }
      if goes {
        Known(Served(a, s));
      }
    }

    /** One event on the machine does what `After` says to the processes. */
    method Step(e: Event, n: Noise, ghost a: Processes) returns (goes: bool)
      requires Represents(a) && Allowed(m.k, a, e, n)
      modifies this, m, queue
      ensures goes == Going(After(a, e))
      ensures goes ==> Represents(After(a, e))
    {
      hide TailQueue.Valid, World, IdleParked, Nodes, Parked, FrameAt, Fits, W, Placed, NewChild, Served, Switched, StateIs, FilesAre,
        WellFormed, Regular, SegmentsOk;
      Known(a);
      match e {
        case UserRuns(regs) =>
          m.r := regs;
          StillRuns(m.mem, m.saved, a, regs);
          return true;
        case Tick =>
          if !SegmentsOk(m.r) {
            return false;
          }
          var halts := Timer(n.jy, n.js, a);
          SwitchedGoes(a, S.Yield);
          goes := !halts;
        case Trap(s) =>
          if !Regular(m.r) {
            return false;
          }
          goes := Syscall(s, n, a);
      }
    }

    /** `initsys` as far as threads and descriptors go, and the first turn of `scheduler`. */
    method Boot(first: u32, entry: u32, records: seq<u32>, js: Junk)
      requires queue.Valid() && queue.elems == [] && nextPid == 1 && |records| <= MAXFILES && Records(records, |records|)
      requires LayoutOk(m.k) && Placed(m.k, first) && m.r.esp == m.k.boot && Fits(js, m.k.bootLow, m.k.boot)
      modifies this, m, queue
      ensures Represents(Started(first, records, entry))
    {
      hide TailQueue.Valid, IdleParked, Nodes, Parked, FrameAt, Fits, W, Put, FreshThread, World, AllWait, LayoutOk, Held, FilesAre, Descriptor;
      m.ProcCreate(first);
      FirstStart(m.k, m.mem, first, nextPid, entry, LeftFor(left, first));
      m.mem := Put(m.mem, first, nextPid);
      nextPid := nextPid + 1;
      var tf := W(m.mem, first + TF);
      m.mem := Put(m.mem, tf + 48, entry);
      m.mem := Put(m.mem, tf + 60, KERNEL_OFFSET);
      curthread := first;
      FirstHeldNow(m.k, m.mem, first, FirstUser(entry), LeftFor(left, first));
      var i := 0;
      while i < |records|
        invariant 0 <= i <= |records| && Held(m.k, m.mem, first, FirstUser(entry), 1, records[..i], S.READY, LeftFor(left, first))
        invariant nextPid == 2 && queue.Valid() && queue.elems == [] && curthread == first && m.r == old(m.r)
      {
        FilesOf(m.k, m.mem, first, FirstUser(entry), 1, records[..i], S.READY, LeftFor(left, first));
        HeldFile(m.k, m.mem, first, FirstUser(entry), 1, records[..i], LeftFor(left, first), records[i]);
        assert records[..i] + [records[i]] == records[..i + 1];
        var fd := PutFile(records[i], records[..i]);
        i := i + 1;
      }
      queue.InsertTail(first);
      assert queue.elems == [first];
      assert records[..|records|] == records;
      FirstWaiting(m.k, m.mem, first, records, entry, left);
      var halts := Pick(js, Booted(first, records, entry));
      BootGoes(first, records, entry);
    }

    /** Every run from boot: the machine carries out exactly the events on the processes, up to the one that ends it. */
    method Run(first: u32, entry: u32, records: seq<u32>, js: Junk, es: seq<Event>, ns: seq<Noise>) returns (goes: bool)
      requires queue.Valid() && queue.elems == [] && nextPid == 1 && |records| <= MAXFILES && Records(records, |records|)
      requires LayoutOk(m.k) && Placed(m.k, first) && m.r.esp == m.k.boot && Fits(js, m.k.bootLow, m.k.boot)
      requires AllAllowed(m.k, Started(first, records, entry), es, ns)
      modifies this, m, queue
      ensures goes == Going(AfterAll(Started(first, records, entry), es))
      ensures goes ==> Represents(AfterAll(Started(first, records, entry), es))
    {
      hide TailQueue.Valid, Represents, Fits, LayoutOk, Allowed, After, Started, Records;
      ghost var a := Started(first, records, entry);
      BootGoes(first, records, entry);
      Boot(first, entry, records, js);
      var i := 0;
      goes := true;
      while i < |es| && goes
        invariant 0 <= i <= |es| && goes == Going(AfterAll(a, es[..i])) && (goes ==> Represents(AfterAll(a, es[..i])))
      {
        goes := Step(es[i], ns[i], AfterAll(a, es[..i]));
        AfterOneMore(a, es, i);
        i := i + 1;
      }
      assert es[..|es|] == es;
      if !goes {
        Stopped(a, es, i);
      }
    }

    /** What is known of the process that runs. */
    lemma Known(a: Processes)
      requires Runs(a)
      ensures var p := a.sys.cur;
        && Going(a) && Placed(m.k, p) && Current(a).cs % 4 == 3 && p !in queue.elems && p != NULL && WellFormed(a) && S.Placed(a.sys)
        && curthread == esp0 == local == p && W(m.mem, curthread + TF) == curthread - FRAME
        && p in a.records && W(m.mem, curthread) == a.sys.pid[p] && FilesAre(m.mem, p, a.records[p]) && |a.records[p]| == a.sys.files[p] && StateIs(m.mem, p, a.sys.state[p])
        && (a.sys.state[p] == S.RUNNING || a.sys.state[p] == S.Overwritten)
        && (a.sys.state[p] == S.RUNNING ==> a.sys.files[p] <= MAXFILES)
        && (a.sys.state[p] == S.Overwritten ==> a.sys.files[p] == MAXFILES + 1)
      ensures LayoutOk(m.k) && IdleParked(m.k, m.mem, m.saved) && queue.Valid()
      ensures ProcAt(a.sys.cur) && 0 <= m.k.yieldFrame + m.k.execFrame <= 900
    {
      hide Nodes, Parked, TailQueue.Valid, IdleParked, StateIs, FilesAre, S.Placed, S.FilesOk;
      Running(m.k, m.mem, a, left, m.saved);
    }
  }

  lemma YieldStore(k: Layout, mem: Memory, p: nat, e: nat, u: Regs, eax: u32, saved: Regs)
    requires LayoutOk(k) && Placed(k, p) && IdleParked(k, mem, saved) && W(mem, p + TF) == p - FRAME
    ensures var m := if W(mem, p + STATE) == RUNNING then Put(mem, p + STATE, READY) else mem;
      && OwnPage(mem, m, p) && IdleParked(k, m, saved) && W(m, p + TF) == p - FRAME
      && (e <= p - FRAME && ReturnsTo(k, mem, p, e, u, eax) ==> ReturnsTo(k, m, p, e, u, eax))
      && W(m, p + STATE) == if W(mem, p + STATE) == RUNNING then READY else W(mem, p + STATE)
  {
    hide IdleParked, ReturnsTo;
    var m := if W(mem, p + STATE) == RUNNING then Put(mem, p + STATE, READY) else mem;
    IdleUntouched(k, mem, m, p, saved);
    if e <= p - FRAME && ReturnsTo(k, mem, p, e, u, eax) {
      AboveKept(k, mem, m, p, e, u, eax);
    }
  }

  /** The trap frame and words pushed below it. */
  lemma EntryPushed(m0: Memory, m1: Memory, m2: Memory, p: nat, e: nat, x: u32)
    requires ProcAt(p) && Outside(m0, m1, Low(p), p) && Low(p) <= e < p && m2 == Put(m1, e, x)
    ensures OwnPage(m0, m2, p) && W(m2, p + STATE) == W(m0, p + STATE) && W(m2, p + TF) == W(m0, p + TF)
  {
  }

  lemma FramePushed(m0: Memory, m1: Memory, p: nat)
    requires ProcAt(p) && Outside(m0, m1, p - FRAME, p)
    ensures OwnPage(m0, m1, p) && W(m1, p + STATE) == W(m0, p + STATE)
  {
  }

  /** Pushes below the trap frame, then compiled code below them. */
  lemma StackWork(m0: Memory, m1: Memory, m2: Memory, p: nat, e: nat, u: Regs)
    requires ProcAt(p) && FrameAt(m0, p - FRAME, u) && Low(p) <= e <= p - FRAME
    requires Outside(m0, m1, e, p - FRAME) && Outside(m1, m2, Low(p), e)
    ensures FrameAt(m2, p - FRAME, u) && OwnPage(m0, m2, p) && W(m2, p + STATE) == W(m0, p + STATE) && W(m2, e) == W(m1, e)
  {
    hide FrameAt;
    FrameKept(m0, m2, p - FRAME, u);
  }

  lemma ArgsStay(m1: Memory, m2: Memory, lo: int, e: nat, args: seq<u32>)
    requires ArgsAt(m1, e + 4, args) && Outside(m1, m2, lo, e)
    ensures ArgsAt(m2, e + 4, args)
  {
  }

  lemma ArgsAre(mem: Memory, a: nat, args: seq<u32>)
    requires ArgsAt(mem, a, args)
    ensures forall j: nat :: j < |args| ==> W(mem, a + 4 * j) == args[j]
  {
    forall j: nat | j < |args|
      ensures W(mem, a + 4 * j) == args[j]
    {
      assert WordAt(mem, a, j) == args[j];
    }
  }

  lemma EaxPut(m0: Memory, p: nat, x: u32)
    requires ProcAt(p)
    ensures var m := Put(m0, p - FRAME + 28, x); OwnPage(m0, m, p) && W(m, p + STATE) == W(m0, p + STATE)
  {
  }

  lemma DeadPushed(k: Layout, m0: Memory, m1: Memory, m2: Memory, p: nat, x: u32, saved: Regs)
    requires LayoutOk(k) && Placed(k, p) && m1 == Put(m0, p + STATE, DEAD) && m2 == Put(m1, p - FRAME - 12, x) && IdleParked(k, m0, saved)
    ensures OwnPage(m0, m2, p) && W(m2, p + STATE) == DEAD && W(m2, p + TF) == W(m0, p + TF) && IdleParked(k, m2, saved)
  {
    hide IdleParked;
    assert OwnPage(m0, m2, p);
    IdleUntouched(k, m0, m2, p, saved);
  }

  lemma OwnTf(m0: Memory, m1: Memory, p: nat)
    requires OwnPage(m0, m1, p)
    ensures W(m1, p + TF) == W(m0, p + TF)
  {
  }

  /** Building a child touches neither the parent's stack nor the scheduler. */
  lemma ForkLeaves(k: Layout, m0: Memory, m1: Memory, p: nat, child: nat, e: nat, u: Regs, saved: Regs)
    requires LayoutOk(k) && Placed(k, p) && Placed(k, child) && child != p && OnPage(m0, m1, child)
    requires FrameAt(m0, p - FRAME, u) && Low(p) <= e <= p && IdleParked(k, m0, saved)
    ensures FrameAt(m1, p - FRAME, u) && W(m1, e) == W(m0, e) && IdleParked(k, m1, saved) && SameBut(k, m0, m1, child)
  {
    hide FrameAt, SameBut;
    ForkStack(m0, m1, p, child, e, u);
    OnIsSame(k, m0, m1, child);
    PagesApart(child, k.idle);
  }

  lemma StillParked(k: Layout, before: Memory, after: Memory, q: nat, u: Regs, left: u32)
    requires LayoutOk(k) && Parked(k, before, q, u, left) && after == Put(before, q + STATE, RUNNING)
    ensures Parked(k, after, q, u, left)
  {
    hide Parked;
    ParkedKept(k, before, after, q, u, left);
  }

  lemma SameUsers(a: Processes)
    requires Going(a)
    ensures Updated(a, Current(a)) == a
  {
  }

  lemma PickedSame(k: Layout, m0: Memory, m1: Memory, m2: Memory, q: nat)
    requires Placed(k, q) && m1 == Put(m0, q + STATE, RUNNING) && SameBut(k, m1, m2, q) && SameOn(m1, m2, q, High(q))
    ensures SameBut(k, m0, m2, q) && W(m2, q + STATE) == RUNNING
    ensures forall x: nat :: q <= x < q + STATE && x != q + CONTEXT ==> W(m2, x) == W(m0, x)
  {
    forall p: nat | Placed(k, p) && p != q
      ensures SameOn(m0, m2, Low(p), High(p))
    {
      PagesApart(p, q);
    }
  }

  /** The scan ends at the first ready process, or in the halt loop if there is none. */
  lemma ScanEnds(mem: Memory, elems: seq<Ptr>, state: map<Ptr, S.ProcState>, n: nat)
    requires n <= |elems| && forall j :: 0 <= j < |elems| ==> (S.Ready(state, elems[j]) <==> W(mem, elems[j] + STATE) == READY)
    requires forall j :: 0 <= j < n ==> W(mem, elems[j] + STATE) != READY
    requires n < |elems| ==> W(mem, elems[n] + STATE) == READY
    ensures n == S.FirstReady(elems, state)
  {
    S.FirstReadyFound(elems, state, n);
  }

  /** The word behind the last descriptor is the state. */
  lemma StateBehind(mem: Memory, q: Ptr)
    ensures Descriptor(mem, q, MAXFILES) == W(mem, q + STATE)
  {
  }

  lemma StateWord(mem: Memory, q: Ptr, st: S.ProcState)
    requires StateIs(mem, q, st)
    ensures st == S.RUNNING ==> W(mem, q + STATE) == 0
    ensures st == S.Overwritten ==> W(mem, q + STATE) != 0
  {
  }

  /** A store into a descriptor touches neither the frame nor the stack below it. */
  lemma DescriptorElsewhere(mem: Memory, p: nat, n: nat, record: u32, e: nat, u: Regs)
    requires ProcAt(p) && FrameAt(mem, p - FRAME, u) && e < p
    ensures var m := Put(mem, p + OFILE + 4 * n, record); FrameAt(m, p - FRAME, u) && W(m, e) == W(mem, e)
  {
  }

  /** Giving way ends in the next dispatch. */
  lemma SwitchIs(a: Processes, u: Regs, e: S.Event)
    requires Going(a) && S.Placed(a.sys) && (e == S.Yield || e == S.Exec(true))
    ensures Switched(Updated(a, u), e) == Dispatched(Updated(a, u).(sys := S.Next(a.sys, e)))
    ensures var b := Switched(Updated(a, u), e); b.sys.phase == S.Halted ==> !Going(b)
  {
  }

  lemma ForkFailed(a: Processes)
    requires Going(a)
    ensures var b := a.(sys := S.Next(a.sys, S.ForkFails));
      Going(b) && b.sys.cur == a.sys.cur && Current(b) == Current(a) && b.sys.queue == a.sys.queue && b.sys.issued == a.sys.issued + 1
  {
  }

  lemma ChildUnqueued(a: Processes, c: Ptr)
    requires S.Placed(a.sys) && c !in a.sys.state && Going(a)
    ensures c !in a.sys.queue && c != a.sys.cur
  {
  }

  lemma OnPageTransitive(a: Memory, b: Memory, c: Memory, q: nat)
    requires OnPage(a, b, q) && OnPage(b, c, q)
    ensures OnPage(a, c, q)
  {
  }

  /** Building a child does not touch the parent's descriptors and state. */
  lemma ParentKept(m0: Memory, m1: Memory, p: Ptr, child: Ptr, rs: seq<u32>)
    requires ProcAt(p) && ProcAt(child) && child != p && OnPage(m0, m1, child) && FilesAre(m0, p, rs)
    ensures FilesAre(m1, p, rs) && W(m1, p + STATE) == W(m0, p + STATE)
  {
    hide FilesAre;
    PagesApart(p, child);
    FilesKept(m0, m1, p, rs);
  }

  lemma ParentFiles(m0: Memory, m1: Memory, p: Ptr, child: Ptr, rs: seq<u32>, fd: nat)
    requires ProcAt(p) && ProcAt(child) && child != p && OnPage(m0, m1, child) && FilesAre(m0, p, rs) && W(m0, p + STATE) == 0
    requires fd <= |rs| <= MAXFILES
    ensures Descriptor(m1, p, fd) != 0 <==> fd < |rs|
  {
    hide OnPage, FilesAre;
    ParentKept(m0, m1, p, child, rs);
    FilesTell(m1, p, rs);
    StateBehind(m1, p);
  }

  /** After the copy the child has its own records, and the parent those it had. */
  lemma BothFiles(k: Layout, m0: Memory, m1: Memory, p: Ptr, child: Ptr, u: Regs, pid: u32, rs: seq<u32>, records: seq<u32>, left: u32)
    requires LayoutOk(k) && ProcAt(p) && ProcAt(child) && child != p && OnPage(m0, m1, child) && FilesAre(m0, p, rs)
    requires |records| == |rs| <= MAXFILES && Held(k, m1, child, u, pid, records, S.READY, left)
    ensures forall i :: 0 <= i < |rs| ==> Descriptor(m1, child, i) == records[i] && Descriptor(m1, p, i) == rs[i]
  {
    hide OnPage, Parked, Placed;
    ParentKept(m0, m1, p, child, rs);
  }

  lemma SwitchedGoes(a: Processes, e: S.Event)
    requires WellFormed(a) && Going(a) && (e == S.Yield || e == S.Exec(true) || e == S.Exit)
    ensures var b := Switched(a, e);
      Going(b) <==> b.sys.phase == S.Running
  {
    hide S.FilesOk, S.Placed;
    SwitchedWellFormed(a, e);
    SwitchedCurrent(a, e);
  }

  lemma SwitchedCurrent(a: Processes, e: S.Event)
    requires WellFormed(a) && Going(a) && (e == S.Yield || e == S.Exec(true) || e == S.Exit)
    ensures var b := Switched(a, e); b.sys.phase == S.Running ==> S.Known(b.sys)
  {
    hide Nodes, S.FirstReady, Removed;
    var b := Switched(a, e);
    hide S.FilesOk;
    SwitchedWellFormed(a, e);
    assert S.Out(b.sys, b.sys.cur) <==> b.sys.phase == S.Running || b.sys.phase == S.Panicked;
  }

  lemma ServedGoes(a: Processes, s: Service)
    requires WellFormed(a) && Going(a)
    ensures Index(Current(a).eax) >= CALLS ==> !Going(Served(a, s))
  {
    hide S.Placed, S.FilesOk;
  }

  lemma FirstHeldNow(k: Layout, mem: Memory, first: Ptr, u: Regs, left: u32)
    requires LayoutOk(k) && Placed(k, first) && Described(mem, first, 1) && W(mem, first + TF) == first - FRAME
    requires Parked(k, mem, first, u, left) && u.cs % 4 == 3
    ensures Held(k, mem, first, u, 1, [], S.READY, left)
  {
    hide Parked;
    FilesNone(mem, first);
  }

  lemma FilesOf(k: Layout, mem: Memory, q: Ptr, u: Regs, pid: u32, rs: seq<u32>, st: S.ProcState, left: u32)
    requires LayoutOk(k) && Held(k, mem, q, u, pid, rs, st, left)
    ensures FilesAre(mem, q, rs)
  {
  }

  lemma FirstWaiting(k: Layout, mem: Memory, first: Ptr, rs: seq<u32>, entry: u32, left: map<Ptr, u32>)
    requires LayoutOk(k) && first != NULL && |rs| <= MAXFILES && Records(rs, |rs|)
    requires Held(k, mem, first, FirstUser(entry), 1, rs, S.READY, LeftFor(left, first))
    ensures AllWait(k, mem, Booted(first, rs, entry), left)
  {
    hide Held;
  }

  lemma BootGoes(first: Ptr, records: seq<u32>, entry: u32)
    requires first != NULL && |records| <= MAXFILES
    ensures Going(Started(first, records, entry)) && Dispatched(Booted(first, records, entry)).sys.phase == S.Running
  {
    var b := Booted(first, records, entry);
    assert S.Ready(b.sys.state, first);
  }

  /** What a fork needs to know of the parent. */
  lemma ParentFacts(k: Layout, mem: Memory, a: Processes, left: map<Ptr, u32>, saved: Regs)
    requires World(k, mem, a, left, saved)
    ensures var p := a.sys.cur;
      && LayoutOk(k) && Going(a) && S.Placed(a.sys) && Placed(k, p) && Current(a).cs % 4 == 3 && IdleParked(k, mem, saved)
      && p in a.records && FilesAre(mem, p, a.records[p]) && |a.records[p]| == a.sys.files[p] && StateIs(mem, p, a.sys.state[p])
      && (a.sys.state[p] == S.RUNNING || a.sys.state[p] == S.Overwritten) && (a.sys.state[p] == S.RUNNING ==> a.sys.files[p] <= MAXFILES)
  {
    hide Nodes, Parked, IdleParked, StateIs, FilesAre, S.Placed, S.FilesOk;
    Running(k, mem, a, left, saved);
  }
}
