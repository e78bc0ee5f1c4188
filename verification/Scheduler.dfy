/**
  The process scheduler of kernel/proc.c as a step system. Interrupt gates and `cli` make every step
  atomic. The run queue also holds processes that never run again, which are never unlinked; the main result is that
  the ready ones in it nevertheless behave as a plain first-in first-out queue.
 */
module Scheduler {
  import opened Words
  import opened IntrusiveLists
  import L = ProcLayout

  /** Overwritten: the state word, which lies right behind the descriptors, holds the record of a seventeenth open file. */
  datatype ProcState = RUNNING | READY | SLEEPING | BLOCKED | DEAD | Overwritten

  /** Scanning: in the idle context, about to look for a ready process. Halted: the scan found none. */
  datatype Phase = Scanning | Running | Panicked | Halted

  /** `files` counts the open files of each process, `issued` the pids handed out so far. */
  datatype System = System(queue: seq<Ptr>, cur: Ptr, phase: Phase, state: map<Ptr, ProcState>, pid: map<Ptr, u32>,
                           files: map<Ptr, nat>, issued: nat)

  /** Yield stands for the timer interrupt as well; Open for an open whose path resolves. */
  datatype Event = Dispatch | Yield | Fork(child: Ptr) | ForkFails | Exec(loads: bool) | Exit | Open

  // ---------- the step function

  ghost predicate Ready(state: map<Ptr, ProcState>, p: Ptr) {
    p in state && state[p] == READY
  }

  /** Position of the first ready process, `|q|` if there is none. */
  ghost function FirstReady(q: seq<Ptr>, state: map<Ptr, ProcState>): (k: nat)
    ensures k <= |q|
  {
    if q == [] || Ready(state, q[0]) then 0 else 1 + FirstReady(q[1..], state)
  }

  ghost predicate Known(s: System) {
    s.cur in s.state && s.cur in s.pid && s.cur in s.files
  }

  /** A fork copies descriptors up to the first empty one, so it must find one before or in the state word. */
  ghost predicate Enabled(s: System, e: Event) {
    match e
    case Dispatch => s.phase == Scanning
    case Fork(c) =>
      s.phase == Running && Known(s) && s.state[s.cur] == RUNNING && c != NULL && c !in s.state && c !in s.pid && c !in s.files
    case _ => s.phase == Running && Known(s)
  }

  /** `yield`, then the scheduler puts the process back at the tail. */
  ghost function Yielded(s: System): System
    requires s.cur in s.state
  {
    var state := if s.state[s.cur] == RUNNING then s.state[s.cur := READY] else s.state;
    s.(state := state, queue := s.queue + [s.cur], phase := Scanning)
  }

  /** An open takes the first empty descriptor; the word behind the last one is the state, zero while RUNNING. */
  ghost function Opened(s: System): System
    requires Known(s)
  {
    var n := s.files[s.cur];
    if n < L.MAXFILES then s.(files := s.files[s.cur := n + 1])
    else if s.state[s.cur] == RUNNING then s.(files := s.files[s.cur := n + 1], state := s.state[s.cur := Overwritten])
    else s
  }

  ghost function NextPid(issued: nat): u32 {
    (1 + issued) % U32
  }

  ghost function Next(s: System, e: Event): System
    requires Enabled(s, e)
  {
    match e
    case Dispatch =>
      var k := FirstReady(s.queue, s.state);
      if k == |s.queue| then s.(phase := Halted)
      else s.(queue := Removed(s.queue, k), cur := s.queue[k], phase := Running,
              state := s.state[s.queue[k] := RUNNING])
    case Yield => Yielded(s)
    case Fork(c) =>
      s.(queue := s.queue + [c], state := s.state[c := READY], pid := s.pid[c := NextPid(s.issued)],
         files := s.files[c := s.files[s.cur]], issued := s.issued + 1)
    case ForkFails => s.(issued := s.issued + 1)
    case Exec(loads) => if loads then Yielded(s) else s
    case Exit => if s.pid[s.cur] == 1 then s.(phase := Panicked) else Yielded(s.(state := s.state[s.cur := DEAD]))
    case Open => Opened(s)
  }

  /** The state `initsys` leaves: the first process, ready and queued, with `n` open files. */
  ghost function Booted(init: Ptr, n: nat): System {
    System([init], init, Scanning, map[init := READY], map[init := NextPid(0)], map[init := n], 1)
  }

  // ---------- the safety invariant

  /** A process that runs or may run. */
  ghost predicate Alive(st: ProcState) {
    st == RUNNING || st == READY
  }

  /** A queued process is ready, or dead, or has its state overwritten. */
  ghost predicate Queueable(st: ProcState) {
    st == READY || st == DEAD || st == Overwritten
  }

  ghost predicate Out(s: System, p: Ptr) {
    (s.phase == Running || s.phase == Panicked) && p == s.cur
  }

  /** Processes that the system knows of, each in exactly one place. */
  ghost predicate Placed(s: System) {
    && Nodes(s.queue)
    && s.state.Keys == s.pid.Keys == s.files.Keys
    && (forall p :: p in s.state <==> p in s.queue || Out(s, p))
    && (forall p :: p in s.queue ==> p in s.state && Queueable(s.state[p]) && !Out(s, p))
    && (Out(s, s.cur) ==> s.cur != NULL && s.cur in s.state && (s.state[s.cur] == RUNNING || s.state[s.cur] == Overwritten))
  }

  /** The state word is overwritten by the seventeenth file; whoever may run has at most sixteen. */
  ghost predicate FilesOk(s: System) {
    forall p :: p in s.state && p in s.files ==>
      && (Alive(s.state[p]) ==> s.files[p] <= L.MAXFILES)
      && (s.state[p] == Overwritten ==> s.files[p] == L.MAXFILES + 1)
  }

  /** Until the 32-bit counter wraps, pids are distinct and were all issued. */
  ghost predicate DistinctPids(s: System) {
    && s.issued >= 1
    && (s.issued < U32 ==>
      && (forall p :: p in s.pid ==> 1 <= s.pid[p] <= s.issued)
      && (forall p, q :: p in s.pid && q in s.pid && s.pid[p] == s.pid[q] ==> p == q))
  }

  /** Process 1 is there and alive. */
  ghost predicate InitAlive(s: System, init: Ptr) {
    init in s.pid && s.pid[init] == 1 && init in s.state && s.state[init] != DEAD
  }

  /** The halt loop is entered only when nobody is ready. */
  ghost predicate HaltedOk(s: System) {
    s.phase == Halted ==> forall p :: p in s.state ==> s.state[p] != READY
  }

  ghost predicate Invariant(s: System, init: Ptr) {
    Placed(s) && FilesOk(s) && DistinctPids(s) && InitAlive(s, init) && HaltedOk(s)
  }

  lemma {:induction false} FirstReadyIs(q: seq<Ptr>, state: map<Ptr, ProcState>)
    ensures var k := FirstReady(q, state);
      (forall i :: 0 <= i < k ==> !Ready(state, q[i])) && (k < |q| ==> Ready(state, q[k]))
  {
    if q != [] && !Ready(state, q[0]) {
      FirstReadyIs(q[1..], state);
    }
  }

  lemma FirstReadyFound(q: seq<Ptr>, state: map<Ptr, ProcState>, k: nat)
    requires k <= |q| && (forall i :: 0 <= i < k ==> !Ready(state, q[i])) && (k < |q| ==> Ready(state, q[k]))
    ensures FirstReady(q, state) == k
  {
    FirstReadyIs(q, state);
  }

  lemma RemovedMembers(q: seq<Ptr>, k: nat)
    requires Nodes(q) && k < |q|
    ensures Nodes(Removed(q, k)) && q[k] != NULL && q[k] in q
    ensures forall p :: p in Removed(q, k) <==> p in q && p != q[k]
  {
    NodesRemoved(q, k);
    var r := Removed(q, k);
    forall p | p in q && p != q[k]
      ensures p in r
    {
      var i :| 0 <= i < |q| && q[i] == p;
      assert r[if i < k then i else i - 1] == p;
    }
  }

  lemma AppendedMembers(q: seq<Ptr>, p: Ptr)
    requires Nodes(q) && p != NULL && p !in q
    ensures Nodes(q + [p])
    ensures forall x :: x in q + [p] <==> x in q || x == p
  {
    assert Inserted(q, |q|, p) == q + [p];
    NodesInserted(q, |q|, p);
  }

  /** A scan finds a ready process if there is one. */
  lemma ScanFinds(s: System)
    requires Placed(s) && s.phase == Scanning
    ensures FirstReady(s.queue, s.state) < |s.queue| <==> exists p :: p in s.state && s.state[p] == READY
  {
    FirstReadyIs(s.queue, s.state);
    if p :| p in s.state && s.state[p] == READY {
      assert p in s.queue && Ready(s.state, p);
      var i :| 0 <= i < |s.queue| && s.queue[i] == p;
    }
    if FirstReady(s.queue, s.state) < |s.queue| {
      assert Ready(s.state, s.queue[FirstReady(s.queue, s.state)]);
    }
  }

  lemma BackPlaced(s: System, st: ProcState)
    requires Placed(s) && s.phase == Running && Queueable(st)
    ensures Placed(s.(state := s.state[s.cur := st], queue := s.queue + [s.cur], phase := Scanning))
  {
    hide Nodes;
    AppendedMembers(s.queue, s.cur);
  }

  lemma YieldedPlaced(s: System)
    requires Placed(s) && s.phase == Running
    ensures Placed(Yielded(s))
    ensures Placed(Yielded(s.(state := s.state[s.cur := DEAD])))
  {
    BackPlaced(s, DEAD);
    BackPlaced(s, if ComesBack(s) then READY else Overwritten);
    assert Out(s, s.cur);
    hide Placed;
    assert !ComesBack(s) ==> s.state[s.cur := Overwritten] == s.state;
  }

  lemma DispatchPlaced(s: System)
    requires Placed(s) && s.phase == Scanning
    ensures Placed(Next(s, Dispatch))
  {
    hide Nodes, Removed, FirstReady;
    var k := FirstReady(s.queue, s.state);
    FirstReadyIs(s.queue, s.state);
    if k < |s.queue| {
      RemovedMembers(s.queue, k);
    }
  }

  lemma StepPlaced(s: System, e: Event)
    requires Placed(s) && Enabled(s, e)
    ensures Placed(Next(s, e))
  {
    hide Nodes, Removed, FirstReady, Placed;
    match e
    case Dispatch => DispatchPlaced(s);
    case Fork(c) => ForkPlaced(s, c);
    case ForkFails => IssuedPlaced(s);
    case Open => OpenPlaced(s);
    case Exit => ExitPlaced(s);
    case _ => YieldedPlaced(s);
  }

  lemma IssuedPlaced(s: System)
    requires Placed(s)
    ensures Placed(s.(issued := s.issued + 1))
  {
  }

  lemma ExitPlaced(s: System)
    requires Placed(s) && Enabled(s, Exit)
    ensures Placed(Next(s, Exit))
  {
    hide Nodes;
    YieldedPlaced(s);
  }

  lemma OpenPlaced(s: System)
    requires Placed(s) && s.phase == Running && Known(s)
    ensures Placed(Opened(s))
  {
    hide Nodes;
  }

  lemma ForkPlaced(s: System, c: Ptr)
    requires Placed(s) && Enabled(s, Fork(c))
    ensures Placed(Next(s, Fork(c)))
  {
    hide Nodes;
    AppendedMembers(s.queue, c);
  }

  lemma StepFiles(s: System, e: Event)
    requires Placed(s) && FilesOk(s) && Enabled(s, e)
    ensures FilesOk(Next(s, e))
  {
    hide Nodes, Removed, FirstReady, Placed;
    match e
    case Dispatch =>
      FirstReadyIs(s.queue, s.state);
    case Fork(c) =>
      assert s.files[s.cur] <= L.MAXFILES;
    case Exit => FilesYielded(s.(state := s.state[s.cur := DEAD]));
    case Open => FilesOpened(s);
    case _ => FilesYielded(s);
  }

  lemma FilesOpened(s: System)
    requires FilesOk(s) && Known(s)
    ensures FilesOk(Opened(s))
  {
  }

  lemma FilesYielded(s: System)
    requires FilesOk(s) && s.cur in s.state
    ensures FilesOk(Yielded(s))
  {
  }

  lemma StepPids(s: System, e: Event)
    requires DistinctPids(s) && Enabled(s, e)
    ensures DistinctPids(Next(s, e))
  {
    if e.Fork? && s.issued + 1 < U32 {
      var pid' := s.pid[e.child := 1 + s.issued];
      assert Next(s, e).pid == pid';
      forall p, q | p in pid' && q in pid' && pid'[p] == pid'[q]
        ensures p == q
      {
        assert p != e.child ==> s.pid[p] <= s.issued;
        assert q != e.child ==> s.pid[q] <= s.issued;
      }
    } else {
      assert Next(s, e).pid == s.pid || Next(s, e).issued >= U32;
    }
  }

  lemma StepInvariant(s: System, e: Event, init: Ptr)
    requires Invariant(s, init) && Enabled(s, e)
    ensures Invariant(Next(s, e), init)
  {
    hide DistinctPids, FirstReady, Removed, FilesOk, Placed, Nodes;
    StepPlaced(s, e);
    StepFiles(s, e);
    StepPids(s, e);
    StepInit(s, e, init);
  }

  lemma StepInit(s: System, e: Event, init: Ptr)
    requires Placed(s) && InitAlive(s, init) && HaltedOk(s) && Enabled(s, e)
    ensures InitAlive(Next(s, e), init) && HaltedOk(Next(s, e))
  {
    hide FirstReady, Removed, Nodes;
    if e == Dispatch {
      ScanFinds(s);
      FirstReadyIs(s.queue, s.state);
    }
  }

  // ---------- runs

  ghost predicate LegalRun(s: System, es: seq<Event>)
    decreases |es|
  {
    es == [] || (Enabled(s, es[0]) && LegalRun(Next(s, es[0]), es[1..]))
  }

  ghost function Run(s: System, es: seq<Event>): System
    requires LegalRun(s, es)
    decreases |es|
  {
    if es == [] then s else Run(Next(s, es[0]), es[1..])
  }

  /** Over every run the invariant holds; in particular the halt loop is never entered. */
  lemma {:induction false} RunInvariant(s: System, es: seq<Event>, init: Ptr)
    requires Invariant(s, init) && LegalRun(s, es)
    ensures Invariant(Run(s, es), init)
    decreases |es|
  {
    if es != [] {
      StepInvariant(s, es[0], init);
      RunInvariant(Next(s, es[0]), es[1..], init);
    }
  }

  /**
    The scan enters the halt loop exactly when everybody is dead or has opened a seventeenth file; the condition
    is on what the processes did, not on where they are.
   */
  lemma HaltsExactly(s: System, init: Ptr)
    requires Invariant(s, init) && s.phase == Scanning
    ensures Next(s, Dispatch).phase == Halted <==>
      forall p :: p in s.state && p in s.files && s.files[p] <= L.MAXFILES ==> s.state[p] == DEAD
  {
    hide FirstReady, Removed, Nodes, DistinctPids;
    ScanFinds(s);
    if Next(s, Dispatch).phase == Halted {
      forall p | p in s.state && p in s.files && s.files[p] <= L.MAXFILES
        ensures s.state[p] == DEAD
      {
        assert p in s.queue;
      }
    } else {
      var p :| p in s.state && s.state[p] == READY;
      assert s.files[p] <= L.MAXFILES;
    }
  }

  /** From boot, while process 1 has at most sixteen open files, the halt loop is not reached and every scan dispatches. */
  lemma NeverHalts(init: Ptr, n: nat, es: seq<Event>)
    requires init != NULL && n <= L.MAXFILES && LegalRun(Booted(init, n), es)
    ensures var s := Run(Booted(init, n), es);
      init in s.files && (s.files[init] <= L.MAXFILES ==> s.phase != Halted && (s.phase == Scanning ==> Next(s, Dispatch).phase == Running))
  {
    BootedInvariant(init, n);
    RunInvariant(Booted(init, n), es, init);
    var s := Run(Booted(init, n), es);
    hide Run, LegalRun, DistinctPids, FirstReady, Removed, Nodes;
    if s.phase == Scanning {
      HaltsExactly(s, init);
    }
    assert init in s.queue || Out(s, init);
  }

  lemma BootedInvariant(init: Ptr, n: nat)
    requires init != NULL && n <= L.MAXFILES
    ensures Invariant(Booted(init, n), init)
  {
  }

  /** Opening until the seventeenth file, then one timer interrupt. */
  ghost function Overrun(k: nat): seq<Event> {
    if k == 0 then [Yield, Dispatch] else [Open] + Overrun(k - 1)
  }

  /** The run that does reach the halt loop: process 1 alone opens its seventeenth file and is preempted. */
  lemma HaltExample(init: Ptr, n: nat)
    requires init != NULL && n <= L.MAXFILES
    ensures LegalRun(Booted(init, n), [Dispatch] + Overrun(17 - n))
    ensures Run(Booted(init, n), [Dispatch] + Overrun(17 - n)).phase == Halted
  {
    var s := Booted(init, n);
    var es := [Dispatch] + Overrun(17 - n);
    assert es[0] == Dispatch && es[1..] == Overrun(17 - n);
    var s1 := Next(s, Dispatch);
    assert s1 == System([], init, Running, map[init := RUNNING], map[init := NextPid(0)], map[init := n], 1);
    OverrunHalts(init, n, map[init := NextPid(0)]);
  }

  lemma {:induction false} OverrunHalts(init: Ptr, n: nat, pid: map<Ptr, u32>)
    requires init != NULL && n <= L.MAXFILES + 1 && init in pid
    ensures var s := System([], init, Running, map[init := if n <= L.MAXFILES then RUNNING else Overwritten], pid, map[init := n], 1);
      LegalRun(s, Overrun(17 - n)) && Run(s, Overrun(17 - n)).phase == Halted
    decreases 17 - n
  {
    var st := if n <= L.MAXFILES then RUNNING else Overwritten;
    var s := System([], init, Running, map[init := st], pid, map[init := n], 1);
    if n == 17 {
      var es := Overrun(0);
      assert es[0] == Yield && es[1..] == [Dispatch] && es[1..][1..] == [];
      var s1 := Next(s, Yield);
      assert s1.queue == [init] && !Ready(s1.state, init);
      assert s1.queue[1..] == [];
      assert FirstReady(s1.queue, s1.state) == 1;
      assert Next(s1, Dispatch).phase == Halted;
      assert LegalRun(Next(s1, Dispatch), []);
      assert LegalRun(s1, [Dispatch]);
    } else {
      OverrunHalts(init, n + 1, pid);
      var s1 := Next(s, Open);
      assert s1 == System([], init, Running, map[init := if n + 1 <= L.MAXFILES then RUNNING else Overwritten], pid, map[init := n + 1], 1);
      assert Overrun(17 - n)[0] == Open && Overrun(17 - n)[1..] == Overrun(17 - (n + 1));
    }
  }

  // ---------- the ready processes form a FIFO queue

  /** The ready processes in queue order. */
  ghost function ReadyQueue(q: seq<Ptr>, state: map<Ptr, ProcState>): seq<Ptr> {
    if q == [] then []
    else if Ready(state, q[0]) then [q[0]] + ReadyQueue(q[1..], state)
    else ReadyQueue(q[1..], state)
  }

  /** What a plain FIFO queue does on the same event; `cur` comes back unless its state word was overwritten. */
  ghost function FifoNext(fifo: seq<Ptr>, cur: Ptr, comesBack: bool, e: Event): seq<Ptr> {
    match e
    case Dispatch => if fifo == [] then [] else fifo[1..]
    case Fork(c) => fifo + [c]
    case Yield => if comesBack then fifo + [cur] else fifo
    case Exec(loads) => if loads && comesBack then fifo + [cur] else fifo
    case _ => fifo
  }

  lemma {:induction false} ReadyConcat(q: seq<Ptr>, t: seq<Ptr>, state: map<Ptr, ProcState>)
    ensures ReadyQueue(q + t, state) == ReadyQueue(q, state) + ReadyQueue(t, state)
  {
    if q == [] {
      assert q + t == t;
    } else {
      assert (q + t)[1..] == q[1..] + t;
      ReadyConcat(q[1..], t, state);
    }
  }

  /** Only the states of queued processes matter. */
  lemma {:induction false} ReadyFrame(q: seq<Ptr>, state: map<Ptr, ProcState>, state': map<Ptr, ProcState>)
    requires forall i :: 0 <= i < |q| ==> Ready(state, q[i]) == Ready(state', q[i])
    ensures ReadyQueue(q, state) == ReadyQueue(q, state')
  {
    if q != [] {
      ReadyFrame(q[1..], state, state');
    }
  }

  lemma {:induction false} NoneReady(q: seq<Ptr>, state: map<Ptr, ProcState>)
    requires forall i :: 0 <= i < |q| ==> !Ready(state, q[i])
    ensures ReadyQueue(q, state) == []
  {
    if q != [] {
      NoneReady(q[1..], state);
    }
  }

  lemma DispatchTakesHead(q: seq<Ptr>, state: map<Ptr, ProcState>)
    requires Nodes(q) && FirstReady(q, state) < |q|
    ensures var k := FirstReady(q, state);
      ReadyQueue(q, state) == [q[k]] + ReadyQueue(Removed(q, k), state[q[k] := RUNNING])
  {
    var k := FirstReady(q, state);
    FirstReadyIs(q, state);
    var pre, p, post := q[..k], q[k], q[k + 1..];
    var state' := state[p := RUNNING];
    assert q == pre + ([p] + post);
    ReadyConcat(pre, [p] + post, state);
    ReadyConcat([p], post, state);
    ReadyConcat(pre, post, state');
    NoneReady(pre, state);
    NoneReady(pre, state');
    ReadyFrame(post, state, state');
  }

  lemma AppendReady(q: seq<Ptr>, state: map<Ptr, ProcState>, p: Ptr, st: ProcState)
    requires forall i :: 0 <= i < |q| ==> q[i] != p
    ensures ReadyQueue(q + [p], state[p := st]) == ReadyQueue(q, state) + if st == READY then [p] else []
  {
    ReadyConcat(q, [p], state[p := st]);
    ReadyFrame(q, state, state[p := st]);
  }

  ghost predicate ComesBack(s: System) {
    s.cur in s.state && s.state[s.cur] == RUNNING
  }

  /** Every step acts on the ready processes exactly as on a FIFO queue, whatever entries that never run lie between. */
  lemma StepIsFifo(s: System, e: Event)
    requires Placed(s) && Enabled(s, e)
    ensures var fifo, t := ReadyQueue(s.queue, s.state), Next(s, e);
      && (e == Dispatch ==> (t.phase == Running <==> fifo != []) && (fifo != [] ==> t.cur == fifo[0]))
      && ReadyQueue(t.queue, t.state) == FifoNext(fifo, s.cur, ComesBack(s), e)
  {
    hide Removed, FirstReady, Nodes;
    match e
    case Dispatch =>
      FirstReadyIs(s.queue, s.state);
      if FirstReady(s.queue, s.state) < |s.queue| {
        DispatchTakesHead(s.queue, s.state);
      } else {
        NoneReady(s.queue, s.state);
      }
    case Fork(c) => AppendReady(s.queue, s.state, c, READY);
    case ForkFails =>
    case Exit => AppendReady(s.queue, s.state, s.cur, DEAD);
    case Open => ReadyFrame(s.queue, s.state, Next(s, Open).state);
    case _ => AppendBack(s);
  }

  lemma AppendBack(s: System)
    requires Placed(s) && s.phase == Running
    ensures ReadyQueue(Yielded(s).queue, Yielded(s).state) ==
            ReadyQueue(s.queue, s.state) + if ComesBack(s) then [s.cur] else []
  {
    hide Nodes;
    AppendReady(s.queue, s.state, s.cur, if ComesBack(s) then READY else Overwritten);
    if !ComesBack(s) {
      assert s.state[s.cur := Overwritten] == s.state;
    }
  }

  /** The processes dispatched during a run, in order. */
  ghost function Dispatched(s: System, es: seq<Event>): seq<Ptr>
    requires LegalRun(s, es)
    decreases |es|
  {
    if es == [] then []
    else
      (if es[0] == Dispatch && Next(s, Dispatch).phase == Running then [Next(s, Dispatch).cur] else [])
      + Dispatched(Next(s, es[0]), es[1..])
  }

  /** The `j`-th process dispatched is the `j`-th ready one at the start, as long as there are that many. */
  lemma {:induction false} DispatchOrder(s: System, es: seq<Event>, init: Ptr, j: nat)
    requires Invariant(s, init) && LegalRun(s, es)
    requires j < |ReadyQueue(s.queue, s.state)| && j < |Dispatched(s, es)|
    ensures Dispatched(s, es)[j] == ReadyQueue(s.queue, s.state)[j]
    decreases |es|
  {
    hide ReadyQueue, Placed, FilesOk, DistinctPids;
    var s', fifo := Next(s, es[0]), ReadyQueue(s.queue, s.state);
    StepIsFifo(s, es[0]);
    StepInvariant(s, es[0], init);
    if es[0] != Dispatch {
      assert FifoNext(fifo, s.cur, ComesBack(s), es[0])[j] == fifo[j];
      DispatchOrder(s', es[1..], init, j);
    } else if j > 0 {
      DispatchOrder(s', es[1..], init, j - 1);
    }
  }

  lemma {:induction false} ReadyMembers(q: seq<Ptr>, state: map<Ptr, ProcState>)
    ensures forall p :: p in ReadyQueue(q, state) <==> p in q && Ready(state, p)
  {
    if q != [] {
      ReadyMembers(q[1..], state);
      assert q == [q[0]] + q[1..];
    }
  }

  lemma {:induction false} ReadyDistinct(q: seq<Ptr>, state: map<Ptr, ProcState>)
    requires Nodes(q)
    ensures Nodes(ReadyQueue(q, state))
  {
    if q != [] {
      ReadyDistinct(q[1..], state);
      ReadyMembers(q[1..], state);
      assert forall i :: 0 <= i < |q[1..]| ==> q[1..][i] == q[i + 1];
      var r := ReadyQueue(q[1..], state);
      assert forall i :: 0 <= i < |r| ==> r[i] in r;
    }
  }

  /**
    Exact round robin: in every run the process with `r` ready ones ahead of it is the one taken by the
    (r+1)-th dispatch, and by none before, whatever yields, forks, execs and exits happen between.
   */
  lemma ExactRoundRobin(s: System, es: seq<Event>, init: Ptr, r: nat)
    requires Invariant(s, init) && LegalRun(s, es) && r < |ReadyQueue(s.queue, s.state)|
    ensures r < |Dispatched(s, es)| ==> Dispatched(s, es)[r] == ReadyQueue(s.queue, s.state)[r]
    ensures forall j :: 0 <= j < r && j < |Dispatched(s, es)| ==> Dispatched(s, es)[j] != ReadyQueue(s.queue, s.state)[r]
  {
    hide Dispatched, ReadyQueue;
    ReadyDistinct(s.queue, s.state);
    var d, fifo := Dispatched(s, es), ReadyQueue(s.queue, s.state);
    forall j | 0 <= j <= r && j < |d|
      ensures d[j] == fifo[j]
    {
      DispatchOrder(s, es, init, j);
    }
  }

  /** Dead processes stay dead and are never dispatched; nor is one switched out with its state word overwritten. */
  lemma {:induction false} GoneForever(s: System, es: seq<Event>, init: Ptr, p: Ptr)
    requires Invariant(s, init) && LegalRun(s, es) && p in s.queue && p in s.state && s.state[p] != READY
    ensures p in Run(s, es).state && Run(s, es).state[p] == s.state[p] && p !in Dispatched(s, es)
    decreases |es|
  {
    if es != [] {
      hide Invariant, FirstReady, Removed, Nodes;
      var s' := Next(s, es[0]);
      StepGone(s, es[0], init, p);
      StepInvariant(s, es[0], init);
      GoneForever(s', es[1..], init, p);
    }
  }

  lemma StepGone(s: System, e: Event, init: Ptr, p: Ptr)
    requires Invariant(s, init) && Enabled(s, e) && p in s.queue && p in s.state && s.state[p] != READY
    ensures var t := Next(s, e); p in t.queue && p in t.state && t.state[p] == s.state[p]
    ensures e == Dispatch && Next(s, e).phase == Running ==> Next(s, e).cur != p
  {
    hide DistinctPids, FilesOk, FirstReady, Removed, Nodes;
    FirstReadyIs(s.queue, s.state);
    if e == Dispatch && FirstReady(s.queue, s.state) < |s.queue| {
      RemovedMembers(s.queue, FirstReady(s.queue, s.state));
    }
  }
}
