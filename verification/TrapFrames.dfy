/**
  Kernel entry, exit and thread switching (kernel/interrupt.S, kernel/switch.S and the stack set-up of
  kernel/proc.c) on a machine with registers and words of memory. What compiled C code leaves in registers
  and below its stack pointer is a parameter.
 */
module TrapFrames {
  import opened Words
  import opened ProcLayout

  datatype Regs = Regs(eax: u32, ecx: u32, edx: u32, ebx: u32, esp: u32, ebp: u32, esi: u32, edi: u32,
                       ds: u32, es: u32, fs: u32, gs: u32, cs: u32, ss: u32, eip: u32, eflags: u32)

  /** Words by address; words never written are zero. */
  type Memory = map<nat, u32>

  function W(mem: Memory, a: nat): u32 {
    if a in mem then mem[a] else 0
  }

  function Put(mem: Memory, a: nat, x: u32): Memory {
    mem[a := x]
  }

  /** Link-time addresses of the code the stacks return to. */
  datatype Labels = Labels(forkret: u32, trapret: u32, yieldRet: u32, timerRet: u32, execYieldRet: u32, execRet: u32,
                           callRet: u32, schedRet: u32)

  ghost predicate Distinct(l: Labels) {
    l.forkret != l.yieldRet && l.timerRet != l.execYieldRet
  }

  /** The trap frame at `tf` holds `u`; the word at offset 12 is not used. */
  ghost predicate FrameAt(mem: Memory, tf: nat, u: Regs) {
    LowFrame(mem, tf, u) && IretAt(mem, tf + 48, u)
  }

  /** What the entry stubs push: eight general registers below four segment registers. */
  ghost predicate LowFrame(mem: Memory, a: nat, u: Regs) {
    && Generals(mem, a, u)
    && W(mem, a + 32) == u.gs && W(mem, a + 36) == u.fs && W(mem, a + 40) == u.es && W(mem, a + 44) == u.ds
  }

  ghost predicate Generals(mem: Memory, a: nat, u: Regs) {
    && W(mem, a) == u.edi && W(mem, a + 4) == u.esi && W(mem, a + 8) == u.ebp && W(mem, a + 16) == u.ebx
    && W(mem, a + 20) == u.edx && W(mem, a + 24) == u.ecx && W(mem, a + 28) == u.eax
  }

  /** The five words the processor pushes on the way from user mode and pops on the way back. */
  ghost predicate IretAt(mem: Memory, a: nat, u: Regs) {
    && W(mem, a) == u.eip && W(mem, a + 4) == u.cs && W(mem, a + 8) == u.eflags
    && W(mem, a + 12) == u.esp && W(mem, a + 16) == u.ss
  }

  /** Nothing outside the addresses from `lo` below `hi` changed. */
  ghost predicate Outside(before: Memory, after: Memory, lo: int, hi: int) {
    forall a: nat :: a < lo || hi <= a ==> W(after, a) == W(before, a)
  }

  lemma OutsideTransitive(a: Memory, b: Memory, c: Memory, lo: int, hi: int, lo': int, hi': int, l: int, h: int)
    requires Outside(a, b, lo, hi) && Outside(b, c, lo', hi') && l <= lo && l <= lo' && hi <= h && hi' <= h
    ensures Outside(a, c, l, h)
  {
  }

  /** `mem` with `words` stored from `a` on. */
  function Stored(mem: Memory, a: nat, words: seq<u32>): Memory
    decreases |words|
  {
    if words == [] then mem else Stored(mem[a := words[0]], a + 4, words[1..])
  }

  lemma {:induction false} StoredElsewhere(mem: Memory, a: nat, words: seq<u32>)
    ensures Outside(mem, Stored(mem, a, words), a, a + 4 * |words|)
    decreases |words|
  {
    if words != [] {
      StoredElsewhere(mem[a := words[0]], a + 4, words[1..]);
    }
  }

  lemma {:induction false} StoredAt(mem: Memory, a: nat, words: seq<u32>, i: nat)
    requires i < |words|
    ensures W(Stored(mem, a, words), a + 4 * i) == words[i]
    decreases |words|
  {
    StoredElsewhere(mem[a := words[0]], a + 4, words[1..]);
    if i > 0 {
      StoredAt(mem[a := words[0]], a + 4, words[1..], i - 1);
    }
  }

  lemma StoredGenerals(mem: Memory, a: nat, u: Regs)
    ensures Generals(Stored(mem, a, GeneralWords(u)), a, u)
  {
    var ws := GeneralWords(u);
    hide Stored;
    forall i | 0 <= i < 8
      ensures W(Stored(mem, a, ws), a + 4 * i) == ws[i]
    {
      StoredAt(mem, a, ws, i);
    }
    var m := Stored(mem, a, ws);
    assert W(m, a + 4 * 0) == ws[0] && W(m, a + 4 * 1) == ws[1] && W(m, a + 4 * 2) == ws[2] && W(m, a + 4 * 4) == ws[4]
      && W(m, a + 4 * 5) == ws[5] && W(m, a + 4 * 6) == ws[6] && W(m, a + 4 * 7) == ws[7];
  }

  lemma StoredIret(mem: Memory, a: nat, u: Regs)
    ensures IretAt(Stored(mem, a, IretWords(u)), a, u)
  {
    var ws, m := IretWords(u), Stored(mem, a, IretWords(u));
    hide Stored;
    StoredAt(mem, a, ws, 0);
    StoredAt(mem, a, ws, 1);
    StoredAt(mem, a, ws, 2);
    StoredAt(mem, a, ws, 3);
    StoredAt(mem, a, ws, 4);
  }

  /** What `pushal` stores, lowest address first. */
  function GeneralWords(u: Regs): seq<u32> {
    [u.edi, u.esi, u.ebp, u.esp, u.ebx, u.edx, u.ecx, u.eax]
  }

  /** What the processor pushes when it leaves user mode, lowest address first. */
  function IretWords(u: Regs): seq<u32> {
    [u.eip, u.cs, u.eflags, u.esp, u.ss]
  }

  // ---------- where things are

  /** Entries of the system call table. */
  const CALLS := 10
  const FRAME := 68

  /** A `struct proc` sits at the top of the page that holds its kernel stack. */
  ghost predicate ProcAt(q: nat) {
    q % PAGE == PAGE - PROC_SIZE && KERNEL_OFFSET < q < U32
  }

  function Low(q: nat): int {
    q - (PAGE - PROC_SIZE)
  }

  ghost function High(q: nat): int {
    q + PROC_SIZE
  }

  /**
    Link-time facts: the idle thread's `struct proc`, the stack the scheduler runs on, compiled frame sizes in
    words, and the address of the table of system calls.
   */
  datatype Layout = Layout(labels: Labels, idle: nat, bootLow: nat, boot: nat, yieldFrame: nat, execFrame: nat, table: u32)

  ghost predicate LayoutOk(k: Layout) {
    && Distinct(k.labels) && ProcAt(k.idle)
    && k.bootLow + 256 <= k.boot < U32 - 4 && (High(k.idle) <= k.bootLow || k.boot <= Low(k.idle))
    && k.yieldFrame + k.execFrame <= 900 && k.table + 4 * CALLS <= U32
  }

  /** The stack page of `q` is neither the idle thread's nor part of the scheduler's stack. */
  ghost predicate Placed(k: Layout, q: nat) {
    ProcAt(q) && q != k.idle && (High(q) <= k.bootLow || k.boot <= Low(q))
  }

  lemma PagesApart(q: nat, p: nat)
    requires ProcAt(q) && ProcAt(p) && q != p
    ensures High(q) <= Low(p) || High(p) <= Low(q)
  {
  }

  // ---------- threads that are switched out

  /** Returning from `yield` at `e` ends in user mode with `u`; `left` is what `sys_execve` happens to return. */
  ghost predicate ReturnsTo(k: Layout, mem: Memory, q: nat, e: int, u: Regs, left: u32)
    requires LayoutOk(k) && ProcAt(q)
  {
    || (e == q - FRAME - 4 && W(mem, q - FRAME - 4) == k.labels.timerRet && FrameAt(mem, q - FRAME, u))
    || (e == q - FRAME - 20 - 4 * k.execFrame && W(mem, q - FRAME - 20 - 4 * k.execFrame) == k.labels.execYieldRet
        && W(mem, q - FRAME - 16) == k.labels.execRet
        && FrameAt(mem, q - FRAME, u.(eax := W(mem, q - FRAME + 28))) && u.eax == left)
  }

  /** Switching to `q` ends in user mode with `u`: `q` is new, or was switched out inside `yield`. */
  ghost predicate Parked(k: Layout, mem: Memory, q: nat, u: Regs, left: u32)
    requires LayoutOk(k)
  {
    var c := W(mem, q + CONTEXT);
    && Placed(k, q) && u.cs % 4 == 3 && W(mem, q + TF) == q - FRAME
    && (|| (c == q - FRAME - 24 && W(mem, c + 16) == k.labels.forkret && W(mem, c + 20) == k.labels.trapret
            && FrameAt(mem, q - FRAME, u))
        || (Low(q) <= c && W(mem, c + 16) == k.labels.yieldRet && ReturnsTo(k, mem, q, c + 28 + 4 * k.yieldFrame, u, left)))
  }

  /** The scheduler waits inside `switch_to`, with these callee-saved registers. */
  ghost predicate IdleParked(k: Layout, mem: Memory, saved: Regs)
    requires LayoutOk(k)
  {
    var c := k.boot - 28;
    && W(mem, k.idle + CONTEXT) == c && W(mem, c + 16) == k.labels.schedRet
    && W(mem, c) == saved.edi && W(mem, c + 4) == saved.esi && W(mem, c + 8) == saved.ebp && W(mem, c + 12) == saved.ebx
  }

  ghost predicate SameOn(before: Memory, after: Memory, lo: int, hi: int) {
    forall a: nat :: lo <= a < hi ==> W(after, a) == W(before, a)
  }

  lemma FrameKept(before: Memory, after: Memory, tf: nat, u: Regs)
    requires FrameAt(before, tf, u) && SameOn(before, after, tf, tf + FRAME)
    ensures FrameAt(after, tf, u)
  {
  }

  lemma ParkedKept(k: Layout, before: Memory, after: Memory, q: nat, u: Regs, left: u32)
    requires LayoutOk(k) && Parked(k, before, q, u, left) && SameOn(before, after, Low(q), q + OFILE)
    ensures Parked(k, after, q, u, left)
  {
    hide FrameAt;
    if FrameAt(before, q - FRAME, u) {
      FrameKept(before, after, q - FRAME, u);
    }
    var v := u.(eax := W(before, q - FRAME + 28));
    if FrameAt(before, q - FRAME, v) {
      FrameKept(before, after, q - FRAME, v);
    }
  }

  lemma PutWords(mem: Memory, a: nat, x: u32)
    ensures forall b: nat :: W(Put(mem, a, x), b) == if b == a then x else W(mem, b)
  {
  }

  // ---------- instructions on registers

  function Popped(r: Regs, mem: Memory): (s: Regs)
    requires r.esp < U32 - 32
    ensures s.esp == r.esp + 32
  {
    r.(edi := W(mem, r.esp), esi := W(mem, r.esp + 4), ebp := W(mem, r.esp + 8), ebx := W(mem, r.esp + 16),
       edx := W(mem, r.esp + 20), ecx := W(mem, r.esp + 24), eax := W(mem, r.esp + 28), esp := r.esp + 32)
  }

  function SegmentsPopped(r: Regs, mem: Memory): (s: Regs)
    requires r.esp < U32 - 16
    ensures s.esp == r.esp + 16
  {
    r.(gs := W(mem, r.esp), fs := W(mem, r.esp + 4), es := W(mem, r.esp + 8), ds := W(mem, r.esp + 12), esp := r.esp + 16)
  }

  /** `iret`: only a return to user mode pops a stack pointer. */
  function Returned(r: Regs, mem: Memory): Regs
    requires r.esp < U32 - 20
  {
    var cs := W(mem, r.esp + 4);
    var s := r.(eip := W(mem, r.esp), cs := cs, eflags := W(mem, r.esp + 8), esp := r.esp + 12);
    if cs % 4 == 3 then s.(esp := W(mem, r.esp + 12), ss := W(mem, r.esp + 16)) else s
  }

  /** `end_syscall` and `trapret`, the same instructions. */
  function Restored(r: Regs, mem: Memory): Regs
    requires r.esp < U32 - 96
  {
    Returned(SegmentsPopped(Popped(r, mem), mem), mem)
  }

  lemma FrameRestores(r: Regs, mem: Memory, u: Regs)
    requires r.esp < U32 - 96 && FrameAt(mem, r.esp, u) && u.cs % 4 == 3
    ensures Restored(r, mem) == u
  {
  }

  lemma FourPushes(mem: Memory, a: nat, w: u32, x: u32, y: u32, z: u32)
    ensures var m := Put(Put(Put(Put(mem, a + 12, w), a + 8, x), a + 4, y), a, z);
      W(m, a) == z && W(m, a + 4) == y && W(m, a + 8) == x && W(m, a + 12) == w && Outside(mem, m, a, a + 16)
  {
  }

  class Machine {
    const k: Layout
    var r: Regs
    var mem: Memory
    /** The callee-saved registers of the scheduler while it is switched out. */
    ghost var saved: Regs

    constructor (k: Layout, r: Regs, mem: Memory)
      ensures this.k == k && this.r == r && this.mem == mem
    {
      this.k, this.r, this.mem, saved := k, r, mem, r;
    }

    method Push(x: u32)
      requires r.esp >= 4
      modifies `r, `mem
      ensures r == old(r).(esp := old(r.esp) - 4) && mem == Put(old(mem), r.esp, x)
    {
      r := r.(esp := r.esp - 4);
      mem := Put(mem, r.esp, x);
    }

    method Ret()
      requires r.esp < U32 - 4
      modifies `r
      ensures r == old(r).(esp := old(r.esp) + 4, eip := W(mem, old(r.esp)))
    {
      r := r.(esp := r.esp + 4, eip := W(mem, r.esp));
    }

    /** An interrupt or trap gate taken in user mode: the processor switches to the stack at `esp0`. */
    method Interrupt(esp0: u32)
      requires esp0 >= 20
      modifies `r, `mem
      ensures r == old(r).(esp := esp0 - 20, cs := 8, ss := 16)
      ensures IretAt(mem, esp0 - 20, old(r)) && Outside(old(mem), mem, esp0 - 20, esp0)
    {
      hide Stored;
      StoredIret(mem, esp0 - 20, r);
      StoredElsewhere(mem, esp0 - 20, IretWords(r));
      mem := Stored(mem, esp0 - 20, IretWords(r));
      r := r.(esp := esp0 - 20, cs := 8, ss := 16);
    }

    /** `pushl` of the four data segment registers, then `pushal`. */
    method SaveAll()
      requires r.esp >= 48
      modifies `r, `mem
      ensures r == old(r).(esp := old(r.esp) - 48)
      ensures LowFrame(mem, r.esp, r) && Outside(old(mem), mem, r.esp, old(r.esp))
    {
      PushSegments();
      ghost var m := mem;
      hide Stored;
      StoredGenerals(mem, r.esp - 32, r);
      StoredElsewhere(mem, r.esp - 32, GeneralWords(r));
      mem := Stored(mem, r.esp - 32, GeneralWords(r));
      r := r.(esp := r.esp - 32);
      OutsideTransitive(old(mem), m, mem, r.esp + 32, r.esp + 48, r.esp, r.esp + 32, r.esp, r.esp + 48);
    }

    method PushSegments()
      requires r.esp >= 16
      modifies `r, `mem
      ensures r == old(r).(esp := old(r.esp) - 16) && Outside(old(mem), mem, r.esp, old(r.esp))
      ensures var a := r.esp;
        W(mem, a) == r.gs && W(mem, a + 4) == r.fs && W(mem, a + 8) == r.es && W(mem, a + 12) == r.ds
    {
      FourPushes(mem, r.esp - 16, r.ds, r.es, r.fs, r.gs);
      Push(r.ds);
      Push(r.es);
      Push(r.fs);
      Push(r.gs);
    }

    method RestoreAll(ghost u: Regs)
      requires r.esp < U32 - 96 && FrameAt(mem, r.esp, u) && u.cs % 4 == 3
      modifies `r
      ensures r == u
    {
      FrameRestores(r, mem, u);
      r := Popped(r, mem);
      r := SegmentsPopped(r, mem);
      r := Returned(r, mem);
    }

    /** `switch_to`: saves the callee-saved registers and the stack pointer of one thread, loads another's. */
    method SwitchTo()
      requires 16 <= r.esp < U32 - 12 && W(mem, r.esp + 8) < U32 - 20
      modifies `r, `mem
      ensures var c, n := old(r.esp) - 16, W(old(mem), old(r.esp) + 8);
        && mem == Put(Stored(old(mem), c, CalleeSaved(old(r))), W(old(mem), old(r.esp) + 4), c)
        && r == old(r).(eax := W(old(mem), old(r.esp) + 4), edx := n, edi := W(mem, n), esi := W(mem, n + 4),
                        ebp := W(mem, n + 8), ebx := W(mem, n + 12), eip := W(mem, n + 16), esp := n + 20)
    {
      hide Stored;
      r := r.(eax := W(mem, r.esp + 4), edx := W(mem, r.esp + 8));
      mem := Stored(mem, r.esp - 16, CalleeSaved(r));
      r := r.(esp := r.esp - 16);
      mem := Put(mem, r.eax, r.esp);
      r := r.(esp := r.edx);
      r := r.(edi := W(mem, r.esp), esi := W(mem, r.esp + 4), ebp := W(mem, r.esp + 8), ebx := W(mem, r.esp + 12), esp := r.esp + 16);
      Ret();
    }

    /** Kernel entry through either gate: the user registers land in a trap frame just below `p`. */
    method EnterKernel(p: u32)
      requires ProcAt(p)
      modifies `r, `mem
      ensures r == old(r).(esp := p - FRAME, cs := 8, ss := 16)
      ensures FrameAt(mem, p - FRAME, old(r)) && Outside(old(mem), mem, p - FRAME, p)
    {
      Interrupt(p);
      ghost var m := mem;
      SaveAll();
      OutsideTransitive(old(mem), m, mem, p - 20, p, p - FRAME, p - 20, p - FRAME, p);
    }

    /** Compiled code with `words` words on the stack: it leaves anything in the registers and below the stack pointer. */
    method Compiled(words: nat, ghost low: nat, j: Junk)
      requires low + 4 * words <= r.esp && Fits(j, low, r.esp)
      modifies `r, `mem
      ensures r == j.regs.(esp := old(r.esp) - 4 * words, cs := old(r.cs), ss := old(r.ss), ds := old(r.ds), es := old(r.es),
                           fs := old(r.fs), gs := old(r.gs))
      ensures Outside(old(mem), mem, low, old(r.esp))
    {
      mem := mem + j.below;
      r := j.regs.(esp := r.esp - 4 * words, cs := r.cs, ss := r.ss, ds := r.ds, es := r.es, fs := r.fs, gs := r.gs);
    }

    /** `yield` of thread `p`, called with its return address on top of the stack, up to the scheduler. */
    method YieldOut(p: u32, j: Junk, ghost u: Regs, ghost eax: u32)
      requires LayoutOk(k) && Placed(k, p) && IdleParked(k, mem, saved)
      requires Low(p) + 4 * k.yieldFrame + 28 <= r.esp <= p - FRAME
      requires u.cs % 4 == 3 && W(mem, p + TF) == p - FRAME
      requires Fits(j, Low(p), r.esp)
      modifies `r, `mem
      ensures old(ReturnsTo(k, mem, p, r.esp, u, eax)) ==> Parked(k, mem, p, u, eax)
      ensures OwnPage(old(mem), mem, p) && W(mem, p + STATE) == W(old(mem), p + STATE) && IdleParked(k, mem, saved)
      ensures r.esp == k.boot - 8 && r.eip == k.labels.schedRet && CalleeSaved(r) == CalleeSaved(saved)
    {
      hide FrameAt, SavedAt, ReturnsTo, Outside, OutsideBut, OwnPage, Parked, IdleParked, W, Put;
      ghost var m0, e := mem, r.esp;
      Compiled(k.yieldFrame, Low(p), j);
      ghost var m1, r1 := mem, r;
      StackIsOwn(m0, m1, p, Low(p), e);
      IdleUntouched(k, m0, m1, p, saved);
      SwitchThreads(p + CONTEXT, W(mem, k.idle + CONTEXT), k.labels.yieldRet);
      BothOutside(m0, m1, mem, p, e, r1.esp - 28, r1.esp);
      IdleUntouched(k, m0, mem, p, saved);
      if ReturnsTo(k, m0, p, e, u, eax) {
        ParkedByYield(k, m0, m1, mem, p, e, u, eax, r1);
      }
    }

    /** The scheduler switches to `q`, and `q` runs on to user mode. */
    method Dispatch(q: u32, j: Junk, eax: u32, ghost u: Regs)
      requires LayoutOk(k) && Parked(k, mem, q, u, eax) && r.esp == k.boot
      requires Fits(j, k.bootLow, r.esp)
      modifies `r, `mem, `saved
      ensures r == u && IdleParked(k, mem, saved) && SameBut(k, old(mem), mem, q) && W(mem, q + TF) == q - FRAME
      ensures SameOn(old(mem), mem, q, High(q))
    {
      hide FrameAt, SavedAt, ReturnsTo, Outside, OutsideBut, Parked, IdleParked, SameBut, SchedulerOnly, W, Put;
      ghost var m0 := mem;
      Compiled(0, k.bootLow, j);
      saved := r;
      ghost var m1 := mem;
      Compiled0(k, m0, m1);
      ParkedMeets(k, m0, m1, q, u, eax);
      SwitchThreads(k.idle + CONTEXT, W(mem, q + CONTEXT), k.labels.schedRet);
      ghost var m2 := mem;
      SwitchedFromIdle(k, m0, m1, m2, saved);
      ParkedMeets(k, m0, m2, q, u, eax);
      Resume(q, eax, u);
      ResumedFrame(k, m0, m2, mem, q, saved);
    }

    /** What a thread does from the point where `switch_to` resumes it up to user mode. */
    method Resume(q: u32, eax: u32, ghost u: Regs)
      requires LayoutOk(k) && Parked(k, mem, q, u, eax) && r.esp == W(mem, q + CONTEXT) + 20 && r.eip == W(mem, W(mem, q + CONTEXT) + 16)
      modifies `r, `mem
      ensures r == u && Outside(old(mem), mem, q - FRAME, q)
    {
      hide FrameAt;
      if r.eip == k.labels.forkret {
        Ret();
      } else {
        r := r.(esp := r.esp + 8 + 4 * k.yieldFrame);
        Ret();
        if r.eip == k.labels.execYieldRet {
          r := r.(esp := r.esp + 4 * k.execFrame, eax := eax);
          Ret();
          r := r.(esp := r.esp + 12);
          EaxStored(mem, r.esp, u);
          mem := Put(mem, r.esp + 28, r.eax);
        }
      }
      RestoreAll(u);
    }

    /** A call of `switch_to` from compiled code. */
    method SwitchThreads(prev: u32, next: u32, back: u32)
      requires 28 <= r.esp < U32 - 4 && next < U32 - 20 && (prev < r.esp - 28 || r.esp <= prev)
      modifies `r, `mem
      ensures var c := old(r.esp) - 28;
        SavedAt(mem, c, old(r), back) && W(mem, prev) == c && OutsideBut(old(mem), mem, c, old(r.esp), prev)
      ensures r == old(r).(eax := prev, edx := next, edi := W(mem, next), esi := W(mem, next + 4), ebp := W(mem, next + 8),
                           ebx := W(mem, next + 12), eip := W(mem, next + 16), esp := next + 20)
    {
      hide Stored, SavedAt, OutsideBut, Put;
      SwitchStores(mem, r.esp, prev, next, back, r);
      CallStores(mem, r.esp, prev, next, back);
      Push(next);
      Push(prev);
      Push(back);
      SwitchTo();
    }

    /** What a system call stub pushes before it calls its handler, lowest address first, and the return address. */
    method PushArgs(args: seq<u32>, back: u32)
      requires 4 * |args| + 4 <= r.esp
      modifies `r, `mem
      ensures r == old(r).(esp := old(r.esp) - 4 * |args| - 4) && W(mem, r.esp) == back
      ensures ArgsAt(mem, r.esp + 4, args) && Outside(old(mem), mem, r.esp, old(r.esp))
    {
      hide Stored, Put, W, ArgsAt;
      var e := r.esp - 4 * |args|;
      StoredElsewhere(mem, e, args);
      ArgsStored(mem, e, args, back);
      ghost var m1 := Stored(mem, e, args);
      mem := Stored(mem, e, args);
      r := r.(esp := e);
      Push(back);
      OutsideTransitive(old(mem), m1, mem, e, e + 4 * |args|, e - 4, e, e - 4, e + 4 * |args|);
    }

    /** `end_syscall` after a handler has returned `ret`. */
    method LeaveSyscall(args: nat, ret: u32, ghost u: Regs)
      requires r.esp + 4 * args < U32 - 96 && FrameAt(mem, r.esp + 4 * args, u) && u.cs % 4 == 3
      modifies `r, `mem
      ensures r == u.(eax := ret) && mem == Put(old(mem), old(r.esp) + 4 * args + 28, ret)
    {
      r := r.(esp := r.esp + 4 * args, eax := ret);
      EaxReplaced(mem, r.esp, u, ret);
      mem := Put(mem, r.esp + 28, r.eax);
      RestoreAll(u.(eax := ret));
    }

    /** `alloc_thread` on a fresh page: the trap frame below `q`, the return address `trapret`, an empty context. */
    method AllocThread(q: u32)
      requires ProcAt(q)
      modifies `mem
      ensures BlankThread(k, mem, q) && OnPage(old(mem), mem, q)
    {
      hide Cleared, OnPage, BlankThread;
      FreshStores(k, mem, q);
      mem := Cleared(mem, q - (PAGE - PROC_SIZE), PAGE);
      mem := Put(mem, q + KSTACK, q - (PAGE - PROC_SIZE));
      mem := Put(mem, q + TF, q - FRAME);
      mem := Put(mem, q - FRAME - 4, k.labels.trapret);
      mem := Put(mem, q + CONTEXT, q - FRAME - 24);
      mem := Put(mem, q - FRAME - 8, k.labels.forkret);
    }

    /** `proc_create`: user segments and flags in the trap frame, state READY. */
    method ProcCreate(q: u32)
      requires ProcAt(q)
      modifies `mem
      ensures NewThread(k, mem, q, FirstRegs()) && OnPage(old(mem), mem, q)
    {
      hide OnPage, NewThread, BlankThread, Stored;
      ghost var m0 := mem;
      AllocThread(q);
      SegmentsSet(k, m0, mem, q);
      mem := Stored(mem, q - FRAME + 32, [35, 35, 35, 35]);
      mem := Stored(mem, q - FRAME + 52, [27, 0x202]);
      mem := Put(mem, q - FRAME + 64, 35);
      mem := Put(mem, q + STATE, READY);
    }

    /** `*n->tf = *curthread->tf`. */
    method CopyFrame(dst: u32, src: u32, ghost u: Regs)
      requires FrameAt(mem, src, u) && (dst + FRAME <= src || src + FRAME <= dst)
      modifies `mem
      ensures FrameAt(mem, dst, u) && Outside(old(mem), mem, dst, dst + FRAME)
    {
      hide FrameAt, Put, W;
      var i := 0;
      while i < 17
        invariant 0 <= i <= 17 && Outside(old(mem), mem, dst, dst + FRAME)
        invariant forall j :: 0 <= j < i ==> WordAt(mem, dst, j) == WordAt(old(mem), src, j)
      {
        PutWords(mem, dst + 4 * i, W(mem, src + 4 * i));
        mem := Put(mem, dst + 4 * i, W(mem, src + 4 * i));
        i := i + 1;
      }
      FrameCopied(old(mem), mem, src, dst, u);
    }
  }

  /** The words at `a` are `args`. */
  ghost predicate ArgsAt(mem: Memory, a: nat, args: seq<u32>) {
    forall j :: 0 <= j < |args| ==> WordAt(mem, a, j) == args[j]
  }

  lemma ArgsStored(mem: Memory, e: nat, args: seq<u32>, back: u32)
    requires e >= 4
    ensures var m := Put(Stored(mem, e, args), e - 4, back);
      ArgsAt(m, e, args) && W(m, e - 4) == back && Outside(Stored(mem, e, args), m, e - 4, e)
  {
    hide Stored;
    forall j | 0 <= j < |args|
      ensures WordAt(Stored(mem, e, args), e, j) == args[j]
    {
      StoredAt(mem, e, args, j);
    }
  }

  /** A thread that has never run: an empty context that returns through `forkret` to `trapret`. */
  ghost predicate FreshThread(k: Layout, mem: Memory, q: nat)
    requires ProcAt(q)
  {
    && W(mem, q + KSTACK) == q - (PAGE - PROC_SIZE) && W(mem, q + TF) == q - FRAME && W(mem, q + CONTEXT) == q - FRAME - 24
    && W(mem, q - FRAME - 8) == k.labels.forkret && W(mem, q - FRAME - 4) == k.labels.trapret
  }

  ghost predicate BlankThread(k: Layout, mem: Memory, q: nat)
    requires ProcAt(q)
  {
    FreshThread(k, mem, q) && forall a: nat :: Low(q) <= a < High(q) && !SetUp(q, a) ==> W(mem, a) == 0
  }

  /** The words `alloc_thread` writes on the cleared page. */
  ghost predicate SetUp(q: nat, a: nat) {
    a == q + KSTACK || a == q + TF || a == q + CONTEXT || a == q - FRAME - 4 || a == q - FRAME - 8
  }

  ghost predicate NewThread(k: Layout, mem: Memory, q: nat, u: Regs)
    requires ProcAt(q)
  {
    FreshThread(k, mem, q) && FrameAt(mem, q - FRAME, u) && W(mem, q + STATE) == READY && NoFiles(mem, q)
  }

  /** Descriptor `i`: the record of an open file, or zero. */
  function Descriptor(mem: Memory, q: nat, i: nat): u32 {
    W(mem, q + OFILE + 4 * i)
  }

  ghost predicate NoFiles(mem: Memory, q: nat) {
    forall i :: 0 <= i < MAXFILES ==> Descriptor(mem, q, i) == 0
  }

  lemma BlankFiles(k: Layout, mem: Memory, q: nat)
    requires ProcAt(q) && BlankThread(k, mem, q)
    ensures NoFiles(mem, q)
  {
    hide FreshThread;
    forall i | 0 <= i < MAXFILES
      ensures Descriptor(mem, q, i) == 0
    {
      var a := q + OFILE + 4 * i;
      assert Low(q) <= a < High(q) && !SetUp(q, a);
      assert W(mem, a) == 0;
    }
  }

  lemma NoFilesKept(before: Memory, after: Memory, q: nat)
    requires NoFiles(before, q) && forall a: nat :: q + OFILE <= a < q + STATE ==> W(after, a) == W(before, a)
    ensures NoFiles(after, q)
  {
    forall i: nat | i < MAXFILES
      ensures Descriptor(after, q, i) == 0
    {
      var a := q + OFILE + 4 * i;
      assert Descriptor(before, q, i) == 0 && W(after, a) == W(before, a);
    }
  }

  /** The fields of a `struct proc` just created. */
  ghost predicate Described(mem: Memory, q: nat, pid: u32)
    requires ProcAt(q)
  {
    W(mem, q) == pid && W(mem, q + KSTACK) == q - (PAGE - PROC_SIZE) && W(mem, q + STATE) == READY && NoFiles(mem, q)
  }

  /** Memory after a `memset` of `n` bytes at `lo` to zero. */
  function Cleared(mem: Memory, lo: nat, n: nat): Memory {
    map a | a in mem && !(lo <= a < lo + n) :: mem[a]
  }

  lemma ClearedWords(mem: Memory, lo: nat, n: nat)
    ensures Outside(mem, Cleared(mem, lo, n), lo, lo + n)
    ensures forall a: nat :: lo <= a < lo + n ==> W(Cleared(mem, lo, n), a) == 0
  {
  }

  lemma FreshStores(k: Layout, mem: Memory, q: nat)
    requires ProcAt(q)
    ensures var m1 := Put(Put(Cleared(mem, q - (PAGE - PROC_SIZE), PAGE), q + KSTACK, q - (PAGE - PROC_SIZE)), q + TF, q - FRAME);
      var m2 := Put(Put(Put(m1, q - FRAME - 4, k.labels.trapret), q + CONTEXT, q - FRAME - 24), q - FRAME - 8, k.labels.forkret);
      BlankThread(k, m2, q) && OnPage(mem, m2, q)
  {
    hide Cleared, Put, W;
    var m0 := Cleared(mem, q - (PAGE - PROC_SIZE), PAGE);
    ClearedWords(mem, q - (PAGE - PROC_SIZE), PAGE);
    var m1 := Put(m0, q + KSTACK, q - (PAGE - PROC_SIZE));
    PutWords(m0, q + KSTACK, q - (PAGE - PROC_SIZE));
    var m2 := Put(m1, q + TF, q - FRAME);
    PutWords(m1, q + TF, q - FRAME);
    var m3 := Put(m2, q - FRAME - 4, k.labels.trapret);
    PutWords(m2, q - FRAME - 4, k.labels.trapret);
    var m4 := Put(m3, q + CONTEXT, q - FRAME - 24);
    PutWords(m3, q + CONTEXT, q - FRAME - 24);
    PutWords(m4, q - FRAME - 8, k.labels.forkret);
  }

  lemma SegmentsSet(k: Layout, m0: Memory, m1: Memory, q: nat)
    requires ProcAt(q) && BlankThread(k, m1, q) && OnPage(m0, m1, q)
    ensures var m2 := Stored(Stored(m1, q - FRAME + 32, [35, 35, 35, 35]), q - FRAME + 52, [27, 0x202]);
      var m3 := Put(Put(m2, q - FRAME + 64, 35), q + STATE, READY);
      NewThread(k, m3, q, FirstRegs()) && OnPage(m0, m3, q)
  {
    hide Stored, FrameAt, FreshThread;
    var tf, zero := q - FRAME, Regs(0, 0, 0, 0, 0, 0, 0, 0, 0, 0, 0, 0, 0, 0, 0, 0);
    BlankFrame(k, m1, q);
    DataSegments(m1, tf, zero);
    var m2 := Stored(m1, tf + 32, [35, 35, 35, 35]);
    var u := zero.(gs := 35, fs := 35, es := 35, ds := 35);
    IretSegments(m2, tf, u);
    var m3 := Stored(m2, tf + 52, [27, 0x202]);
    OutsideTransitive(m1, m2, m3, tf + 32, tf + 48, tf + 52, tf + 60, tf, q);
    BlankFiles(k, m1, q);
    LastSegments(k, m1, m3, q, u.(cs := 27, eflags := 0x202));
    assert u.(cs := 27, eflags := 0x202, ss := 35) == FirstRegs();
  }

  lemma LastSegments(k: Layout, m1: Memory, m2: Memory, q: nat, u: Regs)
    requires ProcAt(q) && FreshThread(k, m1, q) && NoFiles(m1, q) && Outside(m1, m2, q - FRAME, q) && FrameAt(m2, q - FRAME, u)
    ensures var m3 := Put(Put(m2, q - FRAME + 64, 35), q + STATE, READY);
      NewThread(k, m3, q, u.(ss := 35)) && OnPage(m1, m3, q)
  {
    hide NoFiles;
    NoFilesKept(m1, Put(Put(m2, q - FRAME + 64, 35), q + STATE, READY), q);
  }

  lemma DataSegments(mem: Memory, tf: nat, u: Regs)
    requires FrameAt(mem, tf, u)
    ensures var m := Stored(mem, tf + 32, [35, 35, 35, 35]);
      FrameAt(m, tf, u.(gs := 35, fs := 35, es := 35, ds := 35)) && Outside(mem, m, tf + 32, tf + 48)
  {
    var ws: seq<u32> := [35, 35, 35, 35];
    hide Stored;
    StoredElsewhere(mem, tf + 32, ws);
    StoredAt(mem, tf + 32, ws, 0);
    StoredAt(mem, tf + 32, ws, 1);
    StoredAt(mem, tf + 32, ws, 2);
    StoredAt(mem, tf + 32, ws, 3);
  }

  lemma IretSegments(mem: Memory, tf: nat, u: Regs)
    requires FrameAt(mem, tf, u)
    ensures var m := Stored(mem, tf + 52, [27, 0x202]);
      FrameAt(m, tf, u.(cs := 27, eflags := 0x202)) && Outside(mem, m, tf + 52, tf + 60)
  {
    var ws: seq<u32> := [27, 0x202];
    hide Stored;
    StoredElsewhere(mem, tf + 52, ws);
    StoredAt(mem, tf + 52, ws, 0);
    StoredAt(mem, tf + 52, ws, 1);
  }

  lemma BlankFrame(k: Layout, mem: Memory, q: nat)
    requires ProcAt(q) && BlankThread(k, mem, q)
    ensures FrameAt(mem, q - FRAME, Regs(0, 0, 0, 0, 0, 0, 0, 0, 0, 0, 0, 0, 0, 0, 0, 0))
  {
    hide FreshThread;
    assert forall a: nat :: q - FRAME <= a < q ==> !SetUp(q, a);
  }

  /** The registers `proc_create` prepares: user segments, interrupts enabled, everything else zero. */
  ghost function FirstRegs(): Regs {
    Regs(0, 0, 0, 0, 0, 0, 0, 0, 35, 35, 35, 35, 27, 35, 0, 0x202)
  }

  /** Changes on the kernel stack of `p`, and of its saved context and state. */
  ghost predicate OwnPage(before: Memory, after: Memory, p: nat) {
    forall a: nat :: (a < Low(p) || p <= a) && a != p + CONTEXT && a != p + STATE ==> W(after, a) == W(before, a)
  }

  lemma OwnPageTransitive(a: Memory, b: Memory, c: Memory, p: nat)
    requires OwnPage(a, b, p) && OwnPage(b, c, p)
    ensures OwnPage(a, c, p)
  {
  }

  lemma StackIsOwn(before: Memory, after: Memory, p: nat, lo: int, hi: int)
    requires Outside(before, after, lo, hi) && Low(p) <= lo && hi <= p
    ensures OwnPage(before, after, p) && W(after, p + STATE) == W(before, p + STATE)
  {
  }

  /** Only the page of `q` changed. */
  ghost predicate OnPage(before: Memory, after: Memory, q: nat) {
    forall a: nat :: a < Low(q) || High(q) <= a ==> W(after, a) == W(before, a)
  }

  lemma ForkReady(k: Layout, m2: Memory, m3: Memory, p: nat, child: nat, pid: u32, u: Regs)
    requires ProcAt(p) && ProcAt(child) && child != p && W(m2, p + TF) == p - FRAME && FrameAt(m2, p - FRAME, u)
    requires NewThread(k, m3, child, FirstRegs()) && OnPage(m2, m3, child)
    ensures var m4 := Put(m3, child, pid);
      && FreshThread(k, m4, child) && Described(m4, child, pid) && OnPage(m2, m4, child) && W(m4, child + TF) == child - FRAME
      && W(m4, p + TF) == p - FRAME && FrameAt(m4, p - FRAME, u) && (child <= p - FRAME || p <= child - FRAME)
  {
    hide FrameAt;
    hide NoFiles;
    PagesApart(p, child);
    NoFilesKept(m3, Put(m3, child, pid), child);
    FrameKept(m2, Put(m3, child, pid), p - FRAME, u);
  }

  lemma ForkFilled(k: Layout, m2: Memory, m4: Memory, m5: Memory, child: nat, pid: u32, u: Regs)
    requires ProcAt(child) && FreshThread(k, m4, child) && Described(m4, child, pid) && OnPage(m2, m4, child)
    requires FrameAt(m5, child - FRAME, u) && Outside(m4, m5, child - FRAME, child)
    ensures W(m5, child + TF) == child - FRAME
    ensures var m6 := Put(m5, child - FRAME + 28, 0);
      NewThread(k, m6, child, u.(eax := 0)) && Described(m6, child, pid) && OnPage(m2, m6, child)
  {
    hide FrameAt, NoFiles;
    NoFilesKept(m4, Put(m5, child - FRAME + 28, 0), child);
    EaxReplaced(m5, child - FRAME, u, 0);
  }

  /** The parent's stack is not touched while the child's is built. */
  lemma ForkStack(m2: Memory, m6: Memory, p: nat, child: nat, e: nat, u: Regs)
    requires ProcAt(p) && ProcAt(child) && child != p && OnPage(m2, m6, child) && FrameAt(m2, p - FRAME, u) && Low(p) <= e <= p
    ensures FrameAt(m6, p - FRAME, u) && W(m6, e) == W(m2, e)
  {
    hide FrameAt;
    PagesApart(p, child);
    FrameKept(m2, m6, p - FRAME, u);
  }

  /** The frame of the new program, below which `sys_execve` and `yield` return. */
  lemma ExecReturns(k: Layout, m2: Memory, m3: Memory, m4: Memory, p: nat, u: Regs, entry: u32, eax: u32)
    requires LayoutOk(k) && ProcAt(p)
    requires FrameAt(m2, p - FRAME, u) && W(m2, p - FRAME - 16) == k.labels.execRet
    requires m3 == Put(Put(m2, p - FRAME + 48, entry), p - FRAME + 60, KERNEL_OFFSET)
    requires m4 == Put(m3, p - FRAME - 20 - 4 * k.execFrame, k.labels.execYieldRet)
    ensures Outside(m2, m4, Low(p), p)
    ensures ReturnsTo(k, m4, p, p - FRAME - 20 - 4 * k.execFrame, u.(eip := entry, esp := KERNEL_OFFSET, eax := eax), eax)
  {
    hide FrameAt;
    var tf, e := p - FRAME, p - FRAME - 20 - 4 * k.execFrame;
    EntryReplaced(m2, tf, u, entry, KERNEL_OFFSET);
    var v := u.(eip := entry, esp := KERNEL_OFFSET);
    FrameKept(m3, m4, tf, v);
    FrameEax(m4, tf, v);
  }

  lemma FrameEax(mem: Memory, tf: nat, u: Regs)
    requires FrameAt(mem, tf, u)
    ensures u.eax == W(mem, tf + 28)
  {
  }

  lemma EntryReplaced(mem: Memory, tf: nat, u: Regs, eip: u32, esp: u32)
    requires FrameAt(mem, tf, u)
    ensures FrameAt(Put(Put(mem, tf + 48, eip), tf + 60, esp), tf, u.(eip := eip, esp := esp))
  {
  }

  lemma FirstStart(k: Layout, mem: Memory, q: nat, pid: u32, entry: u32, left: u32)
    requires LayoutOk(k) && Placed(k, q) && NewThread(k, mem, q, FirstRegs())
    ensures var m := Put(Put(Put(mem, q, pid), q - FRAME + 48, entry), q - FRAME + 60, KERNEL_OFFSET);
      && Parked(k, m, q, FirstRegs().(eip := entry, esp := KERNEL_OFFSET), left) && W(m, q + TF) == q - FRAME
      && Described(m, q, pid)
    ensures W(Put(mem, q, pid), q + TF) == q - FRAME
  {
    hide FrameAt, NoFiles;
    NoFilesKept(mem, Put(Put(Put(mem, q, pid), q - FRAME + 48, entry), q - FRAME + 60, KERNEL_OFFSET), q);
    FrameKept(mem, Put(mem, q, pid), q - FRAME, FirstRegs());
    EntryReplaced(Put(mem, q, pid), q - FRAME, FirstRegs(), entry, KERNEL_OFFSET);
  }

  ghost function WordAt(mem: Memory, base: nat, i: nat): u32 {
    W(mem, base + 4 * i)
  }

  lemma FrameCopied(before: Memory, after: Memory, src: nat, dst: nat, u: Regs)
    requires FrameAt(before, src, u) && forall j :: 0 <= j < 17 ==> WordAt(after, dst, j) == WordAt(before, src, j)
    ensures FrameAt(after, dst, u)
  {
    assert forall j :: 0 <= j < 17 ==> WordAt(after, dst, j) == W(after, dst + 4 * j);
    assert WordAt(after, dst, 0) == u.edi && WordAt(after, dst, 1) == u.esi && WordAt(after, dst, 2) == u.ebp
      && WordAt(after, dst, 4) == u.ebx && WordAt(after, dst, 5) == u.edx && WordAt(after, dst, 6) == u.ecx
      && WordAt(after, dst, 7) == u.eax;
    assert WordAt(after, dst, 8) == u.gs && WordAt(after, dst, 9) == u.fs && WordAt(after, dst, 10) == u.es
      && WordAt(after, dst, 11) == u.ds && WordAt(after, dst, 12) == u.eip && WordAt(after, dst, 13) == u.cs
      && WordAt(after, dst, 14) == u.eflags && WordAt(after, dst, 15) == u.esp && WordAt(after, dst, 16) == u.ss;
  }

  lemma EaxReplaced(mem: Memory, tf: nat, u: Regs, x: u32)
    requires FrameAt(mem, tf, u)
    ensures FrameAt(Put(mem, tf + 28, x), tf, u.(eax := x))
  {
  }

  /** The return address of `yield` below the trap frame. */
  lemma TimerReturns(k: Layout, mem: Memory, p: nat, u: Regs, eax: u32)
    requires LayoutOk(k) && ProcAt(p) && FrameAt(mem, p - FRAME, u)
    ensures ReturnsTo(k, Put(mem, p - FRAME - 4, k.labels.timerRet), p, p - FRAME - 4, u, eax)
  {
    hide FrameAt;
    FrameKept(mem, Put(mem, p - FRAME - 4, k.labels.timerRet), p - FRAME, u);
  }

  /** A context as `switch_to` leaves it: four callee-saved registers and the return address. */
  ghost predicate SavedAt(mem: Memory, c: nat, r: Regs, back: u32) {
    W(mem, c) == r.edi && W(mem, c + 4) == r.esi && W(mem, c + 8) == r.ebp && W(mem, c + 12) == r.ebx && W(mem, c + 16) == back
  }

  ghost predicate OutsideBut(before: Memory, after: Memory, lo: int, hi: int, cell: nat) {
    forall a: nat :: (a < lo || hi <= a) && a != cell ==> W(after, a) == W(before, a)
  }

  ghost function CallMemory(mem: Memory, e: nat, prev: u32, next: u32, back: u32): Memory
    requires e >= 12
  {
    Put(Put(Put(mem, e - 4, next), e - 8, prev), e - 12, back)
  }

  lemma CallStores(mem: Memory, e: nat, prev: u32, next: u32, back: u32)
    requires e >= 12
    ensures var m := CallMemory(mem, e, prev, next, back);
      W(m, e - 8) == prev && W(m, e - 4) == next && W(m, e - 12) == back && Outside(mem, m, e - 12, e)
  {
  }

  lemma SwitchStores(mem: Memory, e: nat, prev: u32, next: u32, back: u32, r: Regs)
    requires 28 <= e < U32 && (prev < e - 28 || e <= prev)
    ensures var m := Put(Stored(CallMemory(mem, e, prev, next, back), e - 28, CalleeSaved(r)), prev, e - 28);
      SavedAt(m, e - 28, r, back) && W(m, prev) == e - 28 && OutsideBut(mem, m, e - 28, e, prev)
  {
    hide Stored, CallMemory, SavedAt;
    var m1, ws := CallMemory(mem, e, prev, next, back), CalleeSaved(r);
    CallStores(mem, e, prev, next, back);
    var m2 := Stored(m1, e - 28, ws);
    StoredElsewhere(m1, e - 28, ws);
    assert W(m2, e - 12) == back;
    OutsideTransitive(mem, m1, m2, e - 12, e, e - 28, e - 12, e - 28, e);
    StoredContext(m1, e - 28, r);
    LastStore(m2, e - 28, r, back, prev, e - 28);
  }

  lemma StoredContext(mem: Memory, c: nat, r: Regs)
    ensures var m := Stored(mem, c, CalleeSaved(r));
      W(m, c) == r.edi && W(m, c + 4) == r.esi && W(m, c + 8) == r.ebp && W(m, c + 12) == r.ebx
  {
    hide Stored;
    StoredAt(mem, c, CalleeSaved(r), 0);
    StoredAt(mem, c, CalleeSaved(r), 1);
    StoredAt(mem, c, CalleeSaved(r), 2);
    StoredAt(mem, c, CalleeSaved(r), 3);
  }

  lemma LastStore(mem: Memory, c: nat, r: Regs, back: u32, cell: nat, x: u32)
    requires W(mem, c) == r.edi && W(mem, c + 4) == r.esi && W(mem, c + 8) == r.ebp && W(mem, c + 12) == r.ebx && W(mem, c + 16) == back
    requires cell < c || c + 20 <= cell
    ensures SavedAt(Put(mem, cell, x), c, r, back)
  {
  }

  ghost predicate SchedulerOnly(k: Layout, before: Memory, after: Memory) {
    forall a: nat :: (a < k.bootLow || k.boot <= a) && a != k.idle + CONTEXT ==> W(after, a) == W(before, a)
  }

  /** Nothing changed on the stack page of any thread but `q`. */
  ghost predicate SameBut(k: Layout, before: Memory, after: Memory, q: nat) {
    forall p: nat :: Placed(k, p) && p != q ==> SameOn(before, after, Low(p), High(p))
  }

  lemma Compiled0(k: Layout, m0: Memory, m1: Memory)
    requires Outside(m0, m1, k.bootLow, k.boot)
    ensures SchedulerOnly(k, m0, m1)
  {
  }

  lemma ParkedMeets(k: Layout, m0: Memory, m1: Memory, q: nat, u: Regs, left: u32)
    requires LayoutOk(k) && Parked(k, m0, q, u, left) && SchedulerOnly(k, m0, m1)
    ensures Placed(k, q) && W(m0, q + TF) == q - FRAME && Parked(k, m1, q, u, left) && W(m1, q + CONTEXT) == W(m0, q + CONTEXT) < U32 - 20
  {
    PagesApart(q, k.idle);
    hide ReturnsTo, FrameAt;
    ParkedKept(k, m0, m1, q, u, left);
    ParkedBelow(k, m0, q, u, left);
  }

  lemma ParkedBelow(k: Layout, mem: Memory, q: nat, u: Regs, left: u32)
    requires LayoutOk(k) && Parked(k, mem, q, u, left)
    ensures Low(q) <= W(mem, q + CONTEXT) <= q - FRAME - 24
  {
  }

  lemma SwitchedFromIdle(k: Layout, m0: Memory, m1: Memory, m2: Memory, saved: Regs)
    requires LayoutOk(k) && SchedulerOnly(k, m0, m1) && OutsideBut(m1, m2, k.boot - 28, k.boot, k.idle + CONTEXT)
    requires SavedAt(m2, k.boot - 28, saved, k.labels.schedRet) && W(m2, k.idle + CONTEXT) == k.boot - 28
    ensures SchedulerOnly(k, m0, m2) && IdleParked(k, m2, saved)
  {
  }

  lemma ResumedFrame(k: Layout, m0: Memory, m1: Memory, m2: Memory, q: nat, saved: Regs)
    requires LayoutOk(k) && Placed(k, q) && SchedulerOnly(k, m0, m1) && Outside(m1, m2, q - FRAME, q) && IdleParked(k, m1, saved)
    ensures SameBut(k, m0, m2, q) && IdleParked(k, m2, saved) && W(m2, q + TF) == W(m0, q + TF) && SameOn(m0, m2, q, High(q))
  {
    PagesApart(q, k.idle);
    StackIsOwn(m1, m2, q, q - FRAME, q);
    IdleUntouched(k, m1, m2, q, saved);
    forall p: nat | Placed(k, p) && p != q
      ensures SameOn(m0, m2, Low(p), High(p))
    {
      PagesApart(p, q);
      PagesApart(p, k.idle);
    }
  }

  lemma EaxStored(mem: Memory, tf: nat, u: Regs)
    requires FrameAt(mem, tf, u.(eax := W(mem, tf + 28)))
    ensures FrameAt(Put(mem, tf + 28, u.eax), tf, u)
  {
  }

  /** Writes below the stack pointer, then the context and the cell that points to it. */
  lemma BothOutside(m0: Memory, m1: Memory, m2: Memory, p: nat, e: nat, lo: nat, hi: nat)
    requires ProcAt(p) && Outside(m0, m1, Low(p), e) && OutsideBut(m1, m2, lo, hi, p + CONTEXT) && Low(p) <= lo && hi <= e <= p
    ensures OwnPage(m0, m2, p) && W(m2, p + STATE) == W(m0, p + STATE)
  {
  }

  lemma IdleUntouched(k: Layout, before: Memory, after: Memory, p: nat, saved: Regs)
    requires LayoutOk(k) && Placed(k, p) && IdleParked(k, before, saved)
    requires OwnPage(before, after, p)
    ensures IdleParked(k, after, saved)
  {
    PagesApart(p, k.idle);
  }

  lemma ParkedByYield(k: Layout, m0: Memory, m1: Memory, m2: Memory, p: nat, e: nat, u: Regs, left: u32, r: Regs)
    requires LayoutOk(k) && Placed(k, p) && u.cs % 4 == 3 && W(m0, p + TF) == p - FRAME && OwnPage(m0, m2, p)
    requires ReturnsTo(k, m0, p, e, u, left) && Outside(m0, m1, Low(p), e) && Low(p) + 4 * k.yieldFrame + 28 <= e <= p
    requires var c := e - 4 * k.yieldFrame - 28;
      SavedAt(m2, c, r, k.labels.yieldRet) && W(m2, p + CONTEXT) == c && OutsideBut(m1, m2, c, c + 28, p + CONTEXT)
    ensures Parked(k, m2, p, u, left)
  {
    hide ReturnsTo;
    AboveKept(k, m0, m1, p, e, u, left);
    AboveKept(k, m1, m2, p, e, u, left);
  }

  /** What lies at and above the stack pointer survives compiled code. */
  lemma AboveKept(k: Layout, before: Memory, after: Memory, q: nat, e: nat, u: Regs, left: u32)
    requires LayoutOk(k) && ProcAt(q) && ReturnsTo(k, before, q, e, u, left) && SameOn(before, after, e, q)
    ensures ReturnsTo(k, after, q, e, u, left)
  {
    hide FrameAt;
    if FrameAt(before, q - FRAME, u) {
      FrameKept(before, after, q - FRAME, u);
    }
    var v := u.(eax := W(before, q - FRAME + 28));
    if FrameAt(before, q - FRAME, v) {
      FrameKept(before, after, q - FRAME, v);
    }
  }

  /** What compiled code leaves behind. */
  datatype Junk = Junk(regs: Regs, below: Memory)

  predicate Fits(j: Junk, lo: int, hi: int) {
    forall a :: a in j.below ==> lo <= a < hi
  }

  /** What `switch_to` pushes, lowest address first. */
  function CalleeSaved(r: Regs): seq<u32> {
    [r.edi, r.esi, r.ebp, r.ebx]
  }
}
