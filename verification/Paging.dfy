/**
  Two-level page tables as `alloc_pt` and `copykvm` of kernel/mem.c write them, and the walk the
  processor makes through them. Tables are kept by frame number. Every frame in use has an owner.
 */
module Paging {
  import opened Words

  const ENTRIES := 1024
  /** Directory entries below this one map the user half. */
  const USER_ENTRIES := 512
  /** Pages of the user half, and of the whole address space. */
  const USER_PAGES := 0x8_0000
  const ALL_PAGES := 0x10_0000

  /** The flag bits the kernel uses: present, writable, user, 4 MiB page, global. */
  datatype Flags = Flags(p: bool, rw: bool, us: bool, ps: bool, g: bool)

  const NO_FLAGS := Flags(false, false, false, false, false)
  /** PG_US | PG_RW | PG_P */
  const USER := Flags(true, true, true, false, false)

  function Or(a: Flags, b: Flags): Flags {
    Flags(a.p || b.p, a.rw || b.rw, a.us || b.us, a.ps || b.ps, a.g || b.g)
  }

  function And(a: Flags, b: Flags): Flags {
    Flags(a.p && b.p, a.rw && b.rw, a.us && b.us, a.ps && b.ps, a.g && b.g)
  }

  /** A directory or table entry: a frame number and the flags. */
  datatype Pte = Pte(frame: nat, flags: Flags)

  type Tables = map<nat, seq<Pte>>

  function ZeroTable(): (t: seq<Pte>)
    ensures |t| == ENTRIES
  {
    seq(ENTRIES, i => Pte(0, NO_FLAGS))
  }

  datatype Translation = NotMapped | Page(frame: nat, flags: Flags)

  ghost predicate IsTable(tables: Tables, f: nat) {
    f in tables && |tables[f]| == ENTRIES
  }

  /** The processor's walk for page `vp` from directory `pd`, with the flags both levels grant. */
  ghost function Walk(tables: Tables, pd: nat, vp: nat): Translation {
    if !IsTable(tables, pd) || vp >= ALL_PAGES then NotMapped
    else
      var e := tables[pd][vp / ENTRIES];
      if !e.flags.p then NotMapped
      else if e.flags.ps then Page(e.frame / ENTRIES * ENTRIES + vp % ENTRIES, e.flags)
      else if !IsTable(tables, e.frame) then NotMapped
      else
        var t := tables[e.frame][vp % ENTRIES];
        if !t.flags.p then NotMapped else Page(t.frame, And(e.flags, t.flags))
  }

  // ---------- ownership

  /**
    What a frame in use is for: the kernel directory, a directory, table `i` of directory `pd`, page `vp` of `pd`,
    or the kernel's own data, such as a thread's stack.
   */
  datatype Owner = KernelDirectory | Directory | TableOf(pd: nat, i: nat) | DataOf(pd: nat, vp: nat) | Kernel

  /** The tables, the owner of every frame in use, all directories ever built, and the kernel's own. */
  datatype Mem = Mem(tables: Tables, owner: map<nat, Owner>, dirs: set<nat>, kdir: nat)

  ghost predicate Owned(m: Mem, f: nat, o: Owner) {
    f in m.owner && m.owner[f] == o
  }

  /** Present user entries of `d` point to tables of its own and grant user access. */
  ghost predicate UserEntriesOk(m: Mem, d: nat) {
    IsTable(m.tables, d) &&
    forall i :: 0 <= i < USER_ENTRIES && m.tables[d][i].flags.p ==>
      m.tables[d][i].flags == USER && IsTable(m.tables, m.tables[d][i].frame)
      && Owned(m, m.tables[d][i].frame, TableOf(d, i))
  }

  /** Entries 512..1023 are the kernel's. */
  ghost predicate SharesKernelHalf(m: Mem, d: nat) {
    IsTable(m.tables, d) && IsTable(m.tables, m.kdir)
    && m.tables[d][USER_ENTRIES..] == m.tables[m.kdir][USER_ENTRIES..]
  }

  /** A user page of `d` leads to a frame that is owned for exactly that page, with user access. */
  ghost predicate PagesOwned(m: Mem, d: nat) {
    forall vp :: 0 <= vp < USER_PAGES ==>
      var w := Walk(m.tables, d, vp);
      w.Page? ==> w.flags == USER && Owned(m, w.frame, DataOf(d, vp))
  }

  ghost predicate DirectoryOk(m: Mem, d: nat) {
    Owned(m, d, Directory) && UserEntriesOk(m, d) && SharesKernelHalf(m, d) && PagesOwned(m, d)
  }

  /** The kernel maps its half with 4 MiB pages only. */
  ghost predicate KernelHalfLarge(m: Mem) {
    IsTable(m.tables, m.kdir) &&
    forall i :: USER_ENTRIES <= i < ENTRIES && m.tables[m.kdir][i].flags.p ==> m.tables[m.kdir][i].flags.ps
  }

  ghost predicate Core(m: Mem) {
    && KernelHalfLarge(m) && Owned(m, m.kdir, KernelDirectory)
    && forall d :: d in m.dirs ==> DirectoryOk(m, d)
  }

  /** No frame is reachable as a user page in two ways, from one directory or from two. */
  lemma FramesNotShared(m: Mem, d: nat, vp: nat, d': nat, vp': nat)
    requires Core(m) && d in m.dirs && d' in m.dirs && vp < USER_PAGES && vp' < USER_PAGES
    requires Walk(m.tables, d, vp).Page? && Walk(m.tables, d', vp').Page?
    requires Walk(m.tables, d, vp).frame == Walk(m.tables, d', vp').frame
    ensures d == d' && vp == vp'
  {
    hide Walk;
    assert PagesOwned(m, d) && PagesOwned(m, d');
    var f := Walk(m.tables, d, vp).frame;
    assert Owned(m, f, DataOf(d, vp)) && Owned(m, f, DataOf(d', vp'));
  }

  /** Every kernel address means the same in every directory as in the kernel's own. */
  lemma KernelHalfShared(m: Mem, d: nat, vp: nat)
    requires Core(m) && d in m.dirs && USER_PAGES <= vp < ALL_PAGES
    ensures Walk(m.tables, d, vp) == Walk(m.tables, m.kdir, vp)
  {
    assert DirectoryOk(m, d);
    var i := vp / ENTRIES;
    assert m.tables[d][USER_ENTRIES..][i - USER_ENTRIES] == m.tables[m.kdir][USER_ENTRIES..][i - USER_ENTRIES];
    assert m.tables[d][i] == m.tables[m.kdir][i];
  }

  // ---------- writing one page

  /** One iteration of `alloc_pt`; `spare` is the zeroed frame used when the directory entry is absent. */
  ghost function MapPage(m: Mem, pd: nat, vp: nat, frame: nat, spare: nat): Mem
    requires IsTable(m.tables, pd) && vp < USER_PAGES
    requires m.tables[pd][vp / ENTRIES].flags.p ==> IsTable(m.tables, m.tables[pd][vp / ENTRIES].frame)
  {
    var i, j, e := vp / ENTRIES, vp % ENTRIES, m.tables[pd][vp / ENTRIES];
    if e.flags.p then
      var dir := m.tables[pd][i := Pte(e.frame, Or(e.flags, USER))];
      m.(tables := m.tables[pd := dir][e.frame := m.tables[e.frame][j := Pte(frame, USER)]])
    else
      var dir := m.tables[pd][i := Pte(spare, USER)];
      m.(tables := m.tables[spare := ZeroTable()[j := Pte(frame, USER)]][pd := dir],
         owner := m.owner[spare := TableOf(pd, i)])
  }

  ghost predicate MayMap(m: Mem, pd: nat, vp: nat, frame: nat, spare: nat) {
    && Core(m) && pd in m.dirs && vp < USER_PAGES && Owned(m, frame, DataOf(pd, vp))
    && IsTable(m.tables, pd)
    && (m.tables[pd][vp / ENTRIES].flags.p ==> IsTable(m.tables, m.tables[pd][vp / ENTRIES].frame))
    && (!m.tables[pd][vp / ENTRIES].flags.p ==> spare !in m.owner)
  }

  /** The walk afterwards: the page leads to the frame, every other user page of `pd` where it did before. */
  lemma MapPageWalk(m: Mem, pd: nat, vp: nat, frame: nat, spare: nat, v: nat)
    requires MayMap(m, pd, vp, frame, spare) && v < USER_PAGES
    ensures Walk(MapPage(m, pd, vp, frame, spare).tables, pd, v) ==
            if v == vp then Page(frame, Flags(true, true, true, false, false)) else Walk(m.tables, pd, v)
  {
    assert DirectoryOk(m, pd);
    var i, e, t' := vp / ENTRIES, m.tables[pd][vp / ENTRIES], MapPage(m, pd, vp, frame, spare).tables;
    if e.flags.p {
      assert Owned(m, e.frame, TableOf(pd, i));
      assert e.flags == USER;
    }
    var k := v / ENTRIES;
    if k != i && m.tables[pd][k].flags.p {
      assert Owned(m, m.tables[pd][k].frame, TableOf(pd, k));
    }
    if k == i {
      assert v != vp ==> v % ENTRIES != vp % ENTRIES;
    }
  }

  /** Other directories are not touched. */
  lemma MapPageElsewhere(m: Mem, pd: nat, vp: nat, frame: nat, spare: nat, d: nat)
    requires MayMap(m, pd, vp, frame, spare) && d in m.dirs && d != pd
    ensures var m' := MapPage(m, pd, vp, frame, spare);
      && IsTable(m'.tables, d) && m'.tables[d] == m.tables[d]
      && (forall i :: 0 <= i < USER_ENTRIES && m.tables[d][i].flags.p ==>
            m.tables[d][i].frame in m'.tables && m'.tables[m.tables[d][i].frame] == m.tables[m.tables[d][i].frame])
      && (forall v :: 0 <= v < USER_PAGES ==> Walk(m'.tables, d, v) == Walk(m.tables, d, v))
  {
    assert DirectoryOk(m, d) && DirectoryOk(m, pd);
    var i := vp / ENTRIES;
    if m.tables[pd][i].flags.p {
      assert Owned(m, m.tables[pd][i].frame, TableOf(pd, i));
    }
  }

  lemma MapPageTarget(m: Mem, pd: nat, vp: nat, frame: nat, spare: nat)
    requires MayMap(m, pd, vp, frame, spare)
    ensures var m' := MapPage(m, pd, vp, frame, spare);
      Owned(m', pd, Directory) && UserEntriesOk(m', pd) && SharesKernelHalf(m', pd) && m'.tables[m'.kdir] == m.tables[m.kdir]
      && IsTable(m'.tables, m'.kdir)
  {
    hide PagesOwned;
    var m', k := MapPage(m, pd, vp, frame, spare), vp / ENTRIES;
    assert DirectoryOk(m, pd);
    if m.tables[pd][k].flags.p {
      assert Owned(m, m.tables[pd][k].frame, TableOf(pd, k)) && m.tables[pd][k].flags == USER;
    }
    forall i | 0 <= i < USER_ENTRIES && m'.tables[pd][i].flags.p
      ensures m'.tables[pd][i].flags == USER && IsTable(m'.tables, m'.tables[pd][i].frame)
      ensures Owned(m', m'.tables[pd][i].frame, TableOf(pd, i))
    {
      assert i != k ==> m'.tables[pd][i] == m.tables[pd][i];
    }
    assert m'.tables[pd][USER_ENTRIES..] == m.tables[pd][USER_ENTRIES..];
  }

  lemma MapPagePages(m: Mem, pd: nat, vp: nat, frame: nat, spare: nat, d: nat)
    requires MayMap(m, pd, vp, frame, spare) && d in m.dirs
    ensures PagesOwned(MapPage(m, pd, vp, frame, spare), d)
  {
    hide Walk, UserEntriesOk, SharesKernelHalf, IsTable;
    assert DirectoryOk(m, d);
    var m' := MapPage(m, pd, vp, frame, spare);
    forall v | 0 <= v < USER_PAGES
      ensures Walk(m'.tables, d, v) == if d == pd && v == vp then Page(frame, USER) else Walk(m.tables, d, v)
    {
      if d == pd {
        MapPageWalk(m, pd, vp, frame, spare, v);
      } else {
        MapPageElsewhere(m, pd, vp, frame, spare, d);
      }
    }
  }

  lemma MapPageOther(m: Mem, pd: nat, vp: nat, frame: nat, spare: nat, d: nat)
    requires MayMap(m, pd, vp, frame, spare) && d in m.dirs && d != pd
    ensures var m' := MapPage(m, pd, vp, frame, spare);
      Owned(m', d, Directory) && UserEntriesOk(m', d) && SharesKernelHalf(m', d)
  {
    hide Walk, PagesOwned;
    assert DirectoryOk(m, d);
    MapPageElsewhere(m, pd, vp, frame, spare, d);
    MapPageTarget(m, pd, vp, frame, spare);
  }

  /** One iteration keeps every directory in order. */
  lemma MapPageCore(m: Mem, pd: nat, vp: nat, frame: nat, spare: nat)
    requires MayMap(m, pd, vp, frame, spare)
    ensures Core(MapPage(m, pd, vp, frame, spare))
  {
    hide Walk, UserEntriesOk, SharesKernelHalf, PagesOwned;
    var m' := MapPage(m, pd, vp, frame, spare);
    MapPageTarget(m, pd, vp, frame, spare);
    forall d | d in m'.dirs
      ensures DirectoryOk(m', d)
    {
      MapPagePages(m, pd, vp, frame, spare, d);
      if d != pd {
        MapPageOther(m, pd, vp, frame, spare, d);
      }
    }
  }

  // ---------- which tables there are

  ghost predicate HasTable(tables: Tables, d: nat, i: nat) {
    IsTable(tables, d) && i < ENTRIES && tables[d][i].flags.p
  }

  /** The user directory entries of `d` that point to a table. */
  ghost function Present(m: Mem, d: nat): set<nat> {
    set i: nat | i < USER_ENTRIES && HasTable(m.tables, d, i)
  }

  ghost predicate Touched(i: nat, first: nat, n: nat) {
    n > 0 && first / ENTRIES <= i <= (first + n - 1) / ENTRIES
  }

  /** The directory entries that `n` pages from `first` on go through. */
  ghost function Needed(first: nat, n: nat): set<nat> {
    set i: nat | i < USER_ENTRIES && Touched(i, first, n)
  }

  lemma NeededOneMore(first: nat, k: nat)
    requires first + k < USER_PAGES
    ensures Needed(first, 0) == {} && Needed(first, k + 1) == Needed(first, k) + {(first + k) / ENTRIES}
  {
    var e := (first + k) / ENTRIES;
    assert k > 0 ==> (first + k - 1) / ENTRIES == e || (first + k - 1) / ENTRIES + 1 == e;
    forall i: nat | i < USER_ENTRIES
      ensures Touched(i, first, k + 1) <==> Touched(i, first, k) || i == e
    {
    }
  }

  lemma MapPagePresent(m: Mem, pd: nat, vp: nat, frame: nat, spare: nat, d: nat)
    requires MayMap(m, pd, vp, frame, spare) && d in m.dirs
    ensures Present(MapPage(m, pd, vp, frame, spare), d) == if d == pd then Present(m, pd) + {vp / ENTRIES} else Present(m, d)
  {
    var m' := MapPage(m, pd, vp, frame, spare);
    assert DirectoryOk(m, d) && DirectoryOk(m, pd);
    var k := vp / ENTRIES;
    if m.tables[pd][k].flags.p {
      assert Owned(m, m.tables[pd][k].frame, TableOf(pd, k));
    }
    forall i: nat | i < USER_ENTRIES
      ensures HasTable(m'.tables, d, i) <==> HasTable(m.tables, d, i) || (d == pd && i == k)
    {
    }
  }

  // ---------- mapping a range

  /** Owners stay; frames that gain one become tables of `pd`. */
  ghost predicate OwnersGrow(m0: Mem, m: Mem, pd: nat) {
    && (forall f :: f in m0.owner ==> f in m.owner && m.owner[f] == m0.owner[f])
    && (forall f :: f in m.owner && f !in m0.owner ==> (m.owner[f].TableOf? && m.owner[f].pd == pd))
  }

  /** User pages of `d` walk the same way in both, through the same tables. */
  ghost predicate SameUserPages(m0: Mem, m: Mem, d: nat) {
    Present(m, d) == Present(m0, d) && forall v :: 0 <= v < USER_PAGES ==> Walk(m.tables, d, v) == Walk(m0.tables, d, v)
  }

  /** The page map of `pd` in `m` is that in `m0` overridden by `n` pages from `first` to frames from `frame`. */
  ghost predicate Overridden(m0: Mem, m: Mem, pd: nat, first: nat, frame: nat, n: nat) {
    forall v :: 0 <= v < USER_PAGES ==>
      Walk(m.tables, pd, v) == (if first <= v < first + n then Page(frame + v - first, USER) else Walk(m0.tables, pd, v))
  }

  /** `alloc_pt` has mapped `n` pages of `pd` and changed nothing else. */
  ghost predicate MappedRange(m0: Mem, m: Mem, pd: nat, first: nat, frame: nat, n: nat) {
    && Core(m) && m.dirs == m0.dirs && m.kdir == m0.kdir
    && OwnersGrow(m0, m, pd)
    && Overridden(m0, m, pd, first, frame, n) && Present(m, pd) == Present(m0, pd) + Needed(first, n)
    && (forall d :: d in m0.dirs && d != pd ==> SameUserPages(m0, m, d))
    && m0.kdir in m0.tables && m.kdir in m.tables && m.tables[m.kdir] == m0.tables[m0.kdir]
  }

  lemma NothingMapped(m: Mem, pd: nat, first: nat, frame: nat)
    requires Core(m)
    ensures MappedRange(m, m, pd, first, frame, 0)
  {
    assert Needed(first, 0) == {};
  }

  lemma MappedOneMore(m0: Mem, m: Mem, pd: nat, first: nat, frame: nat, k: nat, spare: nat)
    requires pd in m0.dirs && MappedRange(m0, m, pd, first, frame, k)
    requires MayMap(m, pd, first + k, frame + k, spare)
    ensures MappedRange(m0, MapPage(m, pd, first + k, frame + k, spare), pd, first, frame, k + 1)
  {
    hide Walk, DirectoryOk, UserEntriesOk, Present, Needed;
    var m' := MapPage(m, pd, first + k, frame + k, spare);
    NeededOneMore(first, k);
    MapPagePresent(m, pd, first + k, frame + k, spare, pd);
    MapPageCore(m, pd, first + k, frame + k, spare);
    MapPageTarget(m, pd, first + k, frame + k, spare);
    forall v | 0 <= v < USER_PAGES
      ensures Walk(m'.tables, pd, v) == if v == first + k then Page(frame + k, USER) else Walk(m.tables, pd, v)
    {
      MapPageWalk(m, pd, first + k, frame + k, spare, v);
    }
    forall d | d in m0.dirs && d != pd
      ensures SameUserPages(m0, m', d)
    {
      assert SameUserPages(m0, m, d);
      MapPageElsewhere(m, pd, first + k, frame + k, spare, d);
      MapPagePresent(m, pd, first + k, frame + k, spare, d);
    }
  }

  // ---------- claiming data frames and adding a directory

  ghost predicate InRange(f: nat, lo: nat, n: nat) {
    lo <= f < lo + n
  }

  /** Frames `lo`, `lo + 1`, .. become the property of pages `first`, `first + 1`, .. of `pd`. */
  ghost function Claimed(m: Mem, pd: nat, first: nat, lo: nat, n: nat): Mem {
    m.(owner := m.owner + map f: nat | lo <= f < lo + n && InRange(f, lo, n) :: DataOf(pd, first + (f - lo)))
  }

  lemma ClaimedCore(m: Mem, pd: nat, first: nat, lo: nat, n: nat)
    requires Core(m) && forall f :: lo <= f < lo + n ==> f !in m.owner
    ensures Core(Claimed(m, pd, first, lo, n))
  {
    hide Walk;
    var m' := Claimed(m, pd, first, lo, n);
    assert forall f :: f in m.owner ==> f in m'.owner && m'.owner[f] == m.owner[f];
    forall d | d in m'.dirs
      ensures DirectoryOk(m', d)
    {
      assert DirectoryOk(m, d);
    }
  }

  /** Frame `f` becomes the kernel's own. */
  ghost function WithKernelFrame(m: Mem, f: nat): Mem {
    m.(owner := m.owner[f := Kernel])
  }

  lemma WithKernelFrameCore(m: Mem, f: nat)
    requires Core(m) && f !in m.owner
    ensures Core(WithKernelFrame(m, f)) && forall d :: SameUserPages(m, WithKernelFrame(m, f), d)
  {
    hide Walk;
    var m' := WithKernelFrame(m, f);
    assert forall d :: Present(m', d) == Present(m, d);
    forall d | d in m'.dirs
      ensures DirectoryOk(m', d)
    {
      assert DirectoryOk(m, d);
    }
  }

  /** `copykvm`: an empty user half and a copy of the kernel half. */
  ghost function WithDirectory(m: Mem, pd: nat): Mem
    requires IsTable(m.tables, m.kdir)
  {
    m.(tables := m.tables[pd := ZeroTable()[..USER_ENTRIES] + m.tables[m.kdir][USER_ENTRIES..]],
       owner := m.owner[pd := Directory], dirs := m.dirs + {pd})
  }

  lemma WithDirectoryCore(m: Mem, pd: nat)
    requires Core(m) && pd !in m.owner
    ensures Core(WithDirectory(m, pd)) && pd !in m.dirs
    ensures forall vp :: 0 <= vp < USER_PAGES ==> Walk(WithDirectory(m, pd).tables, pd, vp) == NotMapped
    ensures forall d :: d in m.dirs ==> SameUserPages(m, WithDirectory(m, pd), d)
    ensures Present(WithDirectory(m, pd), pd) == {}
    ensures WithDirectory(m, pd).tables[m.kdir] == m.tables[m.kdir]
  {
    var m' := WithDirectory(m, pd);
    forall d | d in m.dirs
      ensures d != pd && SameUserPages(m, m', d)
    {
      OldDirectoryKept(m, pd, d);
    }
    forall d | d in m'.dirs
      ensures DirectoryOk(m', d)
    {
      if d != pd {
        OldDirectoryKept(m, pd, d);
      }
    }
  }

  lemma OldDirectoryKept(m: Mem, pd: nat, d: nat)
    requires Core(m) && pd !in m.owner && d in m.dirs
    ensures d != pd && SameUserPages(m, WithDirectory(m, pd), d) && DirectoryOk(WithDirectory(m, pd), d)
  {
    var m' := WithDirectory(m, pd);
    assert DirectoryOk(m, d);
    assert forall i: nat :: HasTable(m'.tables, d, i) <==> HasTable(m.tables, d, i);
    forall v | 0 <= v < USER_PAGES
      ensures Walk(m'.tables, d, v) == Walk(m.tables, d, v)
    {
      var e := m.tables[d][v / ENTRIES];
      if e.flags.p {
        assert Owned(m, e.frame, TableOf(d, v / ENTRIES));
      }
    }
  }
}
