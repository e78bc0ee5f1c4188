/**
  The boot memory map of kernel/paging.c and kernel/init.c: a table of 32 slots from which address
  ranges are cut while the table is being iterated over.
 */
module MemoryMap {
  import opened Words

  const SLOTS := 32

  datatype Slot = Slot(addr: nat, len: nat, available: bool)

  /** The table, its bound `n`, the high-water mark, and whether the kernel has panicked. */
  datatype Table = Table(slots: seq<Slot>, n: nat, high: nat, panicked: bool)

  ghost function Last(e: Slot): nat {
    e.addr + e.len
  }

  ghost predicate InSlot(e: Slot, x: int) {
    e.addr <= x < e.addr + e.len
  }

  /** Address `x` is in some slot of the table. */
  ghost predicate Covers(slots: seq<Slot>, x: int) {
    exists i :: 0 <= i < |slots| && InSlot(slots[i], x)
  }

  ghost predicate DisjointSlots(slots: seq<Slot>) {
    forall i, j, x :: 0 <= i < j < |slots| && InSlot(slots[i], x) ==> !InSlot(slots[j], x)
  }

  ghost predicate PageSlot(e: Slot) {
    e.addr % PAGE == 0 && e.len % PAGE == 0 && e.addr + e.len < U32
  }

  /** Page-aligned disjoint slots that end below 2^32, all of them below the bound. */
  ghost predicate WellFormed(t: Table) {
    && |t.slots| == SLOTS && t.n <= SLOTS
    && (forall i :: 0 <= i < SLOTS ==> PageSlot(t.slots[i]))
    && (forall i :: t.n <= i < SLOTS ==> t.slots[i].len == 0)
    && DisjointSlots(t.slots)
  }

  /** Position of the first empty slot, `|slots|` if there is none. */
  ghost function FirstEmpty(slots: seq<Slot>): (k: nat)
    ensures k <= |slots|
  {
    if slots == [] || slots[0].len == 0 then 0 else 1 + FirstEmpty(slots[1..])
  }

  /** `add_memmap`: both values pass through the 32-bit rounding functions. */
  ghost function Added(t: Table, addr: nat, len: nat): Table {
    var a, l, k := PgUp(addr % U32), PgDown(len % U32), FirstEmpty(t.slots);
    if len == 0 || t.panicked then t
    else if k == |t.slots| then t.(panicked := true)
    else t.(slots := t.slots[k := Slot(a, l, true)], n := if k >= t.n then k + 1 else t.n,
            high := if (a + l) % U32 > t.high then (a + l) % U32 else t.high)
  }

  ghost function Max(a: int, b: int): int {
    if a < b then b else a
  }

  ghost function Min(a: int, b: int): int {
    if a < b then a else b
  }

  /** The loop body of `cut_memmap` for slot `m`. */
  ghost function SlotCut(t: Table, m: nat, lo: nat, hi: nat): Table
    requires m < |t.slots|
  {
    var e := t.slots[m];
    var first, last := e.addr % U32, (e.addr + e.len) % U32;
    var from, to := Max(lo, first), Min(hi, last);
    if from >= to then t
    else
      var t1 := t.(slots := t.slots[m := Slot(0, 0, e.available)]);
      var t2 := if from > first then Added(t1, first, from - first) else t1;
      if to < last then Added(t2, to, last - to) else t2
  }

  /** The loop of `cut_memmap` from slot `m` on. */
  ghost function CutFrom(t: Table, m: nat, lo: nat, hi: nat): Table
    decreases SLOTS - m
  {
    if m >= t.n || t.panicked || m >= |t.slots| || m >= SLOTS then t
    else CutFrom(SlotCut(t, m, lo, hi), m + 1, lo, hi)
  }

  ghost function Cut(t: Table, start: u32, end: u32): Table {
    CutFrom(t, 0, PgDown(start), PgUp(end))
  }

  // ---------- emptying and filling a slot

  lemma {:induction false} FirstEmptyIs(slots: seq<Slot>)
    ensures var k := FirstEmpty(slots);
      (forall i :: 0 <= i < k ==> slots[i].len != 0) && (k < |slots| ==> slots[k].len == 0)
  {
    if slots != [] && slots[0].len != 0 {
      FirstEmptyIs(slots[1..]);
    }
  }

  lemma Emptied(slots: seq<Slot>, m: nat, av: bool)
    requires m < |slots| && DisjointSlots(slots)
    ensures DisjointSlots(slots[m := Slot(0, 0, av)])
    ensures forall x :: Covers(slots[m := Slot(0, 0, av)], x) <==> Covers(slots, x) && !InSlot(slots[m], x)
  {
    var s := slots[m := Slot(0, 0, av)];
    forall x
      ensures Covers(s, x) <==> Covers(slots, x) && !InSlot(slots[m], x)
    {
      if Covers(s, x) {
        var i :| 0 <= i < |s| && InSlot(s[i], x);
        assert InSlot(slots[i], x);
      }
      if Covers(slots, x) && !InSlot(slots[m], x) {
        var i :| 0 <= i < |slots| && InSlot(slots[i], x);
        assert InSlot(s[i], x);
      }
    }
  }

  lemma Filled(slots: seq<Slot>, k: nat, e: Slot)
    requires k < |slots| && slots[k].len == 0 && DisjointSlots(slots)
    requires forall x :: InSlot(e, x) ==> !Covers(slots, x)
    ensures DisjointSlots(slots[k := e])
    ensures forall x :: Covers(slots[k := e], x) <==> Covers(slots, x) || InSlot(e, x)
  {
    var s := slots[k := e];
    forall x
      ensures Covers(s, x) <==> Covers(slots, x) || InSlot(e, x)
    {
      if Covers(s, x) {
        var i :| 0 <= i < |s| && InSlot(s[i], x);
        assert i == k || InSlot(slots[i], x);
      }
      if Covers(slots, x) {
        var i :| 0 <= i < |slots| && InSlot(slots[i], x);
        assert InSlot(s[i], x);
      }
      if InSlot(e, x) {
        assert InSlot(s[k], x);
      }
    }
    forall i, j, x | 0 <= i < j < |s| && InSlot(s[i], x)
      ensures !InSlot(s[j], x)
    {
      if i == k || j == k {
        var o := if i == k then j else i;
        assert InSlot(slots[o], x) ==> Covers(slots, x);
      }
    }
  }

  lemma AddedIs(t: Table, addr: nat, len: nat)
    requires !t.panicked && addr % PAGE == 0 && len % PAGE == 0 && len > 0 && addr + len < U32
    ensures var k, r := FirstEmpty(t.slots), Added(t, addr, len);
      if k == |t.slots| then r == t.(panicked := true)
      else r.slots == t.slots[k := Slot(addr, len, true)] && r.n == (if k >= t.n then k + 1 else t.n) && !r.panicked
  {
    assert PgUp(addr) == addr && PgDown(len) == len;
  }

  lemma FilledWellFormed(t: Table, k: nat, e: Slot, t': Table)
    requires WellFormed(t) && k < SLOTS && PageSlot(e) && DisjointSlots(t'.slots)
    requires t'.slots == t.slots[k := e] && t'.n == (if k >= t.n then k + 1 else t.n)
    ensures WellFormed(t')
  {
    hide DisjointSlots;
  }

  /** Adding a page range that is not covered yet. */
  lemma AddedExact(t: Table, addr: nat, len: nat)
    requires WellFormed(t) && !t.panicked && addr % PAGE == 0 && len % PAGE == 0 && len > 0 && addr + len < U32
    requires forall x :: addr <= x < addr + len ==> !Covers(t.slots, x)
    ensures Added(t, addr, len).panicked <==> FirstEmpty(t.slots) == SLOTS
    ensures !Added(t, addr, len).panicked ==>
      && WellFormed(Added(t, addr, len))
      && (forall x :: Covers(Added(t, addr, len).slots, x) <==> Covers(t.slots, x) || addr <= x < addr + len)
  {
    hide Added, DisjointSlots;
    FirstEmptyIs(t.slots);
    AddedIs(t, addr, len);
    var k, e := FirstEmpty(t.slots), Slot(addr, len, true);
    if k < SLOTS {
      Filled(t.slots, k, e);
      assert forall x :: Covers(Added(t, addr, len).slots, x) <==> Covers(t.slots, x) || InSlot(e, x);
      FilledWellFormed(t, k, e, Added(t, addr, len));
    }
  }

  // ---------- counting non-empty slots

  ghost function NonEmpty(slots: seq<Slot>): nat {
    if slots == [] then 0 else (if slots[0].len == 0 then 0 else 1) + NonEmpty(slots[1..])
  }

  ghost function Weight(e: Slot): nat {
    if e.len == 0 then 0 else 1
  }

  lemma {:induction false} NonEmptyUpdated(slots: seq<Slot>, i: nat, e: Slot)
    requires i < |slots|
    ensures NonEmpty(slots[i := e]) == NonEmpty(slots) - Weight(slots[i]) + Weight(e)
  {
    if i == 0 {
      assert slots[i := e][1..] == slots[1..];
    } else {
      NonEmptyUpdated(slots[1..], i - 1, e);
      assert slots[i := e][1..] == slots[1..][i - 1 := e];
    }
  }

  lemma {:induction false} FullTable(slots: seq<Slot>)
    ensures NonEmpty(slots) <= |slots|
    ensures NonEmpty(slots) == |slots| <==> FirstEmpty(slots) == |slots|
  {
    if slots != [] {
      FullTable(slots[1..]);
    }
  }

  // ---------- one slot

  ghost predicate Overlaps(e: Slot, lo: nat, hi: nat) {
    Max(lo, e.addr) < Min(hi, Last(e))
  }

  /** The cut lies strictly inside the slot, so two pieces remain. */
  ghost predicate Strict(e: Slot, lo: nat, hi: nat) {
    e.addr < lo < hi < Last(e)
  }

  ghost predicate InCut(x: int, lo: nat, hi: nat) {
    lo <= x < hi
  }

  /** The table after the cut of slot `m`, piece by piece: the emptied slot, the left piece, the right piece. */
  lemma SlotCutIs(t: Table, m: nat, lo: nat, hi: nat)
    requires WellFormed(t) && m < SLOTS && !t.panicked && lo % PAGE == 0 && hi % PAGE == 0
    ensures var e := t.slots[m];
      var t1 := t.(slots := t.slots[m := Slot(0, 0, e.available)]);
      var t2 := if e.addr < lo then Added(t1, e.addr, lo - e.addr) else t1;
      SlotCut(t, m, lo, hi) ==
      if !Overlaps(e, lo, hi) then t else if hi < Last(e) then Added(t2, hi, Last(e) - hi) else t2
  {
    hide Added;
    var e := t.slots[m];
    assert PageSlot(e);
    assert e.addr % U32 == e.addr && (e.addr + e.len) % U32 == Last(e);
  }

  /** The slot emptied. */
  lemma EmptiedTable(t: Table, m: nat)
    requires WellFormed(t) && m < t.n && t.slots[m].len > 0
    ensures var t1 := t.(slots := t.slots[m := Slot(0, 0, t.slots[m].available)]);
      && WellFormed(t1) && FirstEmpty(t1.slots) < t.n && NonEmpty(t1.slots) == NonEmpty(t.slots) - 1
      && forall x :: Covers(t1.slots, x) <==> Covers(t.slots, x) && !InSlot(t.slots[m], x)
  {
    hide DisjointSlots, NonEmpty;
    var empty := Slot(0, 0, t.slots[m].available);
    Emptied(t.slots, m, t.slots[m].available);
    FirstEmptyIs(t.slots[m := empty]);
    assert t.slots[m := empty][m] == empty;
    NonEmptyUpdated(t.slots, m, empty);
  }

  /** One piece put back. */
  lemma PieceAdded(t: Table, addr: nat, len: nat)
    requires WellFormed(t) && !t.panicked && addr % PAGE == 0 && len % PAGE == 0 && len > 0 && addr + len < U32
    requires forall x :: addr <= x < addr + len ==> !Covers(t.slots, x)
    ensures var r := Added(t, addr, len);
      && (r.panicked <==> NonEmpty(t.slots) == SLOTS)
      && (!r.panicked ==>
        && WellFormed(r) && NonEmpty(r.slots) == NonEmpty(t.slots) + 1
        && t.n <= r.n <= t.n + 1 && (FirstEmpty(t.slots) < t.n ==> r.n == t.n)
        && (forall i :: 0 <= i < SLOTS ==> r.slots[i] == t.slots[i] || r.slots[i] == Slot(addr, len, true))
        && forall x :: Covers(r.slots, x) <==> Covers(t.slots, x) || addr <= x < addr + len)
  {
    hide DisjointSlots, NonEmpty, Added, FirstEmpty;
    AddedExact(t, addr, len);
    AddedIs(t, addr, len);
    FullTable(t.slots);
    FirstEmptyIs(t.slots);
    assert t.n < SLOTS ==> t.slots[t.n].len == 0;
    if FirstEmpty(t.slots) < SLOTS {
      NonEmptyUpdated(t.slots, FirstEmpty(t.slots), Slot(addr, len, true));
    }
  }

  lemma SlotIsCovered(slots: seq<Slot>, m: nat)
    requires m < |slots|
    ensures forall x :: InSlot(slots[m], x) ==> Covers(slots, x)
  {
  }

  lemma SlotFacts(t: Table, m: nat)
    requires WellFormed(t) && m < t.n
    ensures |t.slots| == SLOTS && m < SLOTS && PageSlot(t.slots[m])
  {
  }

  lemma SlotCutPieces(t: Table, m: nat, lo: nat, hi: nat)
    requires WellFormed(t) && !t.panicked && m < t.n && lo % PAGE == 0 && hi % PAGE == 0
    requires m < |t.slots| && Overlaps(t.slots[m], lo, hi)
    ensures var e := t.slots[m];
      var t1 := t.(slots := t.slots[m := Slot(0, 0, e.available)]);
      var t2 := if e.addr < lo then Added(t1, e.addr, lo - e.addr) else t1;
      var r := if hi < Last(e) then Added(t2, hi, Last(e) - hi) else t2;
      && (r.panicked <==> Strict(e, lo, hi) && NonEmpty(t.slots) == SLOTS)
      && (!r.panicked ==>
        && WellFormed(r)
        && (forall i :: 0 <= i < SLOTS ==> r.slots[i] == t.slots[i] || !Overlaps(r.slots[i], lo, hi))
        && (forall x :: Covers(r.slots, x) <==> Covers(t.slots, x) && !(InSlot(e, x) && InCut(x, lo, hi)))
        && t.n <= r.n <= (if Strict(e, lo, hi) then t.n + 1 else t.n)
        && NonEmpty(r.slots) <= NonEmpty(t.slots) + (if Strict(e, lo, hi) then 1 else 0))
  {
    hide Covers, Added, NonEmpty, FirstEmpty, WellFormed;
    SlotFacts(t, m);
    var e := t.slots[m];
    EmptiedTable(t, m);
    SlotIsCovered(t.slots, m);
    FullTable(t.slots);
    var t1 := t.(slots := t.slots[m := Slot(0, 0, e.available)]);
    var t2 := if e.addr < lo then Added(t1, e.addr, lo - e.addr) else t1;
    if e.addr < lo {
      PieceAdded(t1, e.addr, lo - e.addr);
    }
    if hi < Last(e) {
      PieceAdded(t2, hi, Last(e) - hi);
    }
  }

  /**
    Cutting one slot removes exactly the cut from it. The table panics only when the cut lies strictly
    inside the slot and no slot is empty; only such a cut takes one more slot.
   */
  lemma SlotCutExact(t: Table, m: nat, lo: nat, hi: nat)
    requires WellFormed(t) && !t.panicked && m < t.n && lo % PAGE == 0 && hi % PAGE == 0
    ensures var e, r := t.slots[m], SlotCut(t, m, lo, hi);
      && (r.panicked <==> Strict(e, lo, hi) && NonEmpty(t.slots) == SLOTS)
      && (!Overlaps(e, lo, hi) ==> r == t)
      && (!r.panicked ==>
        && WellFormed(r)
        && (forall i :: 0 <= i < SLOTS ==> r.slots[i] == t.slots[i] || !Overlaps(r.slots[i], lo, hi))
        && (forall x :: Covers(r.slots, x) <==> Covers(t.slots, x) && !(InSlot(e, x) && InCut(x, lo, hi)))
        && t.n <= r.n <= (if Strict(e, lo, hi) then t.n + 1 else t.n)
        && NonEmpty(r.slots) <= NonEmpty(t.slots) + (if Strict(e, lo, hi) then 1 else 0))
  {
    hide Covers, Added, SlotCut, NonEmpty, FirstEmpty, DisjointSlots;
    SlotCutIs(t, m, lo, hi);
    if Overlaps(t.slots[m], lo, hi) {
      SlotCutPieces(t, m, lo, hi);
    }
  }

  // ---------- the whole loop

  ghost predicate StrictIn(slots: seq<Slot>, lo: nat, hi: nat) {
    exists i :: 0 <= i < |slots| && Strict(slots[i], lo, hi)
  }

  /** `t` is `t0` less part of the cut: nothing outside changed, and a change took something away. */
  ghost predicate PartlyCut(t0: Table, t: Table, lo: nat, hi: nat) {
    && WellFormed(t) && !t.panicked
    && (forall x :: Covers(t.slots, x) ==> Covers(t0.slots, x))
    && (forall x :: Covers(t0.slots, x) && !InCut(x, lo, hi) ==> Covers(t.slots, x))
    && (t == t0 || exists x :: InCut(x, lo, hi) && Covers(t0.slots, x) && !Covers(t.slots, x))
  }

  /** What the bounds may have become: one more slot only after a strict cut, and then nothing is left to cut. */
  ghost predicate Bounded(t0: Table, t: Table, lo: nat, hi: nat) {
    && t0.n <= t.n
    && ((t.n <= t0.n && NonEmpty(t.slots) <= NonEmpty(t0.slots))
        || (t.n <= t0.n + 1 && NonEmpty(t.slots) <= NonEmpty(t0.slots) + 1 && StrictIn(t0.slots, lo, hi)
            && forall x :: Covers(t.slots, x) ==> !InCut(x, lo, hi)))
  }

  ghost predicate CutBelow(t: Table, m: nat, lo: nat, hi: nat) {
    forall i :: 0 <= i < m && i < |t.slots| ==> !Overlaps(t.slots[i], lo, hi)
  }

  /** A slot that strictly contains the cut covers all of it. */
  lemma StrictCoversCut(slots: seq<Slot>, m: nat, lo: nat, hi: nat)
    requires m < |slots| && Strict(slots[m], lo, hi)
    ensures forall x :: InCut(x, lo, hi) ==> InSlot(slots[m], x) && Covers(slots, x)
  {
  }

  lemma OverlapMeans(slots: seq<Slot>, m: nat, lo: nat, hi: nat)
    requires m < |slots| && Overlaps(slots[m], lo, hi)
    ensures exists x :: InCut(x, lo, hi) && InSlot(slots[m], x) && Covers(slots, x)
  {
    var x := Max(lo, slots[m].addr);
    assert InCut(x, lo, hi) && InSlot(slots[m], x);
  }

  /** What the loop keeps, with the slots below `m` done. */
  ghost predicate LoopInvariant(t0: Table, t: Table, m: nat, lo: nat, hi: nat) {
    && PartlyCut(t0, t, lo, hi) && Bounded(t0, t, lo, hi) && CutBelow(t, m, lo, hi)
    && (t == t0 || !StrictIn(t0.slots, lo, hi) || NonEmpty(t0.slots) < SLOTS)
  }

  lemma StrictStep(t0: Table, t: Table, m: nat, lo: nat, hi: nat)
    requires WellFormed(t0) && LoopInvariant(t0, t, m, lo, hi) && m < t.n && lo % PAGE == 0 && hi % PAGE == 0
    requires Strict(t.slots[m], lo, hi)
    ensures var r := SlotCut(t, m, lo, hi);
      && (r.panicked <==> StrictIn(t0.slots, lo, hi) && NonEmpty(t0.slots) == SLOTS)
      && (!r.panicked ==> LoopInvariant(t0, r, m + 1, lo, hi))
  {
    hide Covers, DisjointSlots, NonEmpty, SlotCut;
    SlotCutExact(t, m, lo, hi);
    StrictCoversCut(t.slots, m, lo, hi);
    OverlapMeans(t.slots, m, lo, hi);
    FullTable(t.slots);
    var r := SlotCut(t, m, lo, hi);
    if !r.panicked {
      NothingLeft(r, lo, hi);
    }
  }

  lemma NothingLeft(t: Table, lo: nat, hi: nat)
    requires forall x :: Covers(t.slots, x) ==> !InCut(x, lo, hi)
    ensures forall i :: 0 <= i < |t.slots| ==> !Overlaps(t.slots[i], lo, hi)
  {
    forall i | 0 <= i < |t.slots|
      ensures !Overlaps(t.slots[i], lo, hi)
    {
      if Overlaps(t.slots[i], lo, hi) {
        OverlapMeans(t.slots, i, lo, hi);
      }
    }
  }

  lemma StrictOverlaps(slots: seq<Slot>, lo: nat, hi: nat)
    ensures StrictIn(slots, lo, hi) ==> exists i :: 0 <= i < |slots| && Overlaps(slots[i], lo, hi)
  {
    if i :| 0 <= i < |slots| && Strict(slots[i], lo, hi) {
      assert Overlaps(slots[i], lo, hi);
    }
  }

  lemma StrictExcludesOthers(t: Table, m: nat, lo: nat, hi: nat)
    requires WellFormed(t) && m < |t.slots| && Overlaps(t.slots[m], lo, hi) && StrictIn(t.slots, lo, hi)
    ensures Strict(t.slots[m], lo, hi)
  {
    var i :| 0 <= i < |t.slots| && Strict(t.slots[i], lo, hi);
    StrictCoversCut(t.slots, i, lo, hi);
    OverlapMeans(t.slots, m, lo, hi);
  }

  lemma PlainStep(t0: Table, t: Table, m: nat, lo: nat, hi: nat)
    requires WellFormed(t0) && LoopInvariant(t0, t, m, lo, hi) && m < t.n && lo % PAGE == 0 && hi % PAGE == 0
    requires Overlaps(t.slots[m], lo, hi) && !Strict(t.slots[m], lo, hi)
    ensures !SlotCut(t, m, lo, hi).panicked
    ensures LoopInvariant(t0, SlotCut(t, m, lo, hi), m + 1, lo, hi)
  {
    hide Covers, NonEmpty, SlotCut, DisjointSlots;
    SlotCutExact(t, m, lo, hi);
    OverlapMeans(t.slots, m, lo, hi);
    var r := SlotCut(t, m, lo, hi);
    if r.slots[m] == t.slots[m] {
      OverlapMeans(r.slots, m, lo, hi);
    }
    if t == t0 && StrictIn(t0.slots, lo, hi) {
      StrictExcludesOthers(t, m, lo, hi);
    }
  }

  lemma {:induction false} CutLoop(t0: Table, t: Table, m: nat, lo: nat, hi: nat)
    requires WellFormed(t0) && LoopInvariant(t0, t, m, lo, hi) && lo % PAGE == 0 && hi % PAGE == 0
    ensures var r := CutFrom(t, m, lo, hi);
      && (r.panicked <==> StrictIn(t0.slots, lo, hi) && NonEmpty(t0.slots) == SLOTS)
      && (!r.panicked ==> LoopInvariant(t0, r, SLOTS, lo, hi))
    decreases SLOTS - m
  {
    hide NonEmpty, SlotCut, DisjointSlots, Covers;
    if m < t.n {
      if Strict(t.slots[m], lo, hi) {
        StrictStep(t0, t, m, lo, hi);
      } else if Overlaps(t.slots[m], lo, hi) {
        PlainStep(t0, t, m, lo, hi);
      } else {
        SlotCutExact(t, m, lo, hi);
      }
      var t' := SlotCut(t, m, lo, hi);
      if !t'.panicked {
        CutLoop(t0, t', m + 1, lo, hi);
      }
    } else {
      assert forall i :: m <= i < SLOTS ==> !Overlaps(t.slots[i], lo, hi);
      StrictOverlaps(t.slots, lo, hi);
    }
  }

  /**
    `cut_memmap` is exact set difference on the covered addresses. It panics exactly when no slot is
    empty and the cut lies strictly inside one slot, and takes at most one more slot in all.
   */
  lemma CutExact(t: Table, start: u32, end: u32)
    requires WellFormed(t) && !t.panicked
    ensures var lo, hi, r := PgDown(start), PgUp(end), Cut(t, start, end);
      && (r.panicked <==> StrictIn(t.slots, lo, hi) && NonEmpty(t.slots) == SLOTS)
      && (!r.panicked ==>
        && WellFormed(r)
        && (forall x :: Covers(r.slots, x) <==> Covers(t.slots, x) && !InCut(x, lo, hi))
        && t.n <= r.n <= t.n + 1 && NonEmpty(r.slots) <= NonEmpty(t.slots) + 1)
  {
    hide WellFormed, Covers, NonEmpty;
    var lo, hi, r := PgDown(start), PgUp(end), Cut(t, start, end);
    CutLoop(t, t, 0, lo, hi);
    if !r.panicked {
      LoopDone(t, r, lo, hi);
    }
  }

  lemma LoopDone(t0: Table, t: Table, lo: nat, hi: nat)
    requires LoopInvariant(t0, t, SLOTS, lo, hi)
    ensures forall x :: Covers(t.slots, x) ==> !InCut(x, lo, hi)
  {
    forall x | Covers(t.slots, x)
      ensures !InCut(x, lo, hi)
    {
      var i :| 0 <= i < |t.slots| && InSlot(t.slots[i], x);
      assert !Overlaps(t.slots[i], lo, hi);
    }
  }

  /** An end in the last page of the address space rounds up to zero: the call then changes nothing at all. */
  lemma CutAtTop(t: Table, start: u32, end: u32)
    requires WellFormed(t) && !t.panicked && end > U32 - PAGE
    ensures Cut(t, start, end) == t
  {
    CutNothing(t, 0, PgDown(start));
  }

  lemma {:induction false} CutNothing(t: Table, m: nat, lo: nat)
    requires WellFormed(t)
    ensures CutFrom(t, m, lo, 0) == t
    decreases SLOTS - m
  {
    if m < t.n {
      CutNothing(t, m + 1, lo);
    }
  }

  // ---------- boot

  /** A multiboot memory map entry. */
  datatype Entry = Entry(addr: nat, len: nat, available: bool)

  /** What `add_memmap` records of an entry: the address rounded up, the length down, each in 32 bits. */
  ghost function Recorded(e: Entry): Slot {
    Slot(PgUp(e.addr % U32), PgDown(e.len % U32), true)
  }

  ghost predicate InEntry(e: Entry, x: int) {
    e.available && e.len > 0 && InSlot(Recorded(e), x)
  }

  ghost predicate AvailableAt(entries: seq<Entry>, x: int) {
    exists i :: 0 <= i < |entries| && InEntry(entries[i], x)
  }

  /** Recorded ranges are not empty, end below 2^32 and do not overlap. */
  ghost predicate CleanEntries(entries: seq<Entry>) {
    && (forall i :: 0 <= i < |entries| && entries[i].available && entries[i].len > 0 ==>
          Recorded(entries[i]).len > 0 && Last(Recorded(entries[i])) < U32)
    && (forall i, j, x :: 0 <= i < j < |entries| && InEntry(entries[i], x) ==> !InEntry(entries[j], x))
  }

  ghost function AddAll(t: Table, entries: seq<Entry>): Table {
    if entries == [] then t
    else
      var e, t' := entries[|entries| - 1], AddAll(t, entries[..|entries| - 1]);
      if e.available then Added(t', e.addr, e.len) else t'
  }

  /** The zeroed table of the kernel image. */
  ghost function NewTable(): Table {
    Table(seq(SLOTS, i => Slot(0, 0, false)), 0, 0, false)
  }

  ghost function Boot(entries: seq<Entry>, kstart: u32, kend: u32, mstart: u32, mend: u32): Table {
    Cut(Cut(Cut(AddAll(NewTable(), entries), kstart, kend), 0, 0x1000), mstart, mend)
  }

  ghost function AvailableCount(entries: seq<Entry>): nat {
    if entries == [] then 0
    else AvailableCount(entries[..|entries| - 1]) + if entries[|entries| - 1].available && entries[|entries| - 1].len > 0 then 1 else 0
  }

  lemma {:induction false} EmptyTable()
    ensures WellFormed(NewTable()) && NonEmpty(NewTable().slots) == 0
    ensures forall x :: !Covers(NewTable().slots, x)
  {
    hide DisjointSlots, Covers, PageSlot, NonEmpty;
    NoneNonEmpty(NewTable().slots);
    NothingCovered(NewTable().slots);
  }

  lemma NothingCovered(slots: seq<Slot>)
    requires forall i :: 0 <= i < |slots| ==> slots[i] == Slot(0, 0, false)
    ensures DisjointSlots(slots) && (forall i :: 0 <= i < |slots| ==> PageSlot(slots[i])) && forall x :: !Covers(slots, x)
  {
  }

  lemma {:induction false} NoneNonEmpty(slots: seq<Slot>)
    requires forall i :: 0 <= i < |slots| ==> slots[i].len == 0
    ensures NonEmpty(slots) == 0
  {
    if slots != [] {
      NoneNonEmpty(slots[1..]);
    }
  }

  lemma {:induction false} AddAllExact(entries: seq<Entry>)
    requires CleanEntries(entries)
    ensures var r := AddAll(NewTable(), entries);
      && (AvailableCount(entries) <= SLOTS <==> !r.panicked)
      && (!r.panicked ==>
        && WellFormed(r) && NonEmpty(r.slots) == AvailableCount(entries)
        && (forall x :: Covers(r.slots, x) <==> AvailableAt(entries, x)))
  {
    hide WellFormed, Covers, NonEmpty, Added, Recorded;
    EmptyTable();
    if entries != [] {
      var n := |entries| - 1;
      var e, es := entries[n], entries[..n];
      assert entries == es + [e];
      assert CleanEntries(es);
      AddAllExact(es);
      var t := AddAll(NewTable(), es);
      SnocAvailable(es, e);
      if e.available && !t.panicked && e.len > 0 {
        var s := Recorded(entries[n]);
        SnocDisjoint(es, e);
        RecordedRange(t, e);
        PieceAdded(t, s.addr, s.len);
        FullTable(t.slots);
        TableSize(t);
      } else {
        AddedNothing(t, e);
      }
    }
  }

  /** Adding an entry is adding its recorded range. */
  lemma RecordedRange(t: Table, e: Entry)
    requires e.available && e.len > 0 && Recorded(e).len > 0
    ensures Recorded(e).addr % PAGE == 0 && Recorded(e).len % PAGE == 0
    ensures Added(t, e.addr, e.len) == Added(t, Recorded(e).addr, Recorded(e).len)
    ensures forall x :: InEntry(e, x) <==> Recorded(e).addr <= x < Recorded(e).addr + Recorded(e).len
  {
    hide Added;
    RecordedAdded(t, e);
  }

  lemma RecordedAdded(t: Table, e: Entry)
    requires e.len > 0 && Recorded(e).len > 0
    ensures Added(t, e.addr, e.len) == Added(t, Recorded(e).addr, Recorded(e).len)
  {
    hide PgUp, PgDown, Added;
    var r := Recorded(e);
    RoundedTwice(e.addr % U32, e.len % U32);
    AddedSame(t, e.addr, e.len, r.addr, r.len);
  }

  lemma AddedSame(t: Table, addr: nat, len: nat, addr': nat, len': nat)
    requires len > 0 && len' > 0 && PgUp(addr % U32) == PgUp(addr' % U32) && PgDown(len % U32) == PgDown(len' % U32)
    ensures Added(t, addr, len) == Added(t, addr', len')
  {
    hide PgUp, PgDown, FirstEmpty;
  }

  lemma RoundedTwice(x: u32, y: u32)
    ensures PgUp(PgUp(x) % U32) == PgUp(x) && PgDown(PgDown(y) % U32) == PgDown(y)
  {
  }

  /** A page-aligned entry below 2^32 is recorded as it is. */
  lemma RecordedAsIs(e: Entry)
    requires e.addr % PAGE == 0 && e.len % PAGE == 0 && e.addr + e.len < U32
    ensures Recorded(e) == Slot(e.addr, e.len, true)
  {
  }

  /** Below 2^32 the recorded range starts at the next page and has the whole pages of the length. */
  lemma RecordedExact(e: Entry)
    requires e.addr <= U32 - PAGE && e.len < U32
    ensures var r := Recorded(e);
      && r.addr % PAGE == 0 && e.addr <= r.addr < e.addr + PAGE
      && r.len % PAGE == 0 && r.len <= e.len < r.len + PAGE && r.available
  {
  }

  lemma TableSize(t: Table)
    requires WellFormed(t)
    ensures |t.slots| == SLOTS
  {
  }

  lemma AddedAfterPanic(t: Table, addr: int, len: int)
    ensures t.panicked && addr >= 0 && len >= 0 ==> Added(t, addr, len) == t
  {
  }

  lemma AddedNothing(t: Table, e: Entry)
    ensures t.panicked || e.len == 0 ==> Added(t, e.addr, e.len) == t
  {
  }

  lemma SnocAvailable(es: seq<Entry>, e: Entry)
    ensures forall x :: AvailableAt(es + [e], x) <==> AvailableAt(es, x) || InEntry(e, x)
  {
    var r := es + [e];
    forall x
      ensures AvailableAt(r, x) <==> AvailableAt(es, x) || InEntry(e, x)
    {
      if AvailableAt(es, x) {
        var i :| 0 <= i < |es| && InEntry(es[i], x);
        assert InEntry(r[i], x);
      }
      if InEntry(e, x) {
        assert InEntry(r[|es|], x);
      }
    }
  }

  lemma SnocDisjoint(es: seq<Entry>, e: Entry)
    requires CleanEntries(es + [e])
    ensures forall x :: InEntry(e, x) ==> !AvailableAt(es, x)
  {
    var r := es + [e];
    forall i, x | 0 <= i < |es|
      ensures InEntry(es[i], x) ==> !InEntry(e, x)
    {
      assert InEntry(r[i], x) == InEntry(es[i], x) && InEntry(r[|es|], x) == InEntry(e, x);
    }
  }

  /** A cut that would need a slot more than there are. */
  ghost predicate Overflows(t: Table, start: u32, end: u32) {
    StrictIn(t.slots, PgDown(start), PgUp(end)) && NonEmpty(t.slots) == SLOTS
  }

  /**
    After boot exactly the available addresses outside the three cut ranges remain. The table overflows exactly
    when there are more available regions than slots, or all slots are taken and the kernel image, or later the
    initial ramdisk, lies strictly inside one; cutting the first page never does. At most 29 regions are always enough.
   */
  lemma BootExact(entries: seq<Entry>, kstart: u32, kend: u32, mstart: u32, mend: u32)
    requires CleanEntries(entries)
    ensures var r := Boot(entries, kstart, kend, mstart, mend);
      && (r.panicked <==>
            var t := AddAll(NewTable(), entries);
            var t2 := Cut(Cut(t, kstart, kend), 0, 0x1000);
            AvailableCount(entries) > 32 || Overflows(t, kstart, kend) || (!t2.panicked && Overflows(t2, mstart, mend)))
      && (AvailableCount(entries) <= 29 ==> !r.panicked)
      && (!r.panicked ==>
        && WellFormed(r)
        && forall x :: Covers(r.slots, x) <==>
            AvailableAt(entries, x) && !InCut(x, PgDown(kstart), PgUp(kend)) && !InCut(x, 0, 0x1000)
            && !InCut(x, PgDown(mstart), PgUp(mend)))
  {
    hide WellFormed, Covers, NonEmpty, AddAll, Cut, InCut;
    AddAllExact(entries);
    var t := AddAll(NewTable(), entries);
    PanicStays(t, kstart, kend);
    if !t.panicked {
      CutExact(t, kstart, kend);
    }
    var t1 := Cut(t, kstart, kend);
    PanicStays(t1, 0, 0x1000);
    if !t1.panicked {
      CutExact(t1, 0, 0x1000);
      assert PgDown(0) == 0 && PgUp(0x1000) == 0x1000;
      NeverStrict(t1.slots, 0x1000);
    }
    var t2 := Cut(t1, 0, 0x1000);
    PanicStays(t2, mstart, mend);
    if !t2.panicked {
      CutExact(t2, mstart, mend);
    }
  }

  /**
    The kernel's end used by boot is that of its unpaged part, so whatever of the image lies behind stays in the
    map and will be handed out.
   */
  lemma RestOfImageExample()
    ensures var t := Boot([Entry(0x10_0000, 0x7F0_0000, true)], 0x40_0000, 0x40_C000, 0x50_0000, 0x60_0000);
      !t.panicked && Covers(t.slots, 0x40_C000)
  {
    hide Boot, Covers, WellFormed, AddAll, Cut, Overflows;
    var e := Entry(0x10_0000, 0x7F0_0000, true);
    assert Recorded(e) == Slot(0x10_0000, 0x7F0_0000, true);
    assert [e][..0] == [];
    assert AvailableCount([]) == 0;
    assert AvailableCount([e]) == AvailableCount([e][..0]) + 1;
    BootExact([e], 0x40_0000, 0x40_C000, 0x50_0000, 0x60_0000);
    assert InEntry([e][0], 0x40_C000);
    assert AvailableAt([e], 0x40_C000);
    assert PgUp(0x40_C000) == 0x40_C000 && PgDown(0x50_0000) == 0x50_0000;
  }

  // ---------- the high-water mark

  /** The mark `h` is the highest end of a recorded range, or zero if there is none. */
  ghost predicate HighestEnd(entries: seq<Entry>, h: nat) {
    && (forall i :: 0 <= i < |entries| && entries[i].available && entries[i].len > 0 ==> Last(Recorded(entries[i])) <= h)
    && (h == 0 || exists i :: 0 <= i < |entries| && entries[i].available && entries[i].len > 0 && Last(Recorded(entries[i])) == h)
  }

  ghost predicate UnderHigh(t: Table) {
    forall i :: 0 <= i < |t.slots| && t.slots[i].len > 0 ==> Last(t.slots[i]) <= t.high
  }

  lemma AddedHigh(t: Table, addr: nat, len: nat)
    requires UnderHigh(t) && addr % PAGE == 0 && len % PAGE == 0 && len > 0 && addr + len < U32 && !Added(t, addr, len).panicked
    ensures UnderHigh(Added(t, addr, len)) && Added(t, addr, len).high == Max(t.high, addr + len)
  {
    assert PgUp(addr) == addr && PgDown(len) == len;
  }

  lemma SnocHighest(es: seq<Entry>, e: Entry, h: nat)
    requires HighestEnd(es, h)
    ensures HighestEnd(es + [e], if e.available && e.len > 0 then Max(h, Last(Recorded(e))) else h)
  {
    hide Recorded;
    var r := es + [e];
    assert r[|es|] == e;
    if h > 0 {
      var i :| 0 <= i < |es| && es[i].available && es[i].len > 0 && Last(Recorded(es[i])) == h;
      assert r[i] == es[i];
    }
  }

  lemma {:induction false} AddAllHigh(entries: seq<Entry>)
    requires CleanEntries(entries) && !AddAll(NewTable(), entries).panicked
    ensures var t := AddAll(NewTable(), entries); UnderHigh(t) && HighestEnd(entries, t.high)
  {
    hide Added, Recorded, UnderHigh, HighestEnd;
    if entries == [] {
      NewHigh();
    } else {
      var n := |entries| - 1;
      var e, es := entries[n], entries[..n];
      assert entries == es + [e];
      assert CleanEntries(es);
      var t := AddAll(NewTable(), es);
      AddedAfterPanic(t, e.addr, e.len);
      AddAllHigh(es);
      SnocHighest(es, e, t.high);
      if e.available && e.len > 0 {
        assert Recorded(entries[n]).len > 0 && Last(Recorded(entries[n])) < U32;
        RecordedRange(t, e);
        AddedHigh(t, Recorded(e).addr, Recorded(e).len);
      } else {
        AddedNothing(t, e);
      }
    }
  }

  lemma NewHigh()
    ensures UnderHigh(NewTable()) && HighestEnd([], NewTable().high)
  {
  }

  lemma EmptiedHigh(t: Table, m: nat, empty: Slot)
    requires UnderHigh(t) && m < |t.slots| && empty.len == 0
    ensures UnderHigh(t.(slots := t.slots[m := empty]))
  {
  }

  lemma SlotCutHigh(t: Table, m: nat, lo: nat, hi: nat)
    requires WellFormed(t) && UnderHigh(t) && !t.panicked && m < SLOTS && lo % PAGE == 0 && hi % PAGE == 0
    ensures var r := SlotCut(t, m, lo, hi); r.high == t.high && (!r.panicked ==> UnderHigh(r))
  {
    hide Added, UnderHigh, SlotCut, DisjointSlots;
    SlotCutIs(t, m, lo, hi);
    var e := t.slots[m];
    if Overlaps(e, lo, hi) {
      SlotEnd(t, m);
      var empty := Slot(0, 0, e.available);
      EmptiedHigh(t, m, empty);
      var t1 := t.(slots := t.slots[m := empty]);
      var t2 := if e.addr < lo then Added(t1, e.addr, lo - e.addr) else t1;
      if e.addr < lo {
        PieceHigh(t1, e.addr, lo - e.addr);
      }
      if hi < Last(e) {
        PieceHigh(t2, hi, Last(e) - hi);
      }
    }
  }

  lemma SlotEnd(t: Table, m: nat)
    requires WellFormed(t) && UnderHigh(t) && m < SLOTS
    ensures PageSlot(t.slots[m]) && (t.slots[m].len > 0 ==> Last(t.slots[m]) <= t.high)
  {
    hide DisjointSlots;
  }

  /** A piece that ends no higher leaves the mark. */
  lemma PieceHigh(t: Table, addr: nat, len: nat)
    requires !t.panicked ==> UnderHigh(t)
    requires addr % PAGE == 0 && len % PAGE == 0 && len > 0 && addr + len < U32 && addr + len <= t.high
    ensures var r := Added(t, addr, len); r.high == t.high && (!r.panicked ==> UnderHigh(r))
  {
    hide UnderHigh;
    if !Added(t, addr, len).panicked {
      AddedHigh(t, addr, len);
    }
  }

  lemma {:induction false} CutHigh(t: Table, m: nat, lo: nat, hi: nat)
    requires WellFormed(t) && UnderHigh(t) && !t.panicked && lo % PAGE == 0 && hi % PAGE == 0
    ensures var r := CutFrom(t, m, lo, hi); r.high == t.high && (!r.panicked ==> UnderHigh(r))
    decreases SLOTS - m
  {
    hide UnderHigh, SlotCut, DisjointSlots, Covers, NonEmpty;
    if m < t.n {
      var r := SlotCut(t, m, lo, hi);
      SlotCutHigh(t, m, lo, hi);
      SlotCutExact(t, m, lo, hi);
      if !r.panicked {
        CutHigh(r, m + 1, lo, hi);
      } else {
        assert CutFrom(r, m + 1, lo, hi) == r;
      }
    }
  }

  /** Cuts leave the mark where it was: at the highest end recorded, be that part of memory cut out or not. */
  lemma BootHigh(entries: seq<Entry>, kstart: u32, kend: u32, mstart: u32, mend: u32)
    requires CleanEntries(entries) && !Boot(entries, kstart, kend, mstart, mend).panicked
    ensures HighestEnd(entries, Boot(entries, kstart, kend, mstart, mend).high)
  {
    hide WellFormed, AddAll, Cut, HighestEnd, UnderHigh, Covers, NonEmpty;
    AddAllExact(entries);
    var t := AddAll(NewTable(), entries);
    PanicStays(t, kstart, kend);
    PanicStays(Cut(t, kstart, kend), 0, 0x1000);
    PanicStays(Cut(Cut(t, kstart, kend), 0, 0x1000), mstart, mend);
    AddAllHigh(entries);
    CutKeepsHigh(t, kstart, kend);
    CutKeepsHigh(Cut(t, kstart, kend), 0, 0x1000);
    CutKeepsHigh(Cut(Cut(t, kstart, kend), 0, 0x1000), mstart, mend);
  }

  lemma CutKeepsHigh(t: Table, start: u32, end: u32)
    requires WellFormed(t) && UnderHigh(t) && !t.panicked
    ensures var r := Cut(t, start, end); r.high == t.high && (!r.panicked ==> UnderHigh(r) && WellFormed(r))
  {
    hide WellFormed, UnderHigh, Covers, NonEmpty;
    CutHigh(t, 0, PgDown(start), PgUp(end));
    CutExact(t, start, end);
  }

  lemma NeverStrict(slots: seq<Slot>, hi: nat)
    ensures !StrictIn(slots, 0, hi)
  {
  }

  lemma PanicStays(t: Table, start: u32, end: u32)
    ensures t.panicked ==> Cut(t, start, end) == t
  {
  }

  /**
    Rounding the address up and the length down separately: the recorded range stays inside the given one
    exactly when it is empty, or the address does not wrap and moves by no more than the length loses.
   */
  lemma AddedInside(addr: nat, len: nat)
    ensures var a, l := PgUp(addr % U32), PgDown(len % U32);
      (forall x :: InSlot(Slot(a, l, true), x) ==> InSlot(Slot(addr, len, true), x)) <==>
      (l == 0 || (addr <= U32 - PAGE && a - addr <= len - l))
  {
    var a: int, l: int := PgUp(addr % U32), PgDown(len % U32);
    if l > 0 {
      var last := a + l - 1;
      assert InSlot(Slot(a, l, true), a) && InSlot(Slot(a, l, true), last);
    }
  }

  /** A range that starts and ends in the middle of a page is recorded beyond its end. */
  lemma AddedBeyondExample()
    ensures var e := Slot(PgUp(0x800), PgDown(0x1000), true);
      e == Slot(0x1000, 0x1000, true) && InSlot(e, 0x1FFF) && !InSlot(Slot(0x800, 0x1000, true), 0x1FFF)
  {
  }

  // ---------- the table in memory

  class KernelInfo {
    const memmap: array<Slot>
    var mmap_n: nat
    var mem_high_phys: nat
    var panicked: bool

    ghost predicate Valid()
      reads this
    {
      memmap.Length == SLOTS && mmap_n <= SLOTS
    }

    ghost function Abstract(): Table
      reads this, memmap
    {
      Table(memmap[..], mmap_n, mem_high_phys, panicked)
    }

    constructor ()
      ensures Valid() && fresh(memmap) && Abstract() == NewTable()
    {
      memmap := new Slot[SLOTS](i => Slot(0, 0, false));
      mmap_n, mem_high_phys, panicked := 0, 0, false;
      new;
      assert memmap[..] == NewTable().slots;
    }

    method AddMemmap(addr: nat, len: nat)
      requires Valid() && !panicked
      modifies this, memmap
      ensures Valid() && Abstract() == Added(old(Abstract()), addr, len)
    {
      if len == 0 {
        return;
      }
      var a, l := PgUp(addr % U32), PgDown(len % U32);
      var m := 0;
      while m < SLOTS && memmap[m].len != 0
        invariant 0 <= m <= SLOTS
        invariant forall i :: 0 <= i < m ==> memmap[i].len != 0
      {
        m := m + 1;
      }
      FirstEmptyIs(memmap[..]);
      assert m == FirstEmpty(memmap[..]);
      if m == SLOTS {
        panicked := true;
        return;
      }
      memmap[m] := Slot(a, l, true);
      if m >= mmap_n {
        mmap_n := m + 1;
      }
      var highmark := (a + l) % U32;
      if highmark > mem_high_phys {
        mem_high_phys := highmark;
      }
    }

    method CutMemmap(start: u32, end: u32)
      requires Valid() && !panicked
      modifies this, memmap
      ensures Valid() && Abstract() == Cut(old(Abstract()), start, end)
    {
      hide SlotCut, PgUp, PgDown;
      var lo, hi := PgDown(start), PgUp(end);
      var m := 0;
      while m < mmap_n && !panicked
        invariant Valid() && 0 <= m <= SLOTS
        invariant CutFrom(Abstract(), m, lo, hi) == Cut(old(Abstract()), start, end)
        decreases SLOTS - m
      {
        CutSlot(m, lo, hi);
        m := m + 1;
      }
    }

    /** The loop body of `cut_memmap`. */
    method CutSlot(m: nat, lo: u32, hi: u32)
      requires Valid() && !panicked && m < SLOTS
      modifies this, memmap
      ensures Valid() && Abstract() == SlotCut(old(Abstract()), m, lo, hi)
    {
      hide Added;
      ghost var t := Abstract();
      var first, last := memmap[m].addr % U32, (memmap[m].addr + memmap[m].len) % U32;
      var from, to := lo, hi;
      if from < first {
        from := first;
      }
      if to > last {
        to := last;
      }
      if from < to {
        memmap[m] := Slot(0, 0, memmap[m].available);
        assert memmap[..] == t.slots[m := Slot(0, 0, t.slots[m].available)];
        if from > first {
          AddMemmap(first, from - first);
        }
        AddedAfterPanic(Abstract(), to, last - to);
        if to < last && !panicked {
          AddMemmap(to, last - to);
        }
      }
    }

    /** The memory map part of `init_trunix`. */
    method InitTrunix(entries: seq<Entry>, kstart: u32, kend: u32, mstart: u32, mend: u32)
      requires Valid() && Abstract() == NewTable()
      modifies this, memmap
      ensures Valid() && Abstract() == Boot(entries, kstart, kend, mstart, mend)
    {
      hide Added, Cut, PgUp, PgDown;
      var i := 0;
      while i < |entries| && !panicked
        invariant 0 <= i <= |entries| && Valid() && Abstract() == AddAll(NewTable(), entries[..i])
      {
        assert entries[..i + 1][..i] == entries[..i];
        if entries[i].available {
          AddMemmap(entries[i].addr, entries[i].len);
        }
        i := i + 1;
      }
      StillPanicked(NewTable(), entries, i);
      assert entries[..|entries|] == entries;
      PanicStays(Abstract(), kstart, kend);
      if !panicked {
        CutMemmap(kstart, kend);
      }
      PanicStays(Abstract(), 0, 0x1000);
      if !panicked {
        CutMemmap(0x0000, 0x1000);
      }
      PanicStays(Abstract(), mstart, mend);
      if !panicked {
        CutMemmap(mstart, mend);
      }
    }
  }

  lemma {:induction false} StillPanicked(t: Table, entries: seq<Entry>, i: nat)
    requires i <= |entries| && (i == |entries| || AddAll(t, entries[..i]).panicked)
    ensures AddAll(t, entries) == AddAll(t, entries[..i])
  {
    if i < |entries| {
      assert entries[..i] == entries[..|entries| - 1][..i];
      StillPanicked(t, entries[..|entries| - 1], i);
    } else {
      assert entries[..i] == entries;
    }
  }
}
