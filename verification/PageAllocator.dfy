/**
  The page allocator of kernel/mem.c: a list of free blocks, each block headed by its own size.
  The methods work on the intrusive list; they are proved equal to functions on the sequence of
  free blocks, and the conservation and best-fit results are about those functions.
 */
module PageAllocator {
  import opened Words
  import opened IntrusiveLists
  import opened Blocks

  // ---------- free lists as sequences of blocks

  /** Page numbers of a block. */
  ghost function Span(b: Block): set<int> {
    Interval(b.addr / PAGE, (b.addr + b.len) / PAGE)
  }

  /** Page numbers of all blocks of `bs`. */
  ghost function Pages(bs: seq<Block>): set<int> {
    set i, q | 0 <= i < |bs| && q in Span(bs[i]) :: q
  }

  /** Non-empty page-aligned block in the kernel half of the address space. */
  ghost predicate WellFormed(b: Block) {
    b.addr % PAGE == 0 && b.len % PAGE == 0 && b.len > 0 && KERNEL_OFFSET <= b.addr && b.addr + b.len <= U32
  }

  ghost predicate AllWellFormed(bs: seq<Block>) {
    forall i :: 0 <= i < |bs| ==> WellFormed(bs[i])
  }

  ghost predicate Disjoint(bs: seq<Block>) {
    forall i, j :: 0 <= i < j < |bs| ==> Span(bs[i]) !! Span(bs[j])
  }

  ghost predicate Sorted(bs: seq<Block>) {
    forall i, j :: 0 <= i < j < |bs| ==> bs[i].len <= bs[j].len
  }

  /** `free_pages`: in front of the first block that is at least as large, else last; nothing when the list is empty. */
  ghost function Freed(bs: seq<Block>, b: Block): seq<Block> {
    if bs == [] then [] else Inserted(bs, FirstFit(bs, b.len), b)
  }

  /** The part of block `k` beyond the first `up` bytes. */
  ghost function Remainder(b: Block, up: nat): Block
    requires up <= b.len
  {
    Block(b.addr + up, b.len - up)
  }

  /** `alloc_pages`: the address handed out, NULL if no block is large enough. */
  ghost function AllocatedAt(bs: seq<Block>, sz: u32): Ptr {
    var k := FirstFit(bs, sz);
    if k == |bs| then NULL else bs[k].addr
  }

  /** `alloc_pages`: the free list left behind. */
  ghost function AllocatedRest(bs: seq<Block>, sz: u32): seq<Block> {
    var k := FirstFit(bs, sz);
    if k == |bs| then bs
    else if bs[k].len > PgUp(sz) then Freed(Removed(bs, k), Remainder(bs[k], PgUp(sz)))
    else Removed(bs, k)
  }

  // ---------- what insertion and removal do to the covered pages

  lemma SpanOfPart(b: Block, up: nat)
    requires WellFormed(b) && up <= b.len && up % PAGE == 0
    ensures Span(Block(b.addr, up)) !! Span(Remainder(b, up))
    ensures Span(Block(b.addr, up)) + Span(Remainder(b, up)) == Span(b)
    ensures up < b.len ==> WellFormed(Remainder(b, up))
    ensures (b.addr / PAGE in Span(Block(b.addr, up))) == (up > 0)
    ensures b.addr / PAGE in Span(b)
  {
    var a, u, l := b.addr / PAGE, up / PAGE, b.len / PAGE;
    assert b.addr == PAGE * a && up == PAGE * u && b.len == PAGE * l;
    assert (b.addr + up) / PAGE == a + u && (b.addr + b.len) / PAGE == a + l;
  }

  lemma PagesInserted(bs: seq<Block>, k: nat, b: Block)
    requires k <= |bs|
    ensures Pages(Inserted(bs, k, b)) == Pages(bs) + Span(b)
  {
    var r := Inserted(bs, k, b);
    forall q
      ensures q in Pages(r) <==> q in Pages(bs) || q in Span(b)
    {
      if q in Pages(r) {
        var i :| 0 <= i < |r| && q in Span(r[i]);
        assert i == k || r[i] == bs[if i < k then i else i - 1];
      }
      if q in Pages(bs) {
        var i :| 0 <= i < |bs| && q in Span(bs[i]);
        assert r[if i < k then i else i + 1] == bs[i];
      }
      assert r[k] == b;
    }
  }

  lemma DisjointInserted(bs: seq<Block>, k: nat, b: Block)
    requires k <= |bs| && Disjoint(bs) && Pages(bs) !! Span(b)
    ensures Disjoint(Inserted(bs, k, b))
  {
    var r := Inserted(bs, k, b);
    forall i, j | 0 <= i < j < |r|
      ensures Span(r[i]) !! Span(r[j])
    {
      var a, c := if i < k then i else i - 1, if j < k then j else j - 1;
      if i != k { assert r[i] == bs[a] && Span(bs[a]) <= Pages(bs); }
      if j != k { assert r[j] == bs[c] && Span(bs[c]) <= Pages(bs); }
    }
  }

  lemma WellFormedInserted(bs: seq<Block>, k: nat, b: Block)
    requires k <= |bs| && AllWellFormed(bs) && WellFormed(b)
    ensures AllWellFormed(Inserted(bs, k, b))
  {
    var r := Inserted(bs, k, b);
    forall i | 0 <= i < |r|
      ensures WellFormed(r[i])
    {
      assert i == k || r[i] == bs[if i < k then i else i - 1];
    }
  }

  lemma BlocksRemoved(bs: seq<Block>, k: nat)
    requires k < |bs| && Disjoint(bs)
    ensures Disjoint(Removed(bs, k))
    ensures AllWellFormed(bs) ==> AllWellFormed(Removed(bs, k)) && WellFormed(bs[k])
    ensures Pages(Removed(bs, k)) == Pages(bs) - Span(bs[k])
    ensures Span(bs[k]) <= Pages(bs)
  {
    var r := Removed(bs, k);
    forall i | 0 <= i < |r|
      ensures r[i] == bs[if i < k then i else i + 1]
    {
    }
    forall q
      ensures q in Pages(r) <==> q in Pages(bs) && q !in Span(bs[k])
    {
      if q in Pages(bs) && q !in Span(bs[k]) {
        var i :| 0 <= i < |bs| && q in Span(bs[i]);
        assert r[if i < k then i else i - 1] == bs[i];
      }
      if q in Pages(r) {
        var i :| 0 <= i < |r| && q in Span(r[i]);
        var a := if i < k then i else i + 1;
        assert Span(bs[a]) !! Span(bs[k]);
      }
    }
  }

  /** Freeing keeps every page of the block exactly when the list was not empty. */
  lemma FreedPages(bs: seq<Block>, b: Block)
    requires AllWellFormed(bs) && Disjoint(bs) && WellFormed(b) && Pages(bs) !! Span(b)
    ensures AllWellFormed(Freed(bs, b)) && Disjoint(Freed(bs, b))
    ensures Pages(Freed(bs, b)) == Pages(bs) + Span(b) <==> bs != []
    ensures bs == [] ==> Pages(Freed(bs, b)) == {}
  {
    if bs == [] {
      SpanOfPart(b, b.len);
    } else {
      var k := FirstFit(bs, b.len);
      PagesInserted(bs, k, b);
      DisjointInserted(bs, k, b);
      WellFormedInserted(bs, k, b);
    }
  }

  /** A freed block goes right before the first block that is not smaller, so before all blocks of its own size. */
  lemma FreedPlace(bs: seq<Block>, b: Block, k: nat)
    requires k <= |bs| && bs != [] && (forall i :: 0 <= i < k ==> bs[i].len < b.len) && (k < |bs| ==> bs[k].len >= b.len)
    ensures Freed(bs, b) == bs[..k] + [b] + bs[k..]
  {
    FirstFitFound(bs, b.len, k);
  }

  // ---------- alloc_pages

  ghost predicate AllocDrops(bs: seq<Block>, sz: u32) {
    |bs| == 1 && bs[0].len >= sz && bs[0].len > PgUp(sz)
  }

  lemma PgUpFits(len: nat, sz: u32)
    requires len % PAGE == 0 && len >= sz && len <= U32 - PAGE
    ensures sz <= PgUp(sz) <= len
  {
  }

  /** The pages of the remainder that an allocation from the only block fails to put back. */
  ghost function LostPages(bs: seq<Block>, sz: u32): set<int> {
    if AllocDrops(bs, sz) then Span(Remainder(bs[0], PgUp(sz))) else {}
  }

  /** Every page of the old list is in the new list, in the block handed out, or in the dropped remainder. */
  lemma AllocConserves(bs: seq<Block>, sz: u32)
    requires AllWellFormed(bs) && Disjoint(bs)
    ensures AllWellFormed(AllocatedRest(bs, sz)) && Disjoint(AllocatedRest(bs, sz))
    ensures AllocatedAt(bs, sz) == NULL <==> forall i :: 0 <= i < |bs| ==> bs[i].len < sz
    ensures AllocatedAt(bs, sz) == NULL ==> AllocatedRest(bs, sz) == bs
    ensures AllocatedAt(bs, sz) != NULL ==>
      var got := Block(AllocatedAt(bs, sz), PgUp(sz));
      var lost := LostPages(bs, sz);
      && sz <= PgUp(sz) && got.addr % PAGE == 0 && KERNEL_OFFSET <= got.addr && got.addr + got.len <= U32
      && Pages(AllocatedRest(bs, sz)) + Span(got) + lost == Pages(bs)
      && Pages(AllocatedRest(bs, sz)) !! Span(got)
      && lost !! (Span(got) + Pages(AllocatedRest(bs, sz)))
  {
    var k := FirstFit(bs, sz);
    FirstFitIsFirst(bs, sz);
    if k < |bs| {
      var p, up := bs[k], PgUp(sz);
      PgUpFits(p.len, sz);
      BlocksRemoved(bs, k);
      SpanOfPart(p, up);
      var rest := Removed(bs, k);
      if p.len > up {
        assert Pages(rest) !! Span(Remainder(p, up));
        FreedPages(rest, Remainder(p, up));
        if rest == [] {
          assert Pages(rest) == {};
        }
      } else {
        assert Span(Remainder(p, up)) == {};
      }
    }
  }

  /** One page out of a single two-page block: the other page is on no list afterwards. */
  lemma DropExample()
    ensures var bs := [Block(0x8010_0000, 0x2000)];
      AllocatedAt(bs, 0x1000) == 0x8010_0000 && AllocatedRest(bs, 0x1000) == [] && AllocDrops(bs, 0x1000)
  {
    assert FirstFit([Block(0x8010_0000, 0x2000)], 0x1000) == 0;
  }

  /** The address handed out is still on the free list exactly for a zero-byte request with two or more blocks. */
  lemma AllocatedStillFree(bs: seq<Block>, sz: u32)
    requires AllWellFormed(bs) && Disjoint(bs) && AllocatedAt(bs, sz) != NULL
    ensures AllocatedAt(bs, sz) / PAGE in Pages(AllocatedRest(bs, sz)) <==> sz == 0 && |bs| >= 2
  {
    hide Disjoint, AllWellFormed, Pages, Freed;
    if sz > 0 {
      AllocConserves(bs, sz);
      var k := FirstFit(bs, sz);
      BlocksRemoved(bs, k);
      SpanOfPart(bs[k], bs[k].len);
      var got := Block(bs[k].addr, PgUp(sz));
      assert bs[k].addr / PAGE in Span(got);
    } else {
      FirstFitFound(bs, 0, 0);
      var p, rest := bs[0], Removed(bs, 0);
      assert Remainder(p, 0) == p;
      BlocksRemoved(bs, 0);
      SpanOfPart(p, p.len);
      FreedPages(rest, p);
      assert AllocatedRest(bs, 0) == Freed(rest, p);
    }
  }

  // ---------- size order

  lemma FreedKeepsOrder(bs: seq<Block>, b: Block)
    requires Sorted(bs)
    ensures Sorted(Freed(bs, b))
  {
    if bs != [] {
      var k, r := FirstFit(bs, b.len), Freed(bs, b);
      FirstFitIsFirst(bs, b.len);
      forall i, j | 0 <= i < j < |r|
        ensures r[i].len <= r[j].len
      {
        assert i == k || r[i] == bs[if i < k then i else i - 1];
        assert j == k || r[j] == bs[if j < k then j else j - 1];
      }
    }
  }

  lemma RemovedKeepsOrder(bs: seq<Block>, k: nat)
    requires k < |bs| && Sorted(bs)
    ensures Sorted(Removed(bs, k))
  {
    var r := Removed(bs, k);
    forall i, j | 0 <= i < j < |r|
      ensures r[i].len <= r[j].len
    {
      assert r[i] == bs[if i < k then i else i + 1];
      assert r[j] == bs[if j < k then j else j + 1];
    }
  }

  /** On a list in size order the block taken is a smallest sufficient one, and the order is kept. */
  lemma BestFit(bs: seq<Block>, sz: u32)
    requires Sorted(bs) && AllWellFormed(bs)
    ensures Sorted(AllocatedRest(bs, sz))
    ensures forall i :: 0 <= i < |bs| && bs[i].len >= sz ==>
      exists k :: 0 <= k < |bs| && bs[k].addr == AllocatedAt(bs, sz) && sz <= bs[k].len <= bs[i].len
  {
    var k := FirstFit(bs, sz);
    FirstFitIsFirst(bs, sz);
    if k < |bs| {
      RemovedKeepsOrder(bs, k);
      if bs[k].len > PgUp(sz) {
        FreedKeepsOrder(Removed(bs, k), Remainder(bs[k], PgUp(sz)));
      }
    }
  }

  // ---------- runs of allocations and frees

  /** `live` holds the outstanding blocks, `lost` the pages in neither list. */
  datatype Memory = Memory(free: seq<Block>, live: seq<Block>, lost: set<int>)

  datatype Op = Alloc(sz: u32) | Free(i: nat)

  ghost predicate Partitioned(m: Memory, all: set<int>) {
    && AllWellFormed(m.free) && AllWellFormed(m.live)
    && Disjoint(m.free) && Disjoint(m.live)
    && Pages(m.free) !! Pages(m.live) && m.lost !! (Pages(m.free) + Pages(m.live))
    && Pages(m.free) + Pages(m.live) + m.lost == all
  }

  /** Only outstanding blocks are freed. */
  ghost predicate Legal(m: Memory, op: Op) {
    op.Free? ==> op.i < |m.live|
  }

  /** The guard of the branch that loses pages: an insertion meets an empty list. */
  ghost predicate Drops(m: Memory, op: Op) {
    match op
    case Alloc(sz) => AllocDrops(m.free, sz)
    case Free(i) => m.free == []
  }

  ghost function Step(m: Memory, op: Op): Memory
    requires AllWellFormed(m.free) && Legal(m, op)
  {
    match op
    case Alloc(sz) =>
      var addr := AllocatedAt(m.free, sz);
      Memory(AllocatedRest(m.free, sz),
             if addr != NULL && sz > 0 then m.live + [Block(addr, PgUp(sz))] else m.live,
             m.lost + LostPages(m.free, sz))
    case Free(i) =>
      Memory(Freed(m.free, m.live[i]), Removed(m.live, i),
             if m.free == [] then m.lost + Span(m.live[i]) else m.lost)
  }

  ghost predicate LegalRun(m: Memory, ops: seq<Op>)
    decreases |ops|
  {
    ops == [] || (AllWellFormed(m.free) && Legal(m, ops[0]) && LegalRun(Step(m, ops[0]), ops[1..]))
  }

  ghost function Run(m: Memory, ops: seq<Op>): Memory
    requires LegalRun(m, ops)
    decreases |ops|
  {
    if ops == [] then m else Run(Step(m, ops[0]), ops[1..])
  }

  ghost predicate NeverDrops(m: Memory, ops: seq<Op>)
    requires LegalRun(m, ops)
    decreases |ops|
  {
    ops == [] || (!Drops(m, ops[0]) && NeverDrops(Step(m, ops[0]), ops[1..]))
  }

  lemma StepConserves(m: Memory, op: Op, all: set<int>)
    requires Partitioned(m, all) && Legal(m, op)
    ensures Partitioned(Step(m, op), all)
    ensures m.lost <= Step(m, op).lost
    ensures Step(m, op).lost == m.lost <==> !Drops(m, op)
    ensures Sorted(m.free) ==> Sorted(Step(m, op).free)
  {
    hide Disjoint, AllWellFormed, Sorted, Pages;
    match op
    case Alloc(sz) =>
      AllocStepPartitions(m, sz, all);
      AllocStepLoses(m, sz, all);
      if Sorted(m.free) {
        BestFit(m.free, sz);
      }
    case Free(i) =>
      var b := m.live[i];
      BlocksRemoved(m.live, i);
      FreedPages(m.free, b);
      SpanOfPart(b, b.len);
      if Sorted(m.free) {
        FreedKeepsOrder(m.free, b);
      }
  }

  lemma LiveGrows(live: seq<Block>, got: Block)
    requires AllWellFormed(live) && Disjoint(live) && WellFormed(got) && Pages(live) !! Span(got)
    ensures AllWellFormed(live + [got]) && Disjoint(live + [got])
    ensures Pages(live + [got]) == Pages(live) + Span(got)
  {
    assert live + [got] == Inserted(live, |live|, got);
    PagesInserted(live, |live|, got);
    DisjointInserted(live, |live|, got);
    WellFormedInserted(live, |live|, got);
  }

  lemma Repartition(free: set<int>, live: set<int>, lost: set<int>, free': set<int>, got: set<int>, dropped: set<int>)
    requires free !! live && lost !! (free + live)
    requires free' + got + dropped == free && free' !! got && dropped !! (got + free')
    ensures free' !! (live + got) && (lost + dropped) !! (free' + (live + got))
    ensures free' + (live + got) + (lost + dropped) == free + live + lost
  {
  }

  lemma LostNotEmpty(bs: seq<Block>, sz: u32)
    requires AllWellFormed(bs) && AllocDrops(bs, sz)
    ensures LostPages(bs, sz) != {}
  {
    PgUpFits(bs[0].len, sz);
    SpanOfPart(bs[0], PgUp(sz));
    var d := Remainder(bs[0], PgUp(sz));
    SpanOfPart(d, d.len);
  }

  lemma AllocStepLoses(m: Memory, sz: u32, all: set<int>)
    requires Partitioned(m, all)
    ensures m.lost <= Step(m, Alloc(sz)).lost
    ensures Step(m, Alloc(sz)).lost == m.lost <==> !AllocDrops(m.free, sz)
  {
    if AllocDrops(m.free, sz) {
      AllocConserves(m.free, sz);
      FirstFitFound(m.free, sz, 0);
      LostNotEmpty(m.free, sz);
      var d := LostPages(m.free, sz);
      assert d <= Pages(m.free);
      assert d !! m.lost;
    }
  }

  lemma AllocStepPartitions(m: Memory, sz: u32, all: set<int>)
    requires Partitioned(m, all)
    ensures Partitioned(Step(m, Alloc(sz)), all)
  {
    AllocConserves(m.free, sz);
    var got := Block(AllocatedAt(m.free, sz), PgUp(sz));
    if got.addr != NULL {
      var free', m' := Pages(AllocatedRest(m.free, sz)), Step(m, Alloc(sz));
      var dropped := LostPages(m.free, sz);
      assert m'.lost == m.lost + dropped;
      Repartition(Pages(m.free), Pages(m.live), m.lost, free', Span(got), dropped);
      assert Pages(m'.live) == Pages(m.live) + Span(got) && AllWellFormed(m'.live) && Disjoint(m'.live) by {
        assert Span(got) <= Pages(m.free);
        if sz > 0 {
          LiveGrows(m.live, got);
        }
      }
    } else {
      FirstFitIsFirst(m.free, sz);
    }
  }

  /**
    Over every run of allocations and frees of outstanding blocks: free, outstanding and lost pages
    partition the initial memory; nothing is lost exactly when no insertion meets an empty list; and
    size order, once there, stays.
   */
  lemma {:induction false} RunConserves(m: Memory, ops: seq<Op>, all: set<int>)
    requires Partitioned(m, all) && LegalRun(m, ops)
    ensures Partitioned(Run(m, ops), all)
    ensures m.lost <= Run(m, ops).lost
    ensures Run(m, ops).lost == m.lost <==> NeverDrops(m, ops)
    ensures Sorted(m.free) ==> Sorted(Run(m, ops).free)
    decreases |ops|
  {
    if ops != [] {
      StepConserves(m, ops[0], all);
      RunConserves(Step(m, ops[0]), ops[1..], all);
    }
  }

  // ---------- init_mem

  /** Position of the node `init_mem` inserts after: the first larger block, else the last. */
  ghost function InitPosition(bs: seq<Block>, len: nat): (k: nat)
    requires bs != []
    ensures k < |bs|
  {
    if bs[0].len > len || |bs| == 1 then 0 else 1 + InitPosition(bs[1..], len)
  }

  ghost function InitInserted(bs: seq<Block>, b: Block): seq<Block> {
    if bs == [] then [b] else Inserted(bs, InitPosition(bs, b.len) + 1, b)
  }

  ghost function InitList(entries: seq<Block>): seq<Block> {
    if entries == [] then [] else InitInserted(InitList(entries[..|entries| - 1]), entries[|entries| - 1])
  }

  lemma {:induction false} InitPositionIs(bs: seq<Block>, len: nat)
    requires bs != []
    ensures var k := InitPosition(bs, len);
      (forall i :: 0 <= i < k ==> bs[i].len <= len) && (bs[k].len > len || k == |bs| - 1)
  {
    if bs[0].len <= len && |bs| > 1 {
      InitPositionIs(bs[1..], len);
    }
  }

  /** `init_mem` puts an entry right behind the first larger block, or last if there is none. */
  lemma InitPlace(bs: seq<Block>, b: Block, k: nat)
    requires k < |bs| && (forall i :: 0 <= i < k ==> bs[i].len <= b.len) && (bs[k].len > b.len || k == |bs| - 1)
    ensures InitInserted(bs, b) == bs[..k + 1] + [b] + bs[k + 1..]
  {
    InitPositionIs(bs, b.len);
  }

  lemma InitInsertedSorted(bs: seq<Block>, b: Block)
    ensures Sorted(InitInserted(bs, b)) <==> Sorted(bs) && forall i :: 0 <= i < |bs| ==> bs[i].len <= b.len
  {
    if bs != [] {
      InitPositionIs(bs, b.len);
      var k, r := InitPosition(bs, b.len), InitInserted(bs, b);
      forall i | 0 <= i < |bs|
        ensures bs[i] == r[if i <= k then i else i + 1]
      {
      }
      assert r[k + 1] == b && r[k] == bs[k];
      if Sorted(r) {
        forall i, j | 0 <= i < j < |bs|
          ensures bs[i].len <= bs[j].len
        {
          assert r[if i <= k then i else i + 1].len <= r[if j <= k then j else j + 1].len;
        }
        assert bs[k].len <= b.len;
      }
      if Sorted(bs) && forall i :: 0 <= i < |bs| ==> bs[i].len <= b.len {
        assert k == |bs| - 1;
        forall i, j | 0 <= i < j < |r|
          ensures r[i].len <= r[j].len
        {
          assert i <= k && r[i] == bs[i];
          assert j == k + 1 || r[j] == bs[j];
        }
      }
    }
  }

  lemma SortedSnoc(es: seq<Block>, e: Block)
    ensures Sorted(es + [e]) <==> Sorted(es) && forall i :: 0 <= i < |es| ==> es[i].len <= e.len
  {
    var r := es + [e];
    assert forall i :: 0 <= i < |es| ==> r[i] == es[i];
    assert r[|es|] == e;
  }

  ghost predicate NoLonger(bs: seq<Block>, n: nat) {
    forall i :: 0 <= i < |bs| ==> bs[i].len <= n
  }

  lemma InsertedNoLonger(bs: seq<Block>, k: nat, b: Block, n: nat)
    requires k <= |bs|
    ensures NoLonger(Inserted(bs, k, b), n) <==> NoLonger(bs, n) && b.len <= n
  {
    var r := Inserted(bs, k, b);
    assert r[k] == b;
    forall i | 0 <= i < |bs|
      ensures bs[i] == r[if i < k then i else i + 1]
    {
    }
    forall i | 0 <= i < |r|
      ensures i == k || r[i] == bs[if i < k then i else i - 1]
    {
    }
  }

  lemma {:induction false} InitListNoLonger(entries: seq<Block>, n: nat)
    ensures NoLonger(InitList(entries), n) <==> NoLonger(entries, n)
  {
    if entries != [] {
      var es, e := entries[..|entries| - 1], entries[|entries| - 1];
      InitListNoLonger(es, n);
      assert entries == Inserted(es, |es|, e);
      InsertedNoLonger(es, |es|, e, n);
      var bs := InitList(es);
      if bs != [] {
        InsertedNoLonger(bs, InitPosition(bs, e.len) + 1, e, n);
      }
    }
  }

  /** `init_mem` builds a list in size order exactly when the map entries come in ascending size. */
  lemma {:induction false} InitListSorted(entries: seq<Block>)
    ensures Sorted(InitList(entries)) <==> Sorted(entries)
  {
    if entries != [] {
      var es, e := entries[..|entries| - 1], entries[|entries| - 1];
      InitListSorted(es);
      InitListNoLonger(es, e.len);
      InitInsertedSorted(InitList(es), e);
      SortedSnoc(es, e);
      assert entries == es + [e];
    }
  }

  /** Two entries, the larger one first: the list keeps their order. */
  lemma InitOrderExample()
    ensures var es := [Block(0x8010_0000, 0x2000), Block(0x8020_0000, 0x1000)];
      !Sorted(InitList(es)) && InitList(es)[0].len > InitList(es)[1].len
  {
    var a, b := Block(0x8010_0000, 0x2000), Block(0x8020_0000, 0x1000);
    assert [a, b][..1] == [a] && [a][..0] == [];
    assert InitList([a]) == [a];
    assert InitList([a, b])[0].len > InitList([a, b])[1].len;
  }

  lemma InitInsertedPages(bs: seq<Block>, b: Block)
    requires AllWellFormed(bs) && Disjoint(bs) && WellFormed(b) && Pages(bs) !! Span(b)
    ensures AllWellFormed(InitInserted(bs, b)) && Disjoint(InitInserted(bs, b))
    ensures Pages(InitInserted(bs, b)) == Pages(bs) + Span(b)
  {
    var k := if bs == [] then 0 else InitPosition(bs, b.len) + 1;
    assert InitInserted(bs, b) == Inserted(bs, k, b);
    PagesInserted(bs, k, b);
    DisjointInserted(bs, k, b);
    WellFormedInserted(bs, k, b);
  }

  // ---------- the allocator on the intrusive list

  lemma NewBlockNotListed(s: seq<Ptr>, sz: map<Ptr, nat>, b: Block)
    requires AllWellFormed(BlocksOf(s, sz)) && WellFormed(b) && Pages(BlocksOf(s, sz)) !! Span(b)
    ensures b.addr !in s
  {
    forall i | 0 <= i < |s|
      ensures s[i] != b.addr
    {
      var c := BlocksOf(s, sz)[i];
      SpanOfPart(c, c.len);
      SpanOfPart(b, b.len);
    }
  }

  lemma SplitBlock(bs: seq<Block>, k: nat, sz: u32)
    requires AllWellFormed(bs) && Disjoint(bs) && k < |bs| && sz <= bs[k].len
    ensures AllWellFormed(Removed(bs, k)) && Disjoint(Removed(bs, k))
    ensures PgUp(sz) <= bs[k].len && bs[k].addr + bs[k].len <= U32
    ensures PgUp(sz) < bs[k].len ==>
      var r := Remainder(bs[k], PgUp(sz));
      WellFormed(r) && Pages(Removed(bs, k)) !! Span(r) && PgDown(r.addr) == r.addr && PgUp(r.len) == r.len
  {
    BlocksRemoved(bs, k);
    PgUpFits(bs[k].len, sz);
    SpanOfPart(bs[k], PgUp(sz));
  }

  class PageAllocator {
    const freelist: LinkedList
    var sz: map<Ptr, nat>

    /** The list is intact and every listed block has a header. */
    ghost predicate Listed()
      reads this, freelist
    {
      && freelist.Valid()
      && forall i :: 0 <= i < |freelist.elems| ==> freelist.elems[i] in sz
    }

    ghost predicate Valid()
      reads this, freelist
    {
      Listed() && AllWellFormed(Blocks()) && Disjoint(Blocks())
    }

    ghost function Blocks(): seq<Block>
      reads this, freelist
    {
      BlocksOf(freelist.elems, sz)
    }

    constructor ()
      ensures Valid() && fresh(freelist) && Blocks() == []
    {
      freelist := new LinkedList();
      sz := map[];
    }

    /** The search loop of `alloc_pages`. */
    method FindFit(size: u32) returns (p: Ptr)
      requires Listed()
      ensures p == At(freelist.elems, FirstFit(Blocks(), size)) && (p == NULL <==> FirstFit(Blocks(), size) == |Blocks()|)
    {
      ghost var s, bs := freelist.elems, Blocks();
      ghost var k := 0;
      p := freelist.first;
      while p != NULL
        invariant 0 <= k <= |s| && p == At(s, k)
        invariant forall j :: 0 <= j < k ==> bs[j].len < size
        decreases |s| - k
      {
        assert freelist.next[s[k]] == At(s, k + 1) && bs[k] == Block(p, sz[p]);
        if sz[p] >= size {
          break;
        }
        p := freelist.next[p];
        k := k + 1;
      }
      assert p == NULL ==> k == |s|;
      FirstFitFound(bs, size, k);
    }

    /** The insertion loop of `free_pages`; `n` already carries its header. */
    method InsertBySize(n: Ptr)
      requires Listed() && n != NULL && n !in freelist.elems && n in sz
      modifies freelist
      ensures Listed() && Blocks() == Freed(old(Blocks()), Block(n, sz[n]))
    {
      ghost var s, bs := freelist.elems, Blocks();
      var p := freelist.first;
      ghost var i := 0;
      while p != NULL
        invariant unchanged(freelist) && 0 <= i <= |s| && p == At(s, i)
        invariant i < |s| || s == []
        invariant forall j :: 0 <= j < i ==> bs[j].len < sz[n]
        decreases |s| - i
      {
        assert freelist.next[s[i]] == At(s, i + 1) && bs[i] == Block(p, sz[p]);
        var tmp := freelist.next[p];
        if sz[p] >= sz[n] {
          FirstFitFound(bs, sz[n], i);
          BlocksOfInserted(s, sz, i, n, sz[n]);
          freelist.InsertBefore(p, n, i);
          ListedAfterInsert(s, i, n);
          return;
        } else if tmp == NULL {
          assert i + 1 == |s|;
          FirstFitFound(bs, sz[n], i + 1);
          BlocksOfInserted(s, sz, i + 1, n, sz[n]);
          freelist.InsertAfter(p, n, i);
          ListedAfterInsert(s, i + 1, n);
          return;
        }
        p, i := tmp, i + 1;
      }
    }

    lemma ListedAfterInsert(s: seq<Ptr>, k: nat, n: Ptr)
      requires k <= |s| && freelist.Valid() && freelist.elems == Inserted(s, k, n)
      requires n in sz && forall i :: 0 <= i < |s| ==> s[i] in sz
      ensures Listed()
      ensures sz[n := sz[n]] == sz
    {
    }

    /** Aborts on a NULL address, as the source asserts. */
    method FreePages(addr: u32, size: u32) returns (aborted: bool)
      requires Valid()
      requires addr != NULL ==>
        WellFormed(Block(PgDown(addr), PgUp(size))) && Pages(Blocks()) !! Span(Block(PgDown(addr), PgUp(size)))
      modifies this, freelist
      ensures Valid() && aborted == (addr == NULL)
      ensures Blocks() == if aborted then old(Blocks()) else Freed(old(Blocks()), Block(PgDown(addr), PgUp(size)))
    {
      if addr == NULL {
        return true;
      }
      var n, len := PgDown(addr), PgUp(size);
      NewBlockNotListed(freelist.elems, sz, Block(n, len));
      HeaderOfNewBlock(freelist.elems, sz, n, len);
      FreedPages(Blocks(), Block(n, len));
      sz := sz[n := len];
      InsertBySize(n);
      aborted := false;
    }

    method AllocPages(size: u32) returns (addr: Ptr)
      requires Valid()
      modifies this, freelist
      ensures Valid()
      ensures addr == AllocatedAt(old(Blocks()), size) && Blocks() == AllocatedRest(old(Blocks()), size)
    {
      hide Disjoint, AllWellFormed, Pages, Removed, Links, Freed;
      ghost var k := FirstFit(Blocks(), size);
      var p := FindFit(size);
      FirstFitIsFirst(Blocks(), size);
      if p == NULL {
        return NULL;
      }
      addr := p;
      var up := PgUp(size);
      SplitBlock(Blocks(), k, size);
      Unlink(p, k);
      if sz[p] > up {
        var aborted := FreePages(p + up, sz[p] - up);
      }
    }

    method Unlink(p: Ptr, ghost k: nat)
      requires Listed() && k < |freelist.elems| && freelist.elems[k] == p
      modifies freelist
      ensures Listed() && Blocks() == Removed(old(Blocks()), k)
    {
      ghost var s := freelist.elems;
      hide Links;
      BlocksOfRemoved(s, sz, k);
      freelist.Remove(p, k);
      assert forall i :: 0 <= i < |freelist.elems| ==> freelist.elems[i] == s[if i < k then i else i + 1];
    }

    /** Builds the list from the available map entries, given as kernel virtual blocks. */
    method InitMem(entries: seq<Block>)
      requires Valid() && Blocks() == []
      requires AllWellFormed(entries) && Disjoint(entries)
      modifies this, freelist
      ensures Valid() && Blocks() == InitList(entries) && Pages(Blocks()) == Pages(entries)
    {
      hide Disjoint, AllWellFormed, Pages, InitInserted, Links, BlocksOf;
      var m := 0;
      while m < |entries|
        invariant 0 <= m <= |entries|
        invariant Valid() && Blocks() == InitList(entries[..m])
        invariant Pages(Blocks()) == Pages(entries[..m])
      {
        ghost var bs, b := Blocks(), entries[m];
        EntryPrefix(entries, m);
        NewBlockNotListed(freelist.elems, sz, b);
        HeaderOfNewBlock(freelist.elems, sz, b.addr, b.len);
        InitInsertedPages(bs, b);
        sz := sz[entries[m].addr := entries[m].len];
        InsertEntry(entries[m].addr);
        m := m + 1;
      }
      assert entries[..m] == entries;
    }

    lemma EntryPrefix(entries: seq<Block>, m: nat)
      requires m < |entries| && Disjoint(entries) && AllWellFormed(entries)
      ensures WellFormed(entries[m])
      ensures entries[..m + 1][..m] == entries[..m] && entries[..m + 1][m] == entries[m]
      ensures Pages(entries[..m + 1]) == Pages(entries[..m]) + Span(entries[m])
      ensures Pages(entries[..m]) !! Span(entries[m])
    {
      assert entries[..m + 1] == Inserted(entries[..m], m, entries[m]);
      PagesInserted(entries[..m], m, entries[m]);
    }

    /** The body of the loop in `init_mem`; `n` already carries its header. */
    method InsertEntry(n: Ptr)
      requires Listed() && n != NULL && n !in freelist.elems && n in sz
      modifies freelist
      ensures Listed() && Blocks() == InitInserted(old(Blocks()), Block(n, sz[n]))
    {
      ghost var s, bs := freelist.elems, Blocks();
      if freelist.first == NULL {
        BlocksOfInserted(s, sz, 0, n, sz[n]);
        freelist.InsertHead(n);
        assert freelist.elems == Inserted(s, 0, n);
        ListedAfterInsert(s, 0, n);
      } else {
        var p := freelist.first;
        ghost var i := 0;
        while true
          invariant 0 <= i < |s| && p == s[i]
          invariant i + InitPosition(bs[i..], sz[n]) == InitPosition(bs, sz[n])
          decreases |s| - i
        {
          assert freelist.next[s[i]] == At(s, i + 1) && bs[i] == Block(p, sz[p]);
          var tmp := freelist.next[p];
          if sz[p] > sz[n] || tmp == NULL {
            break;
          }
          assert bs[i..][1..] == bs[i + 1..];
          p, i := tmp, i + 1;
        }
        assert i == InitPosition(bs, sz[n]);
        BlocksOfInserted(s, sz, i + 1, n, sz[n]);
        freelist.InsertAfter(p, n, i);
        ListedAfterInsert(s, i + 1, n);
      }
    }
  }
}
