/** When `alloc_pages` and `kmalloc` of kernel/mem.c can serve a row of requests, and what is left afterwards. */
module Supplies {
  import opened Words
  import opened IntrusiveLists
  import B = Blocks
  import P = PageAllocator
  import H = KernelHeap

  // ---------- pages

  /** No listed block is large enough for `n` bytes. */
  ghost predicate NoBlock(bs: seq<B.Block>, n: nat) {
    forall i :: 0 <= i < |bs| ==> bs[i].len < n
  }

  /** `n` requests for one page each all succeed. */
  ghost predicate CanDraw(bs: seq<B.Block>, n: nat)
    decreases n
  {
    n == 0 || (P.AllocatedAt(bs, 0x1000) != NULL && CanDraw(P.AllocatedRest(bs, 0x1000), n - 1))
  }

  /** The free list after `n` requests for one page. */
  ghost function Drawn(bs: seq<B.Block>, n: nat): seq<B.Block>
    decreases n
  {
    if n == 0 then bs else Drawn(P.AllocatedRest(bs, 0x1000), n - 1)
  }

  lemma {:induction false} DrawSplit(bs: seq<B.Block>, m: nat, n: nat)
    ensures CanDraw(bs, m + n) <==> CanDraw(bs, m) && CanDraw(Drawn(bs, m), n)
    ensures Drawn(bs, m + n) == Drawn(Drawn(bs, m), n)
    decreases m
  {
    hide P.AllocatedAt, P.AllocatedRest;
    if m > 0 {
      DrawSplit(P.AllocatedRest(bs, 0x1000), m - 1, n);
    }
  }

  lemma DrawFewer(bs: seq<B.Block>, m: nat, n: nat)
    requires m <= n && CanDraw(bs, n)
    ensures CanDraw(bs, m)
  {
    DrawSplit(bs, m, n - m);
  }

  lemma DrawOne(bs: seq<B.Block>)
    requires P.AllWellFormed(bs) && P.Disjoint(bs)
    ensures CanDraw(bs, 1) <==> !NoBlock(bs, 0x1000)
    ensures Drawn(bs, 1) == P.AllocatedRest(bs, 0x1000)
  {
    hide P.AllWellFormed, P.Disjoint, P.AllocatedRest, P.AllocatedAt;
    P.AllocConserves(bs, 0x1000);
    assert CanDraw(P.AllocatedRest(bs, 0x1000), 0) && Drawn(P.AllocatedRest(bs, 0x1000), 0) == P.AllocatedRest(bs, 0x1000);
  }

  // ---------- when pages suffice

  /** How many blocks have at least `n` bytes. */
  ghost function Long(bs: seq<B.Block>, n: nat): nat {
    if bs == [] then 0 else Long(bs[1..], n) + if bs[0].len >= n then 1 else 0
  }

  lemma {:induction false} LongConcat(s: seq<B.Block>, t: seq<B.Block>, n: nat)
    ensures Long(s + t, n) == Long(s, n) + Long(t, n)
  {
    if s == [] {
      assert s + t == t;
    } else {
      assert (s + t)[1..] == s[1..] + t;
      LongConcat(s[1..], t, n);
    }
  }

  lemma LongOne(b: B.Block, n: nat)
    ensures Long([b], n) == if b.len >= n then 1 else 0
  {
    assert [b][1..] == [];
  }

  lemma LongInserted(bs: seq<B.Block>, k: nat, b: B.Block, n: nat)
    requires k <= |bs|
    ensures Long(Inserted(bs, k, b), n) == Long(bs, n) + if b.len >= n then 1 else 0
  {
    assert Inserted(bs, k, b) == bs[..k] + ([b] + bs[k..]) && bs == bs[..k] + bs[k..];
    LongOne(b, n);
    LongConcat([b], bs[k..], n);
    LongConcat(bs[..k], [b] + bs[k..], n);
    LongConcat(bs[..k], bs[k..], n);
  }

  lemma LongRemoved(bs: seq<B.Block>, k: nat, n: nat)
    requires k < |bs|
    ensures Long(bs, n) == Long(Removed(bs, k), n) + if bs[k].len >= n then 1 else 0
  {
    assert Inserted(Removed(bs, k), k, bs[k]) == bs;
    LongInserted(Removed(bs, k), k, bs[k], n);
  }

  lemma {:induction false} LongFewer(bs: seq<B.Block>, m: nat, n: nat)
    requires m <= n
    ensures Long(bs, n) <= Long(bs, m) && Long(bs, n) <= |bs|
    ensures Long(bs, n) > 0 <==> exists i :: 0 <= i < |bs| && bs[i].len >= n
  {
    if bs != [] {
      LongFewer(bs[1..], m, n);
      assert forall i :: 0 <= i < |bs| - 1 ==> bs[1..][i] == bs[i + 1];
      assert forall i :: 0 < i < |bs| ==> bs[i] == bs[1..][i - 1];
    }
  }

  /** Of two blocks that are longer than a request both are still there afterwards, one perhaps shorter by the request. */
  lemma TakeKeeps(bs: seq<B.Block>, sz: u32, x: nat)
    requires P.AllWellFormed(bs) && P.Disjoint(bs) && Long(bs, x) >= 2 && sz <= PgUp(sz) < x
    ensures P.AllocatedAt(bs, sz) != NULL && Long(P.AllocatedRest(bs, sz), x - PgUp(sz)) >= 2
    ensures P.AllWellFormed(P.AllocatedRest(bs, sz)) && P.Disjoint(P.AllocatedRest(bs, sz))
  {
    hide P.AllWellFormed, P.Disjoint, Removed, Inserted, PgUp, Long;
    var k, y := B.FirstFit(bs, sz), x - PgUp(sz);
    B.FirstFitIsFirst(bs, sz);
    LongFewer(bs, x, x);
    P.AllocConserves(bs, sz);
    var rest := Removed(bs, k);
    LongRemoved(bs, k, x);
    LongFewer(rest, y, x);
    if bs[k].len > PgUp(sz) {
      var left := P.Remainder(bs[k], PgUp(sz));
      LongFewer(rest, 0, y);
      LongInserted(rest, B.FirstFit(rest, left.len), left, y);
    }
  }

  lemma {:induction false} DrawKeeps(bs: seq<B.Block>, n: nat, x: nat)
    requires P.AllWellFormed(bs) && P.Disjoint(bs) && Long(bs, x) >= 2 && n * PAGE < x
    ensures CanDraw(bs, n) && Long(Drawn(bs, n), x - n * PAGE) >= 2
    ensures P.AllWellFormed(Drawn(bs, n)) && P.Disjoint(Drawn(bs, n))
    decreases n
  {
    hide P.AllWellFormed, P.Disjoint, P.AllocatedAt, P.AllocatedRest, Long;
    if n > 0 {
      assert PgUp(0x1000) == 0x1000;
      TakeKeeps(bs, 0x1000, x);
      DrawKeeps(P.AllocatedRest(bs, 0x1000), n - 1, x - PAGE);
    }
  }

  // ---------- the kernel heap

  /** A request for `n` bytes passes the size assertion and finds a block. */
  ghost predicate Allots(hs: seq<B.Block>, n: u32) {
    H.Need(n) < H.LIMIT && H.MallocAt(hs, H.Need(n)) != NULL
  }

  ghost function Allotted(hs: seq<B.Block>, n: u32): seq<B.Block> {
    H.MallocRest(hs, H.Need(n))
  }

  /** `k` requests for `n` bytes each all succeed. */
  ghost predicate AllotsAll(hs: seq<B.Block>, n: u32, k: nat)
    decreases k
  {
    k == 0 || (Allots(hs, n) && AllotsAll(Allotted(hs, n), n, k - 1))
  }

  ghost function AllottedAll(hs: seq<B.Block>, n: u32, k: nat): seq<B.Block>
    decreases k
  {
    if k == 0 then hs else AllottedAll(Allotted(hs, n), n, k - 1)
  }

  lemma {:induction false} AllotOneMore(hs: seq<B.Block>, n: u32, k: nat)
    ensures AllotsAll(hs, n, k + 1) <==> AllotsAll(hs, n, k) && Allots(AllottedAll(hs, n, k), n)
    ensures AllottedAll(hs, n, k + 1) == Allotted(AllottedAll(hs, n, k), n)
    decreases k
  {
    hide Allots, Allotted;
    if k > 0 {
      AllotOneMore(Allotted(hs, n), n, k - 1);
    } else {
      assert AllotsAll(Allotted(hs, n), n, 0) && AllottedAll(Allotted(hs, n), n, 0) == Allotted(hs, n);
    }
  }

  lemma {:induction false} AllotFewer(hs: seq<B.Block>, n: u32, m: nat, k: nat)
    requires m <= k && AllotsAll(hs, n, k)
    ensures AllotsAll(hs, n, m)
    decreases k
  {
    hide Allots, Allotted;
    if m < k {
      AllotOneMore(hs, n, k - 1);
      AllotFewer(hs, n, m, k - 1);
    }
  }

  /** The pointer a request that is served returns. */
  ghost function AllotAt(hs: seq<B.Block>, n: u32): int {
    H.MallocAt(hs, H.Need(n)) + 2
  }

  /** The pointers `k` requests for `n` bytes return, one after the other. */
  ghost function AllotsAt(hs: seq<B.Block>, n: u32, k: nat): seq<int>
    decreases k
  {
    if k == 0 then [] else [AllotAt(hs, n)] + AllotsAt(Allotted(hs, n), n, k - 1)
  }

  lemma {:induction false} AllotsAtOneMore(hs: seq<B.Block>, n: u32, k: nat)
    ensures AllotsAt(hs, n, k + 1) == AllotsAt(hs, n, k) + [AllotAt(AllottedAll(hs, n, k), n)]
    decreases k
  {
    hide Allotted, AllotAt;
    if k > 0 {
      AllotsAtOneMore(Allotted(hs, n), n, k - 1);
    } else {
      assert AllotsAt(Allotted(hs, n), n, 0) == [];
    }
  }

  /** The bytes of the block behind a pointer to `n` bytes, header included. */
  ghost function BytesBehind(a: int, n: u32): set<int> {
    Interval(a - 2, a - 2 + H.Need(n))
  }

  /** A block handed out was free, and is not free any more. */
  lemma AllotFresh(hs: seq<B.Block>, n: u32)
    requires H.Canonical(hs) && Allots(hs, n) && H.Need(n) > 0
    ensures H.Canonical(Allotted(hs, n)) && H.Bytes(Allotted(hs, n)) <= H.Bytes(hs)
    ensures BytesBehind(AllotAt(hs, n), n) <= H.Bytes(hs) && BytesBehind(AllotAt(hs, n), n) !! H.Bytes(Allotted(hs, n))
  {
    hide H.Canonical, H.Bytes, H.MallocRest, H.Need;
    H.MallocConserves(hs, H.Need(n));
  }

  /** Pointers to blocks of `n` bytes that were free in `hs`, are not free in `hs'`, and have no byte in common. */
  ghost predicate NewBlocks(hs: seq<B.Block>, hs': seq<B.Block>, n: u32, at: seq<int>) {
    && (forall i :: 0 <= i < |at| ==> BytesBehind(at[i], n) <= H.Bytes(hs) && BytesBehind(at[i], n) !! H.Bytes(hs'))
    && forall i, j :: 0 <= i < j < |at| ==> BytesBehind(at[i], n) !! BytesBehind(at[j], n)
  }

  lemma {:induction false} AllotsFresh(hs: seq<B.Block>, n: u32, k: nat)
    requires H.Canonical(hs) && AllotsAll(hs, n, k) && H.Need(n) > 0
    ensures H.Canonical(AllottedAll(hs, n, k)) && H.Bytes(AllottedAll(hs, n, k)) <= H.Bytes(hs)
    ensures |AllotsAt(hs, n, k)| == k && NewBlocks(hs, AllottedAll(hs, n, k), n, AllotsAt(hs, n, k))
    decreases k
  {
    hide H.Canonical, H.Bytes, H.Need, Allots, Allotted, AllotAt, BytesBehind;
    if k > 0 {
      AllotFresh(hs, n);
      AllotsFresh(Allotted(hs, n), n, k - 1);
    }
  }

  lemma {:induction false} RowFresh(hs: seq<B.Block>, ns: seq<u32>)
    requires H.Canonical(hs) && AllotsRow(hs, ns) && forall i :: 0 <= i < |ns| ==> H.Need(ns[i]) > 0
    ensures H.Canonical(AllottedRow(hs, ns)) && H.Bytes(AllottedRow(hs, ns)) <= H.Bytes(hs)
    ensures ns != [] ==> NewBlocks(hs, AllottedRow(hs, ns), ns[0], [AllotAt(hs, ns[0])])
    decreases |ns|
  {
    hide H.Canonical, H.Bytes, H.Need, Allots, Allotted, AllotAt, BytesBehind;
    if ns != [] {
      AllotFresh(hs, ns[0]);
      RowFresh(Allotted(hs, ns[0]), ns[1..]);
    }
  }

  /** Blocks handed out later are apart from those handed out before. */
  lemma BlocksAdded(hs: seq<B.Block>, hs1: seq<B.Block>, hs2: seq<B.Block>, n: u32, at: seq<int>, more: seq<int>)
    requires NewBlocks(hs, hs1, n, at) && NewBlocks(hs1, hs2, n, more) && H.Bytes(hs2) <= H.Bytes(hs1) <= H.Bytes(hs)
    ensures NewBlocks(hs, hs2, n, at + more)
  {
    hide H.Bytes, BytesBehind;
    var all := at + more;
    forall i | 0 <= i < |all|
      ensures BytesBehind(all[i], n) <= H.Bytes(hs) && BytesBehind(all[i], n) !! H.Bytes(hs2)
    {
      assert all[i] == if i < |at| then at[i] else more[i - |at|];
    }
    forall i, j | 0 <= i < j < |all|
      ensures BytesBehind(all[i], n) !! BytesBehind(all[j], n)
    {
      assert all[i] == if i < |at| then at[i] else more[i - |at|];
      assert all[j] == if j < |at| then at[j] else more[j - |at|];
      if i < |at| <= j {
        DisjointParts(BytesBehind(at[i], n), H.Bytes(hs1), BytesBehind(more[j - |at|], n));
      }
    }
  }

  lemma DisjointParts(x: set<int>, y: set<int>, part: set<int>)
    requires x !! y && part <= y
    ensures x !! part
  {
  }

  /** All free blocks lie in the kernel half. */
  ghost predicate InKernelHalf(hs: seq<B.Block>) {
    forall i :: 0 <= i < |hs| ==> KERNEL_OFFSET <= hs[i].addr && hs[i].addr + hs[i].len <= U32
  }

  lemma AllottedInHalf(hs: seq<B.Block>, n: u32)
    requires InKernelHalf(hs) && Allots(hs, n) && H.Need(n) > 0
    ensures InKernelHalf(Allotted(hs, n)) && KERNEL_OFFSET <= H.MallocAt(hs, H.Need(n)) < U32 - 7
  {
    hide H.Need, H.MallocRest;
    var need, k := H.Need(n), B.FirstFit(hs, H.Need(n));
    B.FirstFitIsFirst(hs, need);
    H.MallocRestIs(hs, need);
    NeedAligned(n);
    var rest := Allotted(hs, n);
    assert rest == hs[..k] + (H.Split(hs[k], need) + hs[k + 1..]);
    forall i | 0 <= i < |rest|
      ensures KERNEL_OFFSET <= rest[i].addr && rest[i].addr + rest[i].len <= U32
    {
      var e := |H.Split(hs[k], need)|;
      assert rest[i] == if i < k then hs[i] else if i < k + e then H.Split(hs[k], need)[i - k] else hs[i - e + 1];
    }
  }

  lemma NotAllotted(hs: seq<B.Block>, n: u32)
    requires InKernelHalf(hs) && H.MallocAt(hs, H.Need(n)) == NULL
    ensures Allotted(hs, n) == hs
  {
    hide H.Need;
  }

  lemma NeedAligned(n: u32)
    ensures H.Need(n) % 8 == 0
  {
    H.NeedIsHonest(n);
  }

  /** A row of requests all succeed. */
  ghost predicate AllotsRow(hs: seq<B.Block>, ns: seq<u32>)
    decreases |ns|
  {
    ns == [] || (Allots(hs, ns[0]) && AllotsRow(Allotted(hs, ns[0]), ns[1..]))
  }

  ghost function AllottedRow(hs: seq<B.Block>, ns: seq<u32>): seq<B.Block>
    decreases |ns|
  {
    if ns == [] then hs else AllottedRow(Allotted(hs, ns[0]), ns[1..])
  }

  /** The largest request the size assertion lets through, in multiples of 16. */
  lemma NodesFit(k: nat)
    requires 0 < k <= 0x1_0000
    ensures H.Need(16 * k) != 0 && (H.Need(16 * k) < H.LIMIT <==> k <= 255)
  {
  }

  /** A heap that is one free block serves equal requests until less than one of them is left. */
  lemma {:induction false} OneBlockServes(addr: nat, len: nat, n: u32, k: nat)
    requires addr > 0 && 0 < H.Need(n) < H.LIMIT
    ensures k > 0 ==> (AllotsAll([B.Block(addr, len)], n, k) <==> H.Need(n) * k <= len)
    decreases k
  {
    var hs, need := [B.Block(addr, len)], H.Need(n);
    hide H.Need;
    if k > 0 {
      assert B.FirstFit(hs, need) == if len >= need then 0 else 1 + B.FirstFit([], need);
      H.MallocRestIs(hs, need);
      assert need * k == need + need * (k - 1);
      assert k > 1 ==> need * (k - 1) > 0;
      if len > need {
        assert Allotted(hs, n) == [B.Block(addr + need, len - need)];
        OneBlockServes(addr + need, len - need, n, k - 1);
      } else if len == need && k > 1 {
        assert Allotted(hs, n) == [];
        assert !Allots([], n);
      }
      assert k == 1 ==> AllotsAll(Allotted(hs, n), n, k - 1);
    }
  }

  /** The bytes a row of requests takes. */
  ghost function RowSize(ns: seq<u32>): nat {
    if ns == [] then 0 else H.Need(ns[0]) + RowSize(ns[1..])
  }

  /** So it serves a row of requests exactly if it is as long as they take together. */
  lemma {:induction false} OneBlockRow(addr: nat, len: nat, ns: seq<u32>)
    requires addr > 0 && ns != [] && forall i :: 0 <= i < |ns| ==> 0 < H.Need(ns[i]) < H.LIMIT
    ensures AllotsRow([B.Block(addr, len)], ns) <==> RowSize(ns) <= len
    ensures RowSize(ns) < len ==> AllottedRow([B.Block(addr, len)], ns) == [B.Block(addr + RowSize(ns), len - RowSize(ns))]
    ensures RowSize(ns) == len ==> AllottedRow([B.Block(addr, len)], ns) == []
    decreases |ns|
  {
    hide H.Need, H.MallocRest;
    var hs, need := [B.Block(addr, len)], H.Need(ns[0]);
    assert B.FirstFit(hs, need) == if len >= need then 0 else 1 + B.FirstFit([], need);
    H.MallocRestIs(hs, need);
    assert len > need ==> Allotted(hs, ns[0]) == [B.Block(addr + need, len - need)];
    assert len == need ==> Allotted(hs, ns[0]) == [];
    if |ns| > 1 {
      RowPositive(ns[1..]);
      if len > need {
        OneBlockRow(addr + need, len - need, ns[1..]);
      } else if len == need {
        assert !Allots([], ns[1..][0]);
      }
    } else {
      assert ns[1..] == [];
    }
  }

  lemma {:induction false} RowPositive(ns: seq<u32>)
    requires ns != [] && forall i :: 0 <= i < |ns| ==> 0 < H.Need(ns[i])
    ensures RowSize(ns) > 0
  {
    hide H.Need;
  }

  /** From boot the kernel heap holds 2730 region records of 16 bytes, and no more. */
  lemma FreshHeapServes(base: nat, k: nat)
    requires base > 0
    ensures AllotsAll([B.Block(base, H.ARENA)], 16, k) <==> k <= 2730
  {
    NodesFit(1);
    OneBlockServes(base, H.ARENA, 16, k);
    assert H.Need(16) == 24;
  }
}
