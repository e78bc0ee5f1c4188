/**
  The byte heap of kernel/mem.c: `kmalloc` and `kfree` on an address-ordered list of free blocks.
  A live block carries its size in the low half of its first word.
 */
module KernelHeap {
  import opened Words
  import opened IntrusiveLists
  import opened Blocks

  const ARENA := 0x1_0000
  const LIMIT := 0x1000

  ghost function End(b: Block): nat {
    b.addr + b.len
  }

  ghost function BytesOf(b: Block): set<int> {
    Interval(b.addr, End(b))
  }

  /** All byte addresses of the blocks of `bs`. */
  ghost function Bytes(bs: seq<Block>): set<int> {
    if bs == [] then {} else BytesOf(bs[0]) + Bytes(bs[1..])
  }

  /** Non-empty blocks in strictly ascending address order, no two of them touching. */
  ghost predicate Canonical(bs: seq<Block>) {
    && (forall i :: 0 <= i < |bs| ==> bs[i].len > 0)
    && forall i :: 0 < i < |bs| ==> End(bs[i - 1]) < bs[i].addr
  }

  lemma {:induction false} BytesConcat(s: seq<Block>, t: seq<Block>)
    ensures Bytes(s + t) == Bytes(s) + Bytes(t)
  {
    if s == [] {
      assert s + t == t;
    } else {
      assert (s + t)[1..] == s[1..] + t;
      BytesConcat(s[1..], t);
    }
  }

  lemma CanonicalConcat(s: seq<Block>, t: seq<Block>)
    ensures Canonical(s + t) <==>
      Canonical(s) && Canonical(t) && (s != [] && t != [] ==> End(s[|s| - 1]) < t[0].addr)
  {
    var r := s + t;
    assert forall i :: 0 <= i < |s| ==> r[i] == s[i];
    assert forall i :: 0 <= i < |t| ==> r[|s| + i] == t[i];
    if Canonical(r) && s != [] && t != [] {
      assert End(r[|s| - 1]) < r[|s|].addr;
    }
    if Canonical(r) {
      forall i | 0 < i < |t|
        ensures End(t[i - 1]) < t[i].addr
      {
        assert End(r[|s| + i - 1]) < r[|s| + i].addr;
      }
    }
  }

  /** Every byte of a canonical list lies between its first address and its last end. */
  lemma {:induction false} BytesBounded(bs: seq<Block>)
    requires Canonical(bs) && bs != []
    ensures forall x :: x in Bytes(bs) ==> bs[0].addr <= x < End(bs[|bs| - 1])
    ensures bs[0].addr in Bytes(bs) && BytesOf(bs[0]) <= Bytes(bs)
  {
    assert bs[0].addr in BytesOf(bs[0]);
    if |bs| > 1 {
      assert bs == [bs[0]] + bs[1..];
      CanonicalConcat([bs[0]], bs[1..]);
      BytesBounded(bs[1..]);
      LastAbove(bs);
    }
  }

  lemma {:induction false} LastAbove(bs: seq<Block>)
    requires Canonical(bs) && bs != []
    ensures End(bs[0]) <= End(bs[|bs| - 1])
  {
    if |bs| > 1 {
      assert bs == [bs[0]] + bs[1..];
      CanonicalConcat([bs[0]], bs[1..]);
      LastAbove(bs[1..]);
    }
  }

  /** A canonical free list is determined by its free bytes. */
  lemma {:induction false} CanonicalUnique(s: seq<Block>, t: seq<Block>)
    requires Canonical(s) && Canonical(t) && Bytes(s) == Bytes(t)
    ensures s == t
  {
    if s != [] {
      BytesBounded(s);
    }
    if t != [] {
      BytesBounded(t);
    }
    if s == [] || t == [] {
      assert s == t;
    } else {
      assert s[0].addr == t[0].addr;
      EndOfFirstIsFree(s);
      EndOfFirstIsFree(t);
      SameEnd(s[0], t[0], Bytes(s));
      RestOfCanonical(s);
      RestOfCanonical(t);
      CanonicalUnique(s[1..], t[1..]);
      assert s == [s[0]] + s[1..] && t == [t[0]] + t[1..];
    }
  }

  lemma SameEnd(b: Block, c: Block, bytes: set<int>)
    requires b.addr == c.addr && BytesOf(b) <= bytes && BytesOf(c) <= bytes
    requires b.len > 0 && c.len > 0 && End(b) !in bytes && End(c) !in bytes
    ensures b == c
  {
    assert End(b) < End(c) ==> End(b) in BytesOf(c);
    assert End(c) < End(b) ==> End(c) in BytesOf(b);
  }

  lemma RestOfCanonical(bs: seq<Block>)
    requires Canonical(bs) && bs != []
    ensures Canonical(bs[1..]) && Bytes(bs[1..]) == Bytes(bs) - BytesOf(bs[0])
    ensures Bytes(bs) == BytesOf(bs[0]) + Bytes(bs[1..])
    ensures forall x :: x in Bytes(bs[1..]) ==> x > End(bs[0])
  {
    assert bs == [bs[0]] + bs[1..];
    CanonicalConcat([bs[0]], bs[1..]);
    if |bs| > 1 {
      BytesBounded(bs[1..]);
    }
  }

  lemma EndOfFirstIsFree(bs: seq<Block>)
    requires Canonical(bs) && bs != []
    ensures End(bs[0]) !in Bytes(bs)
  {
    RestOfCanonical(bs);
  }

  // ---------- kmalloc

  /** Bytes taken for a request of `n`: the header added and rounded up to 8, in 32-bit arithmetic. */
  function Need(n: u32): u32 {
    RoundUp((n + 2) % U32, 8)
  }

  /**
    A request takes the least multiple of 8 with room for it and the header, unless the sum wraps: to zero for eight
    requests near 2^32, and to one small block for the last one.
   */
  lemma NeedIsHonest(n: u32)
    ensures Need(n) % 8 == 0
    ensures Need(n) >= n + 2 <==> n < 0xFFFF_FFF7
    ensures n < 0xFFFF_FFF7 ==> Need(n) < n + 10
    ensures Need(n) == 0 <==> 0xFFFF_FFF7 <= n <= 0xFFFF_FFFE
    ensures n == 0xFFFF_FFFF ==> Need(n) == 8
    ensures Need(n) >= LIMIT <==> 0xFF7 <= n < 0xFFFF_FFF7
  {
  }

  ghost function MallocAt(bs: seq<Block>, need: nat): Ptr {
    var k := FirstFit(bs, need);
    if k == |bs| then NULL else bs[k].addr
  }

  ghost function MallocRest(bs: seq<Block>, need: nat): seq<Block> {
    var k := FirstFit(bs, need);
    if k == |bs| then bs
    else if bs[k].len > need then Removed(Inserted(bs, k + 1, Block(bs[k].addr + need, bs[k].len - need)), k)
    else Removed(bs, k)
  }

  ghost function Split(b: Block, need: nat): seq<Block> {
    if b.len > need then [Block(b.addr + need, b.len - need)] else []
  }

  /** The first block with room gives its front; what is left of it takes its place in the list. */
  lemma MallocPlace(bs: seq<Block>, need: nat, k: nat)
    requires k < |bs| && (forall i :: 0 <= i < k ==> bs[i].len < need) && bs[k].len >= need
    ensures MallocAt(bs, need) == bs[k].addr
    ensures MallocRest(bs, need) ==
      bs[..k] + (if bs[k].len > need then [Block(bs[k].addr + need, bs[k].len - need)] else []) + bs[k + 1..]
  {
    hide MallocRest;
    FirstFitFound(bs, need, k);
    MallocRestIs(bs, need);
  }

  lemma MallocRestIs(bs: seq<Block>, need: nat)
    ensures var k := FirstFit(bs, need);
      MallocRest(bs, need) == if k == |bs| then bs else bs[..k] + (Split(bs[k], need) + bs[k + 1..])
  {
    hide FirstFit, Inserted, Removed;
    var k := FirstFit(bs, need);
    if k < |bs| && bs[k].len > need {
      Replaced(bs, k, Block(bs[k].addr + need, bs[k].len - need));
    } else if k < |bs| {
      RemovedIs(bs, k);
    }
  }

  lemma RemovedIs(bs: seq<Block>, k: nat)
    requires k < |bs|
    ensures Removed(bs, k) == bs[..k] + ([] + bs[k + 1..])
  {
    assert [] + bs[k + 1..] == bs[k + 1..];
  }

  /** A node put behind the `k`-th, which then goes, takes its place. */
  lemma Replaced(bs: seq<Block>, k: nat, b: Block)
    requires k < |bs|
    ensures Removed(Inserted(bs, k + 1, b), k) == bs[..k] + ([b] + bs[k + 1..])
  {
    var t := Inserted(bs, k + 1, b);
    assert t[..k] == bs[..k] && t[k + 1..] == [b] + bs[k + 1..];
  }

  /** `mid` lies in the gap from `lo` to `hi` between `pre` and `post`, touching neither. */
  ghost predicate Fits(pre: seq<Block>, mid: seq<Block>, post: seq<Block>, lo: nat, hi: nat) {
    && Canonical(pre) && Canonical(mid) && Canonical(post)
    && (pre != [] ==> End(pre[|pre| - 1]) < lo)
    && (post != [] ==> hi < post[0].addr)
    && (mid != [] ==> lo <= mid[0].addr && End(mid[|mid| - 1]) <= hi)
    && lo <= hi
  }

  lemma Splice(pre: seq<Block>, mid: seq<Block>, post: seq<Block>, lo: nat, hi: nat)
    requires Fits(pre, mid, post, lo, hi)
    ensures Canonical(pre + (mid + post))
    ensures Bytes(pre + (mid + post)) == Bytes(pre) + Bytes(post) + Bytes(mid)
    ensures Bytes(mid) <= Interval(lo, hi) && (Bytes(pre) + Bytes(post)) !! Interval(lo, hi)
  {
    hide Canonical;
    BytesConcat(mid, post);
    BytesConcat(pre, mid + post);
    CanonicalConcat(mid, post);
    CanonicalConcat(pre, mid + post);
    assert mid + post != [] ==> (mid + post)[0] == if mid != [] then mid[0] else post[0];
    if pre != [] {
      BytesBounded(pre);
    }
    if mid != [] {
      BytesBounded(mid);
    }
    if post != [] {
      BytesBounded(post);
    }
  }

  lemma SlicesCanonical(bs: seq<Block>, k: nat, m: nat)
    requires Canonical(bs) && k < m <= |bs|
    ensures bs == bs[..k] + (bs[k..m] + bs[m..])
    ensures Canonical(bs[..k]) && Canonical(bs[k..m]) && Canonical(bs[m..])
  {
    hide Canonical;
    assert bs == bs[..k] + (bs[k..m] + bs[m..]);
    CanonicalConcat(bs[..k], bs[k..m] + bs[m..]);
    CanonicalConcat(bs[k..m], bs[m..]);
  }

  lemma GapsAround(bs: seq<Block>, k: nat, m: nat)
    requires Canonical(bs) && k < m <= |bs|
    ensures k > 0 ==> End(bs[k - 1]) < bs[k].addr
    ensures m < |bs| ==> End(bs[m - 1]) < bs[m].addr
  {
  }

  lemma AroundBlock(bs: seq<Block>, k: nat, m: nat)
    requires Canonical(bs) && k < m <= |bs|
    ensures bs == bs[..k] + (bs[k..m] + bs[m..])
    ensures Fits(bs[..k], bs[k..m], bs[m..], bs[k].addr, End(bs[m - 1]))
  {
    hide Canonical;
    GapsAround(bs, k, m);
    SlicesCanonical(bs, k, m);
    LastAbove(bs[k..m]);
    FitsIs(bs[..k], bs[k..m], bs[m..], bs[k].addr, End(bs[m - 1]));
  }

  lemma FitsIs(pre: seq<Block>, mid: seq<Block>, post: seq<Block>, lo: nat, hi: nat)
    requires Canonical(pre) && Canonical(mid) && Canonical(post) && lo <= hi
    requires pre != [] ==> End(pre[|pre| - 1]) < lo
    requires post != [] ==> hi < post[0].addr
    requires mid != [] ==> lo <= mid[0].addr && End(mid[|mid| - 1]) <= hi
    ensures Fits(pre, mid, post, lo, hi)
  {
  }

  lemma FitsReplaced(pre: seq<Block>, mid: seq<Block>, mid': seq<Block>, post: seq<Block>, lo: nat, hi: nat)
    requires Fits(pre, mid, post, lo, hi) && Canonical(mid')
    requires mid' != [] ==> lo <= mid'[0].addr && End(mid'[|mid'| - 1]) <= hi
    ensures Fits(pre, mid', post, lo, hi)
  {
  }

  /** What `kmalloc` hands out plus what it leaves is what there was, and the list stays canonical. */
  lemma MallocConserves(bs: seq<Block>, need: nat)
    requires Canonical(bs) && need > 0 && MallocAt(bs, need) != NULL
    ensures Canonical(MallocRest(bs, need))
    ensures Bytes(MallocRest(bs, need)) + BytesOf(Block(MallocAt(bs, need), need)) == Bytes(bs)
    ensures Bytes(MallocRest(bs, need)) !! BytesOf(Block(MallocAt(bs, need), need))
  {
    hide Canonical, Bytes, MallocRest, BytesOf, Split;
    var k := FirstFit(bs, need);
    FirstFitIsFirst(bs, need);
    MallocRestIs(bs, need);
    AroundBlock(bs, k, k + 1);
    assert bs[k..k + 1] == [bs[k]];
    SplitConserves(bs[..k], bs[k], bs[k + 1..], need);
  }

  lemma SplitConserves(pre: seq<Block>, b: Block, post: seq<Block>, need: nat)
    requires Fits(pre, [b], post, b.addr, End(b)) && 0 < need <= b.len
    ensures var was, rest := pre + ([b] + post), pre + (Split(b, need) + post);
      Canonical(rest) && Bytes(rest) + BytesOf(Block(b.addr, need)) == Bytes(was) && Bytes(rest) !! BytesOf(Block(b.addr, need))
  {
    hide Canonical, Bytes, Fits, BytesOf;
    SplitIs(b, need);
    Splice(pre, [b], post, b.addr, End(b));
    FitsReplaced(pre, [b], Split(b, need), post, b.addr, End(b));
    Splice(pre, Split(b, need), post, b.addr, End(b));
    SetSplit(Bytes(pre) + Bytes(post), BytesOf(b), Bytes(Split(b, need)), BytesOf(Block(b.addr, need)));
  }

  lemma SetSplit(around: set<int>, whole: set<int>, kept: set<int>, taken: set<int>)
    requires around !! whole && kept + taken == whole && kept !! taken
    ensures (around + kept) !! taken && around + kept + taken == around + whole
  {
  }

  lemma SplitIs(b: Block, need: nat)
    requires 0 < need <= b.len
    ensures Canonical(Split(b, need)) && Bytes([b]) == BytesOf(b) && BytesOf(b) == Interval(b.addr, End(b))
    ensures Split(b, need) != [] ==> b.addr <= Split(b, need)[0].addr && End(Split(b, need)[|Split(b, need)| - 1]) <= End(b)
    ensures Bytes(Split(b, need)) + BytesOf(Block(b.addr, need)) == BytesOf(b)
    ensures Bytes(Split(b, need)) !! BytesOf(Block(b.addr, need))
  {
  }

  // ---------- kfree

  /** Position of the first block above address `a`, `|bs|` if there is none. */
  ghost function Above(bs: seq<Block>, a: nat): (k: nat)
    ensures k <= |bs|
  {
    if bs == [] || bs[0].addr > a then 0 else 1 + Above(bs[1..], a)
  }

  /** The blocks that replace `left` and `right` when `b` is freed between them. */
  ghost function Merged(left: Block, b: Block, right: Block): seq<Block> {
    if End(left) == b.addr && End(b) == right.addr then [Block(left.addr, left.len + b.len + right.len)]
    else if End(left) == b.addr then [Block(left.addr, left.len + b.len), right]
    else if End(b) == right.addr then [left, Block(b.addr, b.len + right.len)]
    else [left, b, right]
  }

  /** What the source finds behind its unassigned pointer: some number, or no readable memory. */
  datatype Stray = Size(n: u32) | Unreadable

  /** `b` lies below every free block and touches the first one: the branch that uses the unassigned pointer. */
  ghost predicate TouchesFirst(bs: seq<Block>, b: Block) {
    Above(bs, b.addr) == 0 && bs != [] && End(b) == bs[0].addr
  }

  /** Without a free block above the freed one the source goes through a null pointer. */
  ghost predicate FreeFaults(bs: seq<Block>, b: Block, stray: Stray) {
    Above(bs, b.addr) == |bs| || (TouchesFirst(bs, b) && stray == Unreadable)
  }

  /** The list `kfree` leaves, or has when it faults. */
  ghost function FreeRest(bs: seq<Block>, b: Block, stray: Stray): seq<Block> {
    var j := Above(bs, b.addr);
    if j == |bs| then bs
    else if j > 0 then bs[..j - 1] + (Merged(bs[j - 1], b, bs[j]) + bs[j + 1..])
    else if End(b) != bs[0].addr then [b] + bs
    else if stray == Unreadable then bs[1..]
    else [Block(b.addr, (b.len + stray.n) % U32)] + bs[1..]
  }

  /** The condition under which `kfree` does its job for one value behind the pointer. */
  ghost predicate FreeSafe(bs: seq<Block>, b: Block, stray: Stray) {
    && (exists i :: 0 <= i < |bs| && bs[i].addr > b.addr)
    && (bs[0].addr == End(b) ==> stray.Size? && stray.n == bs[0].len)
  }

  /** What a caller can check: some free block lies above, and the block does not touch the first one from below. */
  ghost predicate FreeCertain(bs: seq<Block>, b: Block) {
    (exists i :: 0 <= i < |bs| && bs[i].addr > b.addr) && bs[0].addr != End(b)
  }

  /** A block that can be freed: allocated, inside the arena's addresses, and not free already. */
  ghost predicate Freeable(bs: seq<Block>, b: Block) {
    b.addr != NULL && b.len > 0 && End(b) <= U32 && BytesOf(b) !! Bytes(bs) && forall i :: 0 <= i < |bs| ==> End(bs[i]) <= U32
  }

  lemma {:induction false} AboveIs(bs: seq<Block>, a: nat)
    ensures var j := Above(bs, a);
      (forall i :: 0 <= i < j ==> bs[i].addr <= a) && (j < |bs| ==> bs[j].addr > a)
  {
    if bs != [] && bs[0].addr <= a {
      AboveIs(bs[1..], a);
    }
  }

  lemma {:induction false} AboveIsLast(bs: seq<Block>, a: nat)
    requires Canonical(bs)
    ensures Above(bs, a) < |bs| <==> exists i :: 0 <= i < |bs| && bs[i].addr > a
  {
    AboveIs(bs, a);
    var j := Above(bs, a);
    if j == |bs| {
      assert forall i :: 0 <= i < |bs| ==> bs[i].addr <= a;
    }
  }

  lemma BlockBytes(bs: seq<Block>, i: nat)
    requires Canonical(bs) && i < |bs|
    ensures BytesOf(bs[i]) <= Bytes(bs)
  {
    hide Canonical;
    AroundBlock(bs, i, i + 1);
    assert bs[i..i + 1] == [bs[i]];
    Splice(bs[..i], [bs[i]], bs[i + 1..], bs[i].addr, End(bs[i]));
  }

  /** A block that is not free lies in the gap between its neighbours. */
  lemma InGap(bs: seq<Block>, b: Block)
    requires Canonical(bs) && Freeable(bs, b)
    ensures b.len > 0
    ensures var j := Above(bs, b.addr);
      && (j > 0 ==> bs[j - 1].len > 0 && End(bs[j - 1]) <= b.addr)
      && (j < |bs| ==> bs[j].len > 0 && End(b) <= bs[j].addr)
  {
    AboveIs(bs, b.addr);
    var j := Above(bs, b.addr);
    assert b.addr in BytesOf(b);
    if j > 0 {
      BlockBytes(bs, j - 1);
    }
    if j < |bs| {
      BlockBytes(bs, j);
      assert bs[j].addr in BytesOf(bs[j]);
    }
  }

  lemma MergedIs(left: Block, b: Block, right: Block)
    requires left.len > 0 && b.len > 0 && right.len > 0
    requires End(left) <= b.addr && End(b) <= right.addr
    ensures Canonical(Merged(left, b, right))
    ensures Bytes(Merged(left, b, right)) == BytesOf(left) + BytesOf(b) + BytesOf(right)
    ensures Merged(left, b, right)[0].addr == left.addr
    ensures End(Merged(left, b, right)[|Merged(left, b, right)| - 1]) == End(right)
  {
    var m := Merged(left, b, right);
    if |m| == 2 {
      BytesOfTwo(m[0], m[1]);
    } else if |m| == 3 {
      assert m == [left] + [b, right];
      BytesConcat([left], [b, right]);
      BytesOfTwo(b, right);
    }
  }

  lemma BytesOfOne(b: Block)
    ensures Bytes([b]) == BytesOf(b)
  {
  }

  lemma BytesOfTwo(a: Block, b: Block)
    ensures Bytes([a, b]) == BytesOf(a) + BytesOf(b)
  {
    assert [a, b] == [a] + [b];
    BytesConcat([a], [b]);
  }

  lemma FreeBetween(bs: seq<Block>, b: Block, stray: Stray)
    requires Canonical(bs) && Freeable(bs, b) && 0 < Above(bs, b.addr) < |bs|
    ensures Canonical(FreeRest(bs, b, stray))
    ensures Bytes(FreeRest(bs, b, stray)) == Bytes(bs) + BytesOf(b)
  {
    hide Canonical, Bytes, Merged, Fits, Freeable;
    var j := Above(bs, b.addr);
    InGap(bs, b);
    var l, r := bs[j - 1], bs[j];
    AroundBlock(bs, j - 1, j + 1);
    MergedIs(l, b, r);
    assert bs[j - 1..j + 1] == [l, r];
    BytesOfTwo(l, r);
    Splice(bs[..j - 1], [l, r], bs[j + 1..], l.addr, End(r));
    FitsReplaced(bs[..j - 1], [l, r], Merged(l, b, r), bs[j + 1..], l.addr, End(r));
    Splice(bs[..j - 1], Merged(l, b, r), bs[j + 1..], l.addr, End(r));
  }

  lemma GrownInFront(bs: seq<Block>, b: Block, len: nat)
    requires Canonical(bs) && bs != [] && 0 < b.len && End(b) == bs[0].addr
    ensures var grown := [Block(b.addr, len)] + bs[1..];
      && (Bytes(grown) == Bytes(bs) + BytesOf(b) <==> len == b.len + bs[0].len)
      && (len == b.len + bs[0].len ==> Canonical(grown))
  {
    hide Bytes;
    var first, g := bs[0], Block(b.addr, len);
    RestOfCanonical(bs);
    BytesOfOne(g);
    BytesConcat([g], bs[1..]);
    CanonicalConcat([g], bs[1..]);
    CanonicalConcat([first], bs[1..]);
    assert bs == [first] + bs[1..];
    if len < b.len + first.len {
      assert End(g) !in BytesOf(g) + Bytes(bs[1..]);
      assert End(g) in BytesOf(b) + BytesOf(first);
    } else if len > b.len + first.len {
      assert End(first) in BytesOf(g);
    }
  }

  lemma FreeInFront(bs: seq<Block>, b: Block, stray: Stray)
    requires Canonical(bs) && Freeable(bs, b) && bs != [] && Above(bs, b.addr) == 0
    ensures Bytes(FreeRest(bs, b, stray)) == Bytes(bs) + BytesOf(b) <==>
            (End(b) == bs[0].addr ==> stray.Size? && stray.n == bs[0].len)
    ensures (End(b) == bs[0].addr ==> stray.Size? && stray.n == bs[0].len) ==> Canonical(FreeRest(bs, b, stray))
  {
    hide Bytes;
    InGap(bs, b);
    if End(b) == bs[0].addr {
      assert End(bs[0]) <= U32;
      if stray == Unreadable {
        FirstIsNotRest(bs);
      } else {
        GrownInFront(bs, b, (b.len + stray.n) % U32);
      }
    } else {
      BytesOfOne(b);
      BytesConcat([b], bs);
      CanonicalConcat([b], bs);
    }
  }

  lemma FirstIsNotRest(bs: seq<Block>)
    requires Canonical(bs) && bs != []
    ensures bs[0].addr in Bytes(bs) && bs[0].addr !in Bytes(bs[1..])
  {
    RestOfCanonical(bs);
    assert bs[0].addr in BytesOf(bs[0]);
  }

  /** For one value behind the unassigned pointer, `kfree` gives the block's bytes back exactly under `FreeSafe`. */
  lemma FreeWithStray(bs: seq<Block>, b: Block, stray: Stray)
    requires Canonical(bs) && Freeable(bs, b)
    ensures FreeFaults(bs, b, stray) <==> (forall i :: 0 <= i < |bs| ==> bs[i].addr <= b.addr) || (TouchesFirst(bs, b) && stray == Unreadable)
    ensures FreeSafe(bs, b, stray) <==>
      !FreeFaults(bs, b, stray) && Bytes(FreeRest(bs, b, stray)) == Bytes(bs) + BytesOf(b)
    ensures FreeSafe(bs, b, stray) ==> Canonical(FreeRest(bs, b, stray))
  {
    hide Bytes;
    AboveIsLast(bs, b.addr);
    AboveIs(bs, b.addr);
    var j := Above(bs, b.addr);
    if j == 0 && bs != [] {
      FreeInFront(bs, b, stray);
    } else if j < |bs| {
      FreeBetween(bs, b, stray);
      InGap(bs, b);
      assert bs[0].addr <= b.addr;
    }
  }

  /** `kfree` does its job with this value behind the pointer. */
  ghost predicate Frees(bs: seq<Block>, b: Block, stray: Stray) {
    !FreeFaults(bs, b, stray) && Bytes(FreeRest(bs, b, stray)) == Bytes(bs) + BytesOf(b)
  }

  /**
    `kfree` gives the block's bytes back, whatever lies behind the unassigned pointer, if and only if some
    free block lies above and the block does not touch the first one from below.
   */
  lemma FreeExact(bs: seq<Block>, b: Block)
    requires Canonical(bs) && Freeable(bs, b)
    ensures (forall stray :: Frees(bs, b, stray)) <==> FreeCertain(bs, b)
    ensures FreeCertain(bs, b) ==> forall stray :: Canonical(FreeRest(bs, b, stray))
  {
    hide Canonical, Bytes, FreeFaults, FreeRest;
    forall stray
      ensures Frees(bs, b, stray) <==> FreeSafe(bs, b, stray)
      ensures FreeSafe(bs, b, stray) ==> Canonical(FreeRest(bs, b, stray))
    {
      FreeWithStray(bs, b, stray);
    }
    if forall stray :: Frees(bs, b, stray) {
      assert Frees(bs, b, Unreadable);
    }
  }

  /** The last free block is handed out whole and freed again: nothing free lies above it. */
  lemma FreeFaultExample()
    ensures var bs := [Block(16, 8)];
      MallocAt(bs, 8) == 16 && MallocRest(bs, 8) == [] && FreeFaults(MallocRest(bs, 8), Block(16, 8), Unreadable)
  {
    assert FirstFit([Block(16, 8)], 8) == 0;
  }

  /** A block freed right below the first free one, with zero in the unassigned pointer's place: eight bytes are gone. */
  lemma StrayExample()
    ensures FreeRest([Block(16, 8)], Block(8, 8), Size(0)) == [Block(8, 8)] && 16 !in Bytes([Block(8, 8)])
  {
    assert Above([Block(16, 8)], 8) == 0;
    BytesOfOne(Block(8, 8));
  }

  /** Freeing the block `b` again leaves the list `bs`. */
  ghost predicate Restores(rest: seq<Block>, b: Block, stray: Stray, bs: seq<Block>) {
    !FreeFaults(rest, b, stray) && FreeRest(rest, b, stray) == bs
  }

  /**
    Freeing a block just handed out restores the very same free list, whatever lies behind the unassigned
    pointer, if and only if the block is certain to be freed; for one value, if and only if that free is safe.
   */
  lemma MallocFreeRoundTrip(bs: seq<Block>, need: nat)
    requires Canonical(bs) && need > 0 && MallocAt(bs, need) != NULL
    requires forall i :: 0 <= i < |bs| ==> End(bs[i]) <= U32
    ensures var b, rest := Block(MallocAt(bs, need), need), MallocRest(bs, need);
      && (forall stray :: Restores(rest, b, stray, bs) <==> FreeSafe(rest, b, stray))
      && ((forall stray :: Restores(rest, b, stray, bs)) <==> FreeCertain(rest, b))
  {
    hide Canonical, Bytes, FreeFaults, FreeRest, MallocRest, MallocAt, Freeable;
    var b, rest := Block(MallocAt(bs, need), need), MallocRest(bs, need);
    MallocConserves(bs, need);
    MallocFreeable(bs, need);
    forall stray
      ensures Restores(rest, b, stray, bs) <==> FreeSafe(rest, b, stray)
    {
      FreeWithStray(rest, b, stray);
      if FreeSafe(rest, b, stray) {
        CanonicalUnique(FreeRest(rest, b, stray), bs);
      }
    }
    if forall stray :: Restores(rest, b, stray, bs) {
      assert Restores(rest, b, Unreadable, bs);
    }
  }

  lemma MallocFreeable(bs: seq<Block>, need: nat)
    requires Canonical(bs) && need > 0 && MallocAt(bs, need) != NULL
    requires forall i :: 0 <= i < |bs| ==> End(bs[i]) <= U32
    ensures Freeable(MallocRest(bs, need), Block(MallocAt(bs, need), need))
  {
    MallocConserves(bs, need);
    FirstFitIsFirst(bs, need);
    MallocRestIs(bs, need);
  }

  /** Two blocks freed in either order leave the same list. */
  lemma FreesCommute(bs: seq<Block>, a: Block, b: Block, s: Stray, s': Stray, t: Stray, t': Stray)
    requires Canonical(bs) && Freeable(bs, a) && Freeable(bs, b) && BytesOf(a) !! BytesOf(b)
    requires FreeSafe(bs, a, s) && FreeSafe(FreeRest(bs, a, s), b, s')
    requires FreeSafe(bs, b, t) && FreeSafe(FreeRest(bs, b, t), a, t')
    ensures FreeRest(FreeRest(bs, a, s), b, s') == FreeRest(FreeRest(bs, b, t), a, t')
  {
    hide Canonical, FreeRest, FreeSafe;
    FreeWithStray(bs, a, s);
    FreeWithStray(bs, b, t);
    var x, y := FreeRest(bs, a, s), FreeRest(bs, b, t);
    FreeKeepsBounds(bs, a, s);
    FreeKeepsBounds(bs, b, t);
    FreeWithStray(x, b, s');
    FreeWithStray(y, a, t');
    CanonicalUnique(FreeRest(x, b, s'), FreeRest(y, a, t'));
  }

  lemma FreeKeepsBounds(bs: seq<Block>, b: Block, stray: Stray)
    requires Canonical(bs) && Freeable(bs, b) && FreeSafe(bs, b, stray)
    ensures forall i :: 0 <= i < |FreeRest(bs, b, stray)| ==> End(FreeRest(bs, b, stray)[i]) <= U32
  {
    FreeWithStray(bs, b, stray);
    var r := FreeRest(bs, b, stray);
    BoundedBytes(bs);
    forall i | 0 <= i < |r|
      ensures End(r[i]) <= U32
    {
      BlockBytes(r, i);
      assert End(r[i]) - 1 in BytesOf(r[i]);
    }
  }

  lemma {:induction false} BoundedBytes(bs: seq<Block>)
    requires forall i :: 0 <= i < |bs| ==> End(bs[i]) <= U32
    ensures forall x :: x in Bytes(bs) ==> x < U32
  {
    if bs != [] {
      BoundedBytes(bs[1..]);
    }
  }

  // ---------- runs of kmalloc and kfree

  datatype Heap = Heap(free: seq<Block>, live: seq<Block>)

  datatype Op = Malloc(n: u32) | Release(i: nat, stray: Stray)

  ghost predicate Apart(bs: seq<Block>) {
    bs == [] || (BytesOf(bs[0]) !! Bytes(bs[1..]) && Apart(bs[1..]))
  }

  /** 8-aligned, with room for an 8-byte list node. */
  ghost predicate Aligned(b: Block) {
    b.addr != NULL && b.addr % 8 == 0 && b.len % 8 == 0 && b.len >= 8 && End(b) <= U32
  }

  ghost predicate AllAligned(bs: seq<Block>) {
    forall i :: 0 <= i < |bs| ==> Aligned(bs[i])
  }

  /** Every live block's size fits the 16-bit header. */
  ghost predicate HeadersFit(bs: seq<Block>) {
    forall i :: 0 <= i < |bs| ==> bs[i].len < 0x1_0000
  }

  /** Free and live blocks tile the arena that starts at `base`. */
  ghost predicate Tiled(h: Heap, base: nat) {
    && Canonical(h.free) && AllAligned(h.free) && AllAligned(h.live) && HeadersFit(h.live)
    && Apart(h.live) && Bytes(h.free) !! Bytes(h.live)
    && Bytes(h.free) + Bytes(h.live) == Interval(base, base + ARENA)
  }

  /** Requests the size check lets through unwrapped; frees of live blocks that `kfree` handles. */
  ghost predicate Legal(h: Heap, op: Op) {
    match op
    case Malloc(n) => 0 < Need(n) < LIMIT
    case Release(i, stray) => i < |h.live| && FreeSafe(h.free, h.live[i], stray)
  }

  ghost function Step(h: Heap, op: Op): Heap
    requires Legal(h, op)
  {
    match op
    case Malloc(n) =>
      if MallocAt(h.free, Need(n)) == NULL then h
      else Heap(MallocRest(h.free, Need(n)), h.live + [Block(MallocAt(h.free, Need(n)), Need(n))])
    case Release(i, stray) => Heap(FreeRest(h.free, h.live[i], stray), Removed(h.live, i))
  }

  ghost predicate LegalRun(h: Heap, ops: seq<Op>)
    decreases |ops|
  {
    ops == [] || (Legal(h, ops[0]) && LegalRun(Step(h, ops[0]), ops[1..]))
  }

  ghost function Run(h: Heap, ops: seq<Op>): Heap
    requires LegalRun(h, ops)
    decreases |ops|
  {
    if ops == [] then h else Run(Step(h, ops[0]), ops[1..])
  }

  lemma {:induction false} ApartConcat(s: seq<Block>, t: seq<Block>)
    ensures Apart(s + t) <==> Apart(s) && Apart(t) && Bytes(s) !! Bytes(t)
  {
    if s == [] {
      assert s + t == t;
    } else {
      assert (s + t)[1..] == s[1..] + t;
      ApartConcat(s[1..], t);
      BytesConcat(s[1..], t);
    }
  }

  lemma LiveRemoved(live: seq<Block>, i: nat)
    requires Apart(live) && i < |live|
    ensures Apart(Removed(live, i)) && Bytes(Removed(live, i)) == Bytes(live) - BytesOf(live[i])
    ensures BytesOf(live[i]) <= Bytes(live)
  {
    hide Apart, Bytes;
    var pre, b, post := live[..i], live[i], live[i + 1..];
    assert live == pre + ([b] + post);
    ApartConcat(pre, [b] + post);
    ApartConcat([b], post);
    ApartConcat(pre, post);
    BytesConcat(pre, [b] + post);
    BytesConcat([b], post);
    BytesConcat(pre, post);
    BytesOfOne(b);
  }

  lemma LiveAdded(live: seq<Block>, b: Block)
    requires Apart(live) && Bytes(live) !! BytesOf(b)
    ensures Apart(live + [b]) && Bytes(live + [b]) == Bytes(live) + BytesOf(b)
  {
    ApartConcat(live, [b]);
    BytesConcat(live, [b]);
    BytesOfOne(b);
  }

  lemma MallocAligned(bs: seq<Block>, need: nat)
    requires AllAligned(bs) && need % 8 == 0 && need >= 8 && MallocAt(bs, need) != NULL
    ensures AllAligned(MallocRest(bs, need)) && Aligned(Block(MallocAt(bs, need), need))
  {
    hide MallocRest;
    var k := FirstFit(bs, need);
    FirstFitIsFirst(bs, need);
    MallocRestIs(bs, need);
    AlignedConcat(Split(bs[k], need), bs[k + 1..]);
    AlignedConcat(bs[..k], Split(bs[k], need) + bs[k + 1..]);
  }

  lemma AlignedConcat(s: seq<Block>, t: seq<Block>)
    requires AllAligned(s) && AllAligned(t)
    ensures AllAligned(s + t)
  {
  }

  lemma MergedAligned(left: Block, b: Block, right: Block)
    requires Aligned(left) && Aligned(b) && Aligned(right) && left.addr < b.addr < right.addr
    ensures AllAligned(Merged(left, b, right))
  {
  }

  lemma AlignedInFront(bs: seq<Block>, b: Block, stray: Stray)
    requires AllAligned(bs) && Aligned(b) && bs != [] && End(bs[0]) <= U32 && Above(bs, b.addr) == 0
    requires FreeSafe(bs, b, stray) && b.addr < bs[0].addr
    ensures AllAligned(FreeRest(bs, b, stray))
  {
    hide AllAligned, Aligned, FreeSafe;
    AlignedOne(b);
    FrontRest(bs, b, stray);
    AlignedConcat([b], bs);
    if End(b) == bs[0].addr {
      AlignedJoin(bs, b);
      AlignedConcat([Block(b.addr, b.len + bs[0].len)], bs[1..]);
    }
  }

  lemma FrontRest(bs: seq<Block>, b: Block, stray: Stray)
    requires bs != [] && End(bs[0]) <= U32 && Above(bs, b.addr) == 0 && FreeSafe(bs, b, stray) && 0 < b.addr < bs[0].addr
    ensures FreeRest(bs, b, stray) ==
      if End(b) == bs[0].addr then [Block(b.addr, b.len + bs[0].len)] + bs[1..] else [b] + bs
  {
  }

  lemma AlignedOne(b: Block)
    requires Aligned(b)
    ensures AllAligned([b]) && b.addr != NULL
  {
  }

  lemma AlignedJoin(bs: seq<Block>, b: Block)
    requires AllAligned(bs) && Aligned(b) && bs != [] && End(b) == bs[0].addr
    ensures AllAligned([Block(b.addr, b.len + bs[0].len)]) && AllAligned(bs[1..])
  {
    assert Aligned(bs[0]);
    JoinAligned(b, bs[0]);
    assert forall i :: 0 <= i < |bs| - 1 ==> bs[1..][i] == bs[i + 1];
  }

  lemma JoinAligned(b: Block, c: Block)
    requires Aligned(b) && Aligned(c) && End(b) == c.addr
    ensures AllAligned([Block(b.addr, b.len + c.len)])
  {
  }

  lemma FreeAligned(bs: seq<Block>, b: Block, stray: Stray)
    requires Canonical(bs) && AllAligned(bs) && Aligned(b) && Freeable(bs, b) && FreeSafe(bs, b, stray)
    ensures AllAligned(FreeRest(bs, b, stray))
  {
    hide Canonical, Bytes, Merged;
    InGap(bs, b);
    AboveIs(bs, b.addr);
    var j := Above(bs, b.addr);
    if j == 0 {
      AlignedConcat([b], bs);
      AlignedInFront(bs, b, stray);
    } else if j < |bs| {
      var m := Merged(bs[j - 1], b, bs[j]);
      MergedAligned(bs[j - 1], b, bs[j]);
      AlignedConcat(m, bs[j + 1..]);
      AlignedConcat(bs[..j - 1], m + bs[j + 1..]);
    }
  }

  lemma StepTiles(h: Heap, op: Op, base: nat)
    requires Tiled(h, base) && Legal(h, op)
    ensures Tiled(Step(h, op), base)
  {
    hide Canonical, Bytes, Apart, MallocRest, FreeRest, FreeSafe;
    match op
    case Malloc(n) =>
      NeedIsHonest(n);
      if MallocAt(h.free, Need(n)) != NULL {
        MallocConserves(h.free, Need(n));
        MallocAligned(h.free, Need(n));
        LiveAdded(h.live, Block(MallocAt(h.free, Need(n)), Need(n)));
      }
    case Release(i, stray) =>
      var b := h.live[i];
      LiveRemoved(h.live, i);
      assert Freeable(h.free, b);
      FreeWithStray(h.free, b, stray);
      FreeAligned(h.free, b, stray);
  }

  /** Over every legal run the arena stays exactly tiled by free and live blocks. */
  lemma {:induction false} RunTiles(h: Heap, ops: seq<Op>, base: nat)
    requires Tiled(h, base) && LegalRun(h, ops)
    ensures Tiled(Run(h, ops), base)
    decreases |ops|
  {
    if ops != [] {
      StepTiles(h, ops[0], base);
      RunTiles(Step(h, ops[0]), ops[1..], base);
    }
  }

  /** The heap as `init_mem` sets it up: one free block. */
  lemma FreshHeapTiles(base: nat)
    requires base % 8 == 0 && base > 0 && base + ARENA <= U32
    ensures Tiled(Heap([Block(base, ARENA)], []), base)
  {
    BytesOfOne(Block(base, ARENA));
  }

  // ---------- the heap on the intrusive list

  lemma {:induction false} AboveFound(bs: seq<Block>, a: nat, j: nat)
    requires j <= |bs| && (forall i :: 0 <= i < j ==> bs[i].addr <= a) && (j < |bs| ==> bs[j].addr > a)
    ensures Above(bs, a) == j
  {
    AboveIs(bs, a);
  }

  lemma MergeOnList(bs: seq<Block>, i: nat, b: Block)
    requires i + 1 < |bs|
    ensures var l, r := bs[i], bs[i + 1];
      bs[..i] + (Merged(l, b, r) + bs[i + 2..]) ==
      if End(l) == b.addr && End(b) == r.addr then
        Removed(bs[i := Block(l.addr, l.len + b.len)], i + 1)[i := Block(l.addr, l.len + b.len + r.len)]
      else if End(l) == b.addr then bs[i := Block(l.addr, l.len + b.len)]
      else if End(b) == r.addr then Removed(Inserted(bs, i + 1, b), i + 2)[i + 1 := Block(b.addr, b.len + r.len)]
      else Inserted(bs, i + 1, b)
  {
  }

  lemma NotListed(s: seq<Ptr>, word: map<Ptr, nat>, b: Block)
    requires Canonical(BlocksOf(s, word)) && Freeable(BlocksOf(s, word), b)
    ensures b.addr !in s
  {
    var bs := BlocksOf(s, word);
    forall i | 0 <= i < |s|
      ensures s[i] != b.addr
    {
      BlockBytes(bs, i);
      assert s[i] in BytesOf(bs[i]) && b.addr in BytesOf(b);
    }
  }

  lemma {:induction false} Ordered(bs: seq<Block>, i: nat, j: nat)
    requires Canonical(bs) && i < j < |bs|
    ensures End(bs[i]) < bs[j].addr
  {
    if i + 1 < j {
      Ordered(bs, i, j - 1);
    }
  }

  lemma SplitNotListed(s: seq<Ptr>, word: map<Ptr, nat>, k: nat, sz: nat)
    requires Canonical(BlocksOf(s, word)) && k < |s| && 0 < sz < BlocksOf(s, word)[k].len
    ensures s[k] + sz !in s
  {
    var bs := BlocksOf(s, word);
    forall i | 0 <= i < |s|
      ensures s[i] != s[k] + sz
    {
      if i < k {
        Ordered(bs, i, k);
      } else if k < i {
        Ordered(bs, k, i);
      }
      assert bs[i].addr == s[i];
    }
  }

  lemma InsertedKeeps<T>(s: seq<T>, k: nat, x: T)
    requires k < |s|
    ensures |Inserted(s, k + 1, x)| == |s| + 1 && Inserted(s, k + 1, x)[k] == s[k]
    ensures Inserted(s, k + 1, x)[k + 1] == x && (k + 1 < |s| ==> Inserted(s, k + 1, x)[k + 2] == s[k + 1])
    ensures k + 1 < |s| ==> |Removed(s, k + 1)| > k && Removed(s, k + 1)[k] == s[k]
    ensures Removed(Inserted(s, k + 1, x), k) == s[k := x] && s[k := x][k] == x
  {
  }

  lemma RemovedSubset(s: seq<Ptr>, k: nat, x: Ptr)
    requires k < |s| && x !in s
    ensures x !in Removed(s, k)
  {
  }

  lemma RemovedNotListed(s: seq<Ptr>, k: nat)
    requires Nodes(s) && k < |s|
    ensures s[k] !in Removed(s, k)
  {
  }

  ghost predicate AllIn(s: seq<Ptr>, word: map<Ptr, nat>) {
    forall i :: 0 <= i < |s| ==> s[i] in word
  }

  lemma AllInInserted(s: seq<Ptr>, word: map<Ptr, nat>, k: nat, x: Ptr)
    requires AllIn(s, word) && x in word && k <= |s|
    ensures AllIn(Inserted(s, k, x), word)
  {
  }

  lemma AllInGrows(s: seq<Ptr>, word: map<Ptr, nat>, x: Ptr, w: nat)
    requires AllIn(s, word)
    ensures AllIn(s, word[x := w])
  {
  }

  lemma AllInRemoved(s: seq<Ptr>, word: map<Ptr, nat>, k: nat)
    requires AllIn(s, word) && k < |s|
    ensures AllIn(Removed(s, k), word)
  {
  }

  lemma BlockAt(s: seq<Ptr>, word: map<Ptr, nat>, k: nat)
    requires AllIn(s, word) && k < |s|
    ensures s[k] in word && |BlocksOf(s, word)| == |s| && BlocksOf(s, word)[k] == Block(s[k], word[s[k]])
  {
  }

  lemma FreeRestBetween(bs: seq<Block>, k: nat, b: Block, stray: Stray)
    requires Above(bs, b.addr) == k + 1 && k + 1 < |bs|
    ensures var l, r, rest := bs[k], bs[k + 1], FreeRest(bs, b, stray);
      rest ==
      if End(l) == b.addr && End(b) == r.addr then
        Removed(bs[k := Block(l.addr, l.len + b.len)], k + 1)[k := Block(l.addr, l.len + b.len + r.len)]
      else if End(l) == b.addr then bs[k := Block(l.addr, l.len + b.len)]
      else if End(b) == r.addr then Removed(Inserted(bs, k + 1, b), k + 2)[k + 1 := Block(b.addr, b.len + r.len)]
      else Inserted(bs, k + 1, b)
  {
    MergeOnList(bs, k, b);
  }

  lemma FreeRestInFront(s: seq<Ptr>, word: map<Ptr, nat>, p: Ptr, stray: Stray)
    requires AllIn(s, word) && s != [] && p < s[0] && p in word
    ensures var bs := BlocksOf(s, word);
      FreeRest(bs, Block(p, word[p]), stray) ==
      if p + word[p] != s[0] then [Block(p, word[p])] + bs
      else if stray == Unreadable then Removed(bs, 0)
      else [Block(p, (word[p] + stray.n) % U32)] + Removed(bs, 0)
  {
    var bs := BlocksOf(s, word);
    AboveFound(bs, p, 0);
    assert Removed(bs, 0) == bs[1..];
  }

  lemma FreeableNotNull(bs: seq<Block>, b: Block)
    requires Freeable(bs, b)
    ensures b.addr != NULL
  {
  }

  lemma NothingAbove(bs: seq<Block>, b: Block, stray: Stray)
    ensures Above(bs, b.addr) == |bs| ==> FreeFaults(bs, b, stray) && FreeRest(bs, b, stray) == bs
  {
  }

  lemma FaultInFront(bs: seq<Block>, b: Block, stray: Stray)
    requires bs != [] && Above(bs, b.addr) == 0
    ensures FreeFaults(bs, b, stray) <==> End(b) == bs[0].addr && stray == Unreadable
  {
  }

  lemma FaultBetween(bs: seq<Block>, b: Block, stray: Stray)
    requires 0 < Above(bs, b.addr) < |bs|
    ensures !FreeFaults(bs, b, stray)
  {
  }

  lemma ZeroFitsFirst(s: seq<Ptr>, word: map<Ptr, nat>)
    requires s != [] && AllIn(s, word) && Canonical(BlocksOf(s, word))
    ensures FirstFit(BlocksOf(s, word), 0) == 0 && MallocAt(BlocksOf(s, word), 0) == s[0]
    ensures s[0] in word && word[s[0]] > 0
  {
    BlockAt(s, word, 0);
  }

  /** A first node linked to itself belongs to no list of nodes. */
  lemma KnotIsNoList(s: seq<Ptr>, first: Ptr, next: map<Ptr, Ptr>)
    requires first != NULL && first in next && next[first] == first
    ensures !(Nodes(s) && ForwardLinked(s, first, next))
  {
    if Nodes(s) && ForwardLinked(s, first, next) {
      ForwardAt(s, first, next, 0);
    }
  }

  /** The 16-bit header in a block's first word. */
  function Header(w: nat): nat {
    w % 0x1_0000
  }

  class KernelHeap {
    const heap: SinglyLinkedList
    /** The first word of every block: the size of a free block; the low half is the header of a live one. */
    var word: map<Ptr, nat>

    ghost predicate Listed()
      reads this, heap
    {
      heap.Valid() && AllIn(heap.elems, word)
    }

    ghost predicate Valid()
      reads this, heap
    {
      Listed() && Canonical(Free())
    }

    ghost function Free(): seq<Block>
      reads this, heap
    {
      BlocksOf(heap.elems, word)
    }

    /** One free block, as `init_mem` starts the heap. */
    constructor (base: Ptr)
      requires base != NULL
      ensures Valid() && fresh(heap) && Free() == [Block(base, ARENA)]
    {
      var list := new SinglyLinkedList();
      list.InsertHead(base);
      heap := list;
      word := map[base := ARENA];
    }

    lemma HeadBlock()
      requires Valid()
      ensures heap.first == NULL <==> Free() == []
      ensures heap.first == NULL <==> heap.elems == []
      ensures heap.first != NULL ==> heap.elems != [] && heap.elems[0] == heap.first && Free()[0].addr == heap.first
    {
      ForwardAt(heap.elems, heap.first, heap.next, 0);
    }

    /** The search loop of `kmalloc`. */
    method FindFit(sz: u32) returns (p: Ptr)
      requires Listed()
      ensures p == At(heap.elems, FirstFit(Free(), sz)) && (p == NULL <==> FirstFit(Free(), sz) == |Free()|)
    {
      ghost var s, bs := heap.elems, Free();
      ghost var k := 0;
      p := heap.first;
      while p != NULL
        invariant 0 <= k <= |s| && p == At(s, k)
        invariant forall j :: 0 <= j < k ==> bs[j].len < sz
        decreases |s| - k
      {
        assert heap.next[s[k]] == At(s, k + 1) && bs[k] == Block(p, word[p]);
        if word[p] >= sz {
          break;
        }
        p := heap.next[p];
        k := k + 1;
      }
      assert p == NULL ==> k == |s|;
      FirstFitFound(bs, sz, k);
    }

    /** Splits the free block `p` in two, the second part starting at `s`. */
    method SplitAt(p: Ptr, s: Ptr, ghost k: nat)
      requires Listed() && k < |heap.elems| && heap.elems[k] == p && p in word
      requires p < s < p + word[p] && s !in heap.elems
      modifies this`word, heap
      ensures Listed() && word == old(word)[s := p + old(word)[p] - s]
      ensures heap.elems == Inserted(old(heap.elems), k + 1, s) && k < |heap.elems| && heap.elems[k] == p
      ensures Free() == Inserted(old(Free()), k + 1, Block(s, p + old(word)[p] - s))
    {
      hide SinglyLinkedList.Valid, Inserted, BlocksOf, AllIn;
      ghost var els := heap.elems;
      BlocksOfInserted(els, word, k + 1, s, p + word[p] - s);
      word := word[s := p + word[p] - s];
      AllInGrows(els, old(word), s, word[s]);
      AllInInserted(els, word, k + 1, s);
      InsertedKeeps(els, k, s);
      heap.InsertAfter(p, s, k);
    }

    method Unlink(p: Ptr, ghost k: nat)
      requires Listed() && k < |heap.elems| && heap.elems[k] == p
      modifies heap
      ensures Listed() && heap.elems == Removed(old(heap.elems), k) && Free() == Removed(old(Free()), k)
      ensures p !in heap.elems
    {
      hide ForwardLinked, Removed, BlocksOf, AllIn;
      ghost var s := heap.elems;
      RemovedNotListed(s, k);
      BlocksOfRemoved(s, word, k);
      AllInRemoved(s, word, k);
      heap.Remove(p, k);
    }

    /** `kmalloc`. A request whose size wraps to zero leaves the list in a loop, unless it is empty. */
    method Kmalloc(n: u32) returns (aborted: bool, a: Ptr)
      requires Valid()
      modifies this, heap
      ensures aborted == (Need(n) >= LIMIT) && (Need(n) != 0 || old(Free()) == [] ==> Valid())
      ensures aborted ==> a == NULL && Free() == old(Free())
      ensures !aborted && (Need(n) != 0 || old(Free()) == []) ==> Free() == MallocRest(old(Free()), Need(n))
      ensures !aborted ==> a == (if MallocAt(old(Free()), Need(n)) == NULL then NULL else MallocAt(old(Free()), Need(n)) + 2)
      ensures Need(n) == 0 && a != NULL ==>
        heap.first == a - 2 && heap.first in heap.next && heap.next[heap.first] == heap.first && !heap.Valid()
      ensures a != NULL ==> a - 2 in word && Header(word[a - 2]) == Need(n)
      ensures forall q :: q in old(word) && q !in heap.elems && (a != NULL ==> q != a - 2) ==>
        q in word && word[q] == old(word)[q]
      ensures aborted <==> 0xFF7 <= n < 0xFFFF_FFF7
      ensures a != NULL && n < 0xFFFF_FFF7 ==>
        var sz := Header(word[a - 2]);
        && sz % 8 == 0 && n + 2 <= sz < n + 10
        && a == MallocAt(old(Free()), sz) + 2 && Free() == MallocRest(old(Free()), sz)
    {
      hide Canonical, Nodes, ForwardLinked, Removed, Inserted, Need;
      NeedIsHonest(n);
      var sz := Need(n);
      if sz >= LIMIT {
        return true, NULL;
      }
      aborted := false;
      var p := FindFit(sz);
      if p == NULL {
        return false, NULL;
      }
      if sz == 0 {
        TieKnot(p);
        a := p + 2;
        return;
      }
      TakeBlock(p, sz);
      a := p + 2;
    }

    /** The rest of `kmalloc` once a block is found: the part behind the request stays listed, the header is written. */
    method TakeBlock(p: Ptr, sz: u32)
      requires Valid() && 0 < sz < LIMIT && p != NULL && p == At(heap.elems, FirstFit(Free(), sz))
      modifies this`word, heap
      ensures Valid() && p == MallocAt(old(Free()), sz) && Free() == MallocRest(old(Free()), sz)
      ensures p in word && Header(word[p]) == sz
      ensures forall q :: q in old(word) && q !in heap.elems && q != p ==> q in word && word[q] == old(word)[q]
    {
      hide Canonical, Nodes, ForwardLinked, Removed, Inserted;
      ghost var bs, s, k := Free(), heap.elems, FirstFit(Free(), sz);
      MallocConserves(bs, sz);
      if word[p] > sz {
        var rest: Ptr := p + sz;
        SplitNotListed(s, word, k, sz);
        SplitAt(p, rest, k);
        InsertedKeeps(s, k, rest);
      }
      Unlink(p, k);
      ghost var w := word[p] / 0x1_0000 * 0x1_0000 + sz;
      HeaderOfNewBlock(heap.elems, word, p, w);
      AllInGrows(heap.elems, word, p, w);
      word := word[p := word[p] / 0x1_0000 * 0x1_0000 + sz];
    }

    /** The rest of `kmalloc` for size zero: the first block is linked after itself, then taken off the head. */
    method TieKnot(p: Ptr)
      requires Valid() && p != NULL && Free() != [] && p == At(heap.elems, FirstFit(Free(), 0))
      modifies this`word, heap
      ensures p == MallocAt(old(Free()), 0) && heap.elems == old(heap.elems)
      ensures heap.first == p && p in heap.next && heap.next[p] == p && !heap.Valid()
      ensures word == old(word)[p := old(word)[p] / 0x1_0000 * 0x1_0000] && p in old(word)
    {
      ZeroFitsFirst(heap.elems, word);
      ForwardAt(heap.elems, heap.first, heap.next, 0);
      var s := p + 0;
      if word[p] > 0 {
        word := word[s := word[p] - 0];
        heap.next := heap.next[s := heap.next[p]];
        heap.next := heap.next[p := s];
      }
      heap.first := heap.next[heap.first];
      word := word[p := word[p] / 0x1_0000 * 0x1_0000];
      KnotIsNoList(heap.elems, heap.first, heap.next);
    }

    /** Grows the free block `p` by `len` bytes. */
    method Grow(p: Ptr, len: nat, ghost k: nat)
      requires Listed() && k < |heap.elems| && heap.elems[k] == p && p in word
      modifies this`word
      ensures Listed() && word == old(word)[p := old(word)[p] + len]
      ensures Free() == old(Free())[k := Block(p, old(word)[p] + len)]
    {
      hide ForwardLinked, BlocksOf, AllIn;
      BlocksOfResized(heap.elems, word, k, word[p] + len);
      AllInGrows(heap.elems, word, p, word[p] + len);
      word := word[p := word[p] + len];
    }

    method LinkHead(p: Ptr)
      requires Listed() && p != NULL && p !in heap.elems && p in word
      modifies heap
      ensures Listed() && heap.elems == [p] + old(heap.elems) && Free() == [Block(p, word[p])] + old(Free())
    {
      ghost var s := heap.elems;
      hide ForwardLinked, Nodes;
      assert BlocksOf([p] + s, word) == [Block(p, word[p])] + BlocksOf(s, word);
      heap.InsertHead(p);
    }

    method LinkAfter(n: Ptr, p: Ptr, ghost k: nat)
      requires Listed() && k < |heap.elems| && heap.elems[k] == n && p != NULL && p !in heap.elems && p in word
      modifies heap
      ensures Listed() && heap.elems == Inserted(old(heap.elems), k + 1, p)
      ensures Free() == Inserted(old(Free()), k + 1, Block(p, word[p]))
    {
      ghost var s := heap.elems;
      hide ForwardLinked, Nodes, Inserted, AllIn, BlocksOf;
      assert word[p := word[p]] == word;
      BlocksOfInserted(s, word, k + 1, p, word[p]);
      AllInInserted(s, word, k + 1, p);
      heap.InsertAfter(n, p, k);
    }

    /** The search loop of `kfree`: the last free block below `p`, and the one above it. */
    method FindGap(p: Ptr) returns (n: Ptr, tmp: Ptr, ghost k: nat)
      requires Valid() && p !in heap.elems && p != NULL
      requires heap.elems != [] ==> heap.elems[0] < p
      ensures n == NULL <==> Above(Free(), p) == |Free()|
      ensures n != NULL ==> k + 1 == Above(Free(), p) && k + 1 < |heap.elems|
      ensures n != NULL ==> heap.elems[k] == n && heap.elems[k + 1] == tmp
    {
      hide Canonical, ForwardLinked, Nodes, AllIn;
      ghost var s: seq<Ptr>, bs := heap.elems, Free();
      n, tmp, k := heap.first, NULL, 0;
      ForwardAt(s, heap.first, heap.next, 0);
      while n != NULL
        invariant 0 <= k <= |s| && n == At(s, k) && (n == NULL <==> k == |s|)
        invariant forall i :: 0 <= i <= k && i < |s| ==> s[i] < p
        decreases |s| - k
      {
        ForwardAt(s, heap.first, heap.next, k);
        ForwardAt(s, heap.first, heap.next, k + 1);
        tmp := heap.next[n];
        if n < p < tmp {
          AboveFound(bs, p, k + 1);
          return;
        }
        n, k := tmp, k + 1;
      }
      AboveFound(bs, p, |s|);
    }

    /**
      Frees the block whose header is in front of `a`. `stray` is what the source finds through the
      unassigned `tmp`; `fault` is an access through that pointer or through a null `n`.
     */
    method Kfree(a: Ptr, stray: Stray) returns (fault: bool)
      requires Valid() && a >= 2 && a - 2 in word
      requires Freeable(Free(), Block(a - 2, Header(word[a - 2])))
      modifies this, heap
      ensures var b := Block(a - 2, Header(old(word)[a - 2]));
        fault == FreeFaults(old(Free()), b, stray) && Free() == FreeRest(old(Free()), b, stray)
      ensures Listed() && (FreeSafe(old(Free()), Block(a - 2, Header(old(word)[a - 2])), stray) ==> Valid())
      ensures forall q :: q in old(word) && q != a - 2 && q !in old(heap.elems) ==> q in word && word[q] == old(word)[q]
    {
      hide Canonical, Freeable, FreeSafe, SinglyLinkedList.Valid, AllIn, FreeRest, BlocksOf, FreeFaults, Above, Bytes;
      var p: Ptr := a - 2;
      ghost var b, bs, s := Block(p, Header(word[p])), Free(), heap.elems;
      NotListed(s, word, b);
      FreeWithStray(bs, b, stray);
      HeaderOfNewBlock(s, word, p, b.len);
      AllInGrows(s, word, p, b.len);
      HeadBlock();
      FreeableNotNull(bs, b);
      NothingAbove(bs, b, stray);
      word := word[p := Header(word[p])];
      assert Free() == bs;
      var n := heap.first;
      if p < n {
        AboveFound(bs, p, 0);
        FaultInFront(bs, b, stray);
        fault := KfreeInFront(p, n, stray);
        return;
      }
      var tmp;
      ghost var k;
      n, tmp, k := FindGap(p);
      if n == NULL {
        return true;
      }
      FaultBetween(bs, b, stray);
      KfreeBetween(p, n, tmp, k, stray);
      fault := false;
    }

    /** The branch of `kfree` for a block below every free one. */
    method KfreeInFront(p: Ptr, n: Ptr, stray: Stray) returns (fault: bool)
      requires Listed() && p in word && p != NULL && p !in heap.elems
      requires heap.elems != [] && n == heap.elems[0] && p < n
      modifies this, heap
      ensures Listed() && Free() == FreeRest(old(Free()), Block(p, old(word)[p]), stray)
      ensures fault == (p + old(word)[p] == n && stray == Unreadable)
      ensures forall q :: q in old(word) && q != p ==> q in word && word[q] == old(word)[q]
    {
      hide SinglyLinkedList.Valid, AllIn, Removed, BlocksOf, FreeRest;
      FreeRestInFront(heap.elems, word, p, stray);
      RemovedSubset(heap.elems, 0, p);
      if p + word[p] == n {
        Unlink(n, 0);
        if stray == Unreadable {
          return true;
        }
        HeaderOfNewBlock(heap.elems, word, p, (word[p] + stray.n) % U32);
        AllInGrows(heap.elems, word, p, (word[p] + stray.n) % U32);
        word := word[p := (word[p] + stray.n) % U32];
      }
      LinkHead(p);
      fault := false;
    }

    /** The branch of `kfree` for a block between the free blocks `n` and `tmp`. */
    method KfreeBetween(p0: Ptr, n: Ptr, tmp: Ptr, ghost k: nat, ghost stray: Stray)
      requires Listed() && p0 in word && p0 != NULL && p0 !in heap.elems
      requires k + 1 < |heap.elems| && heap.elems[k] == n && heap.elems[k + 1] == tmp
      requires Above(Free(), p0) == k + 1
      modifies this, heap
      ensures Listed() && Free() == FreeRest(old(Free()), Block(p0, old(word)[p0]), stray)
      ensures forall q :: q in old(word) && q != p0 && q != n ==> q in word && word[q] == old(word)[q]
    {
      hide SinglyLinkedList.Valid, AllIn, BlocksOf, FreeRest, Above, Inserted, Removed;
      BlockAt(heap.elems, word, k);
      BlockAt(heap.elems, word, k + 1);
      FreeRestBetween(Free(), k, Block(p0, word[p0]), stray);
      heap.NodesApart(k, k + 1);
      InsertedKeeps(Free(), k, Block(p0, word[p0]));
      var p;
      ghost var i;
      p, i := JoinLower(p0, n, k);
      JoinUpper(p, tmp, i);
    }

    /** Merges `p` into the free block `n` that ends where it starts, or links it after `n`. */
    method JoinLower(p: Ptr, n: Ptr, ghost k: nat) returns (q: Ptr, ghost i: nat)
      requires Listed() && p in word && p != NULL && p !in heap.elems && k < |heap.elems| && heap.elems[k] == n
      modifies this, heap
      ensures Listed() && i < |heap.elems| && heap.elems[i] == q && q in word
      ensures |heap.elems| - i == old(|heap.elems|) - k
      ensures k + 1 < old(|heap.elems|) ==> heap.elems[i + 1] == old(heap.elems)[k + 1]
      ensures var b, l := Block(p, old(word)[p]), old(Free())[k];
        if End(l) == p then q == n && i == k && Free() == old(Free())[k := Block(n, l.len + b.len)] && word[q] == l.len + b.len
        else q == p && i == k + 1 && Free() == Inserted(old(Free()), k + 1, b) && word[q] == b.len
      ensures forall x :: x in old(word) && x != n ==> x in word && word[x] == old(word)[x]
    {
      hide SinglyLinkedList.Valid, AllIn, BlocksOf, Inserted;
      InsertedKeeps(heap.elems, k, p);
      BlockAt(heap.elems, word, k);
      if n + word[n] == p {
        Grow(n, word[p], k);
        q, i := n, k;
      } else {
        LinkAfter(n, p, k);
        q, i := p, k + 1;
      }
    }

    /** Merges the free block `tmp` into `p` if it starts where `p` ends. */
    method JoinUpper(p: Ptr, tmp: Ptr, ghost i: nat)
      requires Listed() && i + 1 < |heap.elems| && heap.elems[i] == p && heap.elems[i + 1] == tmp && p in word
      modifies this, heap
      ensures Listed()
      ensures var u := old(Free())[i + 1];
        Free() == if p + old(word)[p] == tmp then Removed(old(Free()), i + 1)[i := Block(p, old(word)[p] + u.len)]
                  else old(Free())
      ensures forall x :: x in old(word) && x != p ==> x in word && word[x] == old(word)[x]
    {
      hide SinglyLinkedList.Valid, AllIn, BlocksOf, Removed, Inserted;
      BlockAt(heap.elems, word, i + 1);
      InsertedKeeps(heap.elems, i, p);
      if p + word[p] == tmp {
        Unlink(tmp, i + 1);
        Grow(p, word[tmp], i);
      }
    }
  }
}
