/**
  The region list of a process, newest region first, and what `sys_fork` and `sys_mmap` do to it.
 */
module Regions {
  import opened Words
  import opened Paging

  const STACK_SIZE := 0x1000
  const MMAP_LIMIT := KERNEL_OFFSET - STACK_SIZE

  /** `len` bytes at physical address `pa`, mapped from the page of `va` on. */
  datatype Region = Region(va: nat, pa: nat, len: nat)

  function FirstPage(r: Region): nat {
    r.va / PAGE
  }

  ghost function Count(r: Region): nat {
    r.len / PAGE
  }

  ghost predicate InRegion(r: Region, vp: int) {
    FirstPage(r) <= vp < FirstPage(r) + Count(r)
  }

  ghost function FrameFor(r: Region, vp: int): nat
    requires InRegion(r, vp)
  {
    r.pa / PAGE + (vp - FirstPage(r))
  }

  /** Page-aligned in memory, and in the user half. */
  ghost predicate RegionOk(r: Region) {
    r.va < KERNEL_OFFSET && r.pa % PAGE == 0 && r.len % PAGE == 0 && FirstPage(r) + Count(r) <= USER_PAGES && r.pa + r.len <= KERNEL_OFFSET
  }

  ghost predicate AllOk(rs: seq<Region>) {
    forall i :: 0 <= i < |rs| ==> RegionOk(rs[i])
  }

  /** No page lies in two regions. */
  ghost predicate Separate(rs: seq<Region>) {
    forall i, j, vp :: 0 <= i < j < |rs| && InRegion(rs[i], vp) ==> !InRegion(rs[j], vp)
  }

  /** The page map a region list stands for: the newest region that has the page decides. */
  ghost function Lookup(rs: seq<Region>, vp: int): Translation {
    if rs == [] then NotMapped
    else if InRegion(rs[0], vp) then Page(FrameFor(rs[0], vp), USER)
    else Lookup(rs[1..], vp)
  }

  lemma {:induction false} LookupFound(rs: seq<Region>, vp: int)
    ensures Lookup(rs, vp).Page? <==> exists i :: 0 <= i < |rs| && InRegion(rs[i], vp)
    ensures Lookup(rs, vp).Page? ==>
      exists i :: 0 <= i < |rs| && InRegion(rs[i], vp) && Lookup(rs, vp) == Page(FrameFor(rs[i], vp), USER)
  {
    if rs != [] && !InRegion(rs[0], vp) {
      LookupFound(rs[1..], vp);
      if Lookup(rs[1..], vp).Page? {
        var i :| 0 <= i < |rs[1..]| && InRegion(rs[1..][i], vp)
                 && Lookup(rs, vp) == Page(FrameFor(rs[1..][i], vp), USER);
        assert rs[1..][i] == rs[i + 1];
      }
      if i :| 0 <= i < |rs| && InRegion(rs[i], vp) {
        assert rs[1..][i - 1] == rs[i];
      }
    }
  }

  lemma LookupIn(rs: seq<Region>, i: nat, vp: int)
    requires Separate(rs) && i < |rs| && InRegion(rs[i], vp)
    ensures Lookup(rs, vp) == Page(FrameFor(rs[i], vp), USER)
  {
    LookupFound(rs, vp);
    var k :| 0 <= k < |rs| && InRegion(rs[k], vp) && Lookup(rs, vp) == Page(FrameFor(rs[k], vp), USER);
    assert k == i;
  }

  /** Bytes of all regions. */
  ghost function Total(rs: seq<Region>): nat {
    if rs == [] then 0 else Total(rs[..|rs| - 1]) + rs[|rs| - 1].len
  }

  lemma {:induction false} TotalPrefix(rs: seq<Region>, i: nat)
    requires i < |rs|
    ensures Total(rs[..i]) + rs[i].len == Total(rs[..i + 1]) <= Total(rs)
    decreases |rs|
  {
    var n := |rs| - 1;
    assert rs[..i + 1][..i] == rs[..i];
    if i == n {
      assert rs[..i + 1] == rs;
    } else {
      assert rs[..n][..i] == rs[..i] && rs[..n][..i + 1] == rs[..i + 1];
      TotalPrefix(rs[..n], i);
    }
  }

  lemma {:induction false} TotalCons(r: Region, rs: seq<Region>)
    ensures Total([r] + rs) == r.len + Total(rs)
  {
    var l := [r] + rs;
    if rs == [] {
      assert l[..0] == [];
    } else {
      assert l[..|l| - 1] == [r] + rs[..|rs| - 1];
      TotalCons(r, rs[..|rs| - 1]);
    }
  }

  lemma {:induction false} TotalAligned(rs: seq<Region>)
    requires AllOk(rs)
    ensures Total(rs) % PAGE == 0
  {
    if rs != [] {
      TotalAligned(rs[..|rs| - 1]);
    }
  }

  // ---------- fork

  /** The child's list: one region per parent region, packed from `pa` in the parent's order, each put in front. */
  ghost function ForkList(rs: seq<Region>, pa: nat): seq<Region> {
    if rs == [] then []
    else
      var front, last := rs[..|rs| - 1], rs[|rs| - 1];
      [Region(last.va, pa + Total(front), last.len)] + ForkList(front, pa)
  }

  lemma {:induction false} ForkListAt(rs: seq<Region>, pa: nat, i: nat)
    requires i < |rs|
    ensures |ForkList(rs, pa)| == |rs|
    ensures ForkList(rs, pa)[|rs| - 1 - i] == Region(rs[i].va, pa + Total(rs[..i]), rs[i].len)
    decreases |rs|
  {
    var n := |rs| - 1;
    ForkListSize(rs[..n], pa);
    if i < n {
      ForkListAt(rs[..n], pa, i);
      assert rs[..n][..i] == rs[..i];
    }
  }

  lemma {:induction false} ForkListSize(rs: seq<Region>, pa: nat)
    ensures |ForkList(rs, pa)| == |rs|
  {
    if rs != [] {
      ForkListSize(rs[..|rs| - 1], pa);
    }
  }

  lemma ForkInRegion(rs: seq<Region>, pa: nat, i: nat, vp: int)
    requires i < |rs|
    ensures |ForkList(rs, pa)| == |rs|
    ensures InRegion(ForkList(rs, pa)[|rs| - 1 - i], vp) <==> InRegion(rs[i], vp)
  {
    ForkListAt(rs, pa, i);
  }

  lemma ForkSeparate(rs: seq<Region>, pa: nat)
    requires Separate(rs)
    ensures Separate(ForkList(rs, pa))
  {
    hide ForkList;
    ForkListSize(rs, pa);
    var c, n := ForkList(rs, pa), |rs| - 1;
    forall i, j, vp | 0 <= i < j < |c| && InRegion(c[i], vp)
      ensures !InRegion(c[j], vp)
    {
      ForkInRegion(rs, pa, n - i, vp);
      ForkInRegion(rs, pa, n - j, vp);
    }
  }

  /** The child maps exactly the parent's pages; page `vp` of parent region `i` goes to its place in the chunk. */
  lemma ForkMaps(rs: seq<Region>, pa: nat, vp: int)
    requires Separate(rs)
    ensures Lookup(ForkList(rs, pa), vp).Page? <==> Lookup(rs, vp).Page?
    ensures forall i :: 0 <= i < |rs| && InRegion(rs[i], vp) ==>
      Lookup(ForkList(rs, pa), vp) == Page((pa + Total(rs[..i])) / PAGE + (vp - FirstPage(rs[i])), USER)
  {
    hide ForkList, Lookup, Total;
    var c, n := ForkList(rs, pa), |rs| - 1;
    ForkListSize(rs, pa);
    ForkSeparate(rs, pa);
    LookupFound(rs, vp);
    LookupFound(c, vp);
    forall i | 0 <= i < |rs| && InRegion(rs[i], vp)
      ensures Lookup(c, vp) == Page((pa + Total(rs[..i])) / PAGE + (vp - FirstPage(rs[i])), USER)
    {
      ForkListAt(rs, pa, i);
      ForkInRegion(rs, pa, i, vp);
      LookupIn(c, n - i, vp);
    }
    if Lookup(c, vp).Page? {
      var k :| 0 <= k < |c| && InRegion(c[k], vp);
      ForkInRegion(rs, pa, n - k, vp);
    }
  }

  /** Every child region lies inside a chunk of `size` bytes exactly when the parent's lengths sum to at most `size`. */
  lemma ForkFits(rs: seq<Region>, pa: nat, size: nat)
    requires rs != []
    ensures (forall k :: 0 <= k < |ForkList(rs, pa)| ==>
              pa <= ForkList(rs, pa)[k].pa && ForkList(rs, pa)[k].pa + ForkList(rs, pa)[k].len <= pa + size)
            <==> Total(rs) <= size
  {
    hide ForkList, Total;
    var c, n := ForkList(rs, pa), |rs| - 1;
    ForkListSize(rs, pa);
    forall k | 0 <= k < |c|
      ensures c[k].pa == pa + Total(rs[..n - k]) && c[k].len == rs[n - k].len
      ensures Total(rs[..n - k]) + rs[n - k].len <= Total(rs)
    {
      ForkListAt(rs, pa, n - k);
      TotalPrefix(rs, n - k);
    }
    TotalPrefix(rs, n);
    assert rs[..n + 1] == rs;
    assert c[0].pa + c[0].len == pa + Total(rs);
  }

  /** A process that fills its recorded size cannot be forked into a chunk of that size once it has mapped memory. */
  lemma ForkAfterMmap(rs: seq<Region>, size: nat, r: Region, pa: nat)
    requires Total(rs) == size && r.len > 0
    ensures var c := ForkList([r] + rs, pa);
      exists k :: 0 <= k < |c| && c[k].pa + c[k].len > pa + size
  {
    hide ForkList;
    TotalCons(r, rs);
    var l := [r] + rs;
    ForkFits(l, pa, size);
    var k :| 0 <= k < |ForkList(l, pa)| && !(pa <= ForkList(l, pa)[k].pa && ForkList(l, pa)[k].pa + ForkList(l, pa)[k].len <= pa + size);
    ForkListSize(l, pa);
    ForkListAt(l, pa, |l| - 1 - k);
  }

  // ---------- mmap

  /** Regions below `base`, apart from those in the stack area; no two share a page. */
  ghost predicate SpaceShape(rs: seq<Region>, base: nat) {
    && base % PAGE == 0 && base <= MMAP_LIMIT && AllOk(rs) && Separate(rs)
    && forall i :: 0 <= i < |rs| ==>
         FirstPage(rs[i]) + Count(rs[i]) <= base / PAGE || FirstPage(rs[i]) >= MMAP_LIMIT / PAGE
  }

  lemma SeparateCons(r: Region, rs: seq<Region>)
    ensures Separate([r] + rs) <==>
      Separate(rs) && forall i, vp :: 0 <= i < |rs| && InRegion(r, vp) ==> !InRegion(rs[i], vp)
  {
    var l := [r] + rs;
    assert forall i :: 0 <= i < |rs| ==> l[i + 1] == rs[i];
    if Separate(l) {
      forall i, j, vp | 0 <= i < j < |rs| && InRegion(rs[i], vp)
        ensures !InRegion(rs[j], vp)
      {
        assert InRegion(l[i + 1], vp);
        assert l[j + 1] == rs[j];
      }
      forall i, vp | 0 <= i < |rs| && InRegion(r, vp)
        ensures !InRegion(rs[i], vp)
      {
        assert InRegion(l[0], vp);
        assert l[i + 1] == rs[i];
      }
    }
  }

  /** A successful `sys_mmap` keeps the regions apart, above the image and below the stack. */
  lemma MmapKeepsShape(rs: seq<Region>, base: nat, pa: nat, len: nat)
    requires SpaceShape(rs, base) && len % PAGE == 0 && base + len < MMAP_LIMIT
    requires pa % PAGE == 0 && pa + len <= KERNEL_OFFSET
    ensures SpaceShape([Region(base, pa, len)] + rs, base + len)
  {
    var r := Region(base, pa, len);
    SeparateCons(r, rs);
    var l := [r] + rs;
    assert forall i :: 0 <= i < |rs| ==> l[i + 1] == rs[i];
  }

  /** One `sys_mmap`: the frames it got and its length. */
  datatype Mmap = Mmap(pa: nat, len: nat)

  /** The mappings of a sequence of successful calls. */
  ghost function MmapList(rs: seq<Region>, base: nat, calls: seq<Mmap>): seq<Region>
    decreases |calls|
  {
    if calls == [] then rs
    else MmapList([Region(base, calls[0].pa, calls[0].len)] + rs, base + calls[0].len, calls[1..])
  }

  ghost predicate Succeed(base: nat, calls: seq<Mmap>)
    decreases |calls|
  {
    calls == [] ||
    (calls[0].len % PAGE == 0 && calls[0].pa % PAGE == 0 && calls[0].pa + calls[0].len <= KERNEL_OFFSET
     && base + calls[0].len < MMAP_LIMIT && Succeed(base + calls[0].len, calls[1..]))
  }

  /** Any sequence of successful calls keeps all regions pairwise apart. */
  lemma {:induction false} MmapsNeverCollide(rs: seq<Region>, base: nat, calls: seq<Mmap>)
    requires SpaceShape(rs, base) && Succeed(base, calls)
    ensures Separate(MmapList(rs, base, calls)) && AllOk(MmapList(rs, base, calls))
    decreases |calls|
  {
    if calls != [] {
      MmapKeepsShape(rs, base, calls[0].pa, calls[0].len);
      MmapsNeverCollide([Region(base, calls[0].pa, calls[0].len)] + rs, base + calls[0].len, calls[1..]);
    }
  }

  /**
    A forked child starts with `mmap_base` zero instead of its parent's: its first mapping is apart from
    the inherited regions exactly when all of those start above it.
   */
  lemma MmapFromZero(rs: seq<Region>, pa: nat, len: nat)
    requires Separate(rs) && len > 0 && len % PAGE == 0
    ensures Separate([Region(0, pa, len)] + rs) <==>
            forall i :: 0 <= i < |rs| && Count(rs[i]) > 0 ==> FirstPage(rs[i]) >= len / PAGE
  {
    var r := Region(0, pa, len);
    SeparateCons(r, rs);
    if Separate([r] + rs) {
      forall i | 0 <= i < |rs| && Count(rs[i]) > 0
        ensures FirstPage(rs[i]) >= len / PAGE
      {
        assert InRegion(rs[i], FirstPage(rs[i]));
        assert !InRegion(r, FirstPage(rs[i]));
      }
    }
  }
}
