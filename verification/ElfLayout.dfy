/**
  How `loadelf` of kernel/proc.c lays a program out: the address range of its loadable segments, one
  chunk of memory for all of them and the stack, and the region list that results.
 */
module ElfLayout {
  import opened Words
  import opened Paging
  import opened Regions

  const ELFMAGIC := 0x464C457F
  const LOAD := 1

  /** The program header fields the loader reads. */
  datatype Segment = Segment(ptype: u32, off: u32, va: u32, filesz: u32, memsz: u32)

  /** The program headers of a file; their number is a 16-bit field. */
  type Headers = phs: seq<Segment> | |phs| < 0x1_0000

  /** The first four bytes of a file, low byte first: 0x7F and the letters ELF. */
  lemma MagicBytes()
    ensures ELFMAGIC % 0x100 == 0x7F && ELFMAGIC / 0x100 % 0x100 == 'E' as int
    ensures ELFMAGIC / 0x1_0000 % 0x100 == 'L' as int && ELFMAGIC / 0x100_0000 == 'F' as int
  {
  }

  /** Headers of types 2 and 3 are refused. */
  ghost predicate Refused(phs: seq<Segment>) {
    exists i :: 0 <= i < |phs| && (phs[i].ptype == 2 || phs[i].ptype == 3)
  }

  /** The loadable segments in order. */
  ghost function Loads(phs: seq<Segment>): seq<Segment> {
    if phs == [] then []
    else Loads(phs[..|phs| - 1]) + if phs[|phs| - 1].ptype == LOAD then [phs[|phs| - 1]] else []
  }

  function StartOf(s: Segment): u32 {
    PgDown(s.va)
  }

  function EndOf(s: Segment): u32 {
    PgUp((s.va + s.memsz) % U32)
  }

  /** Bytes mapped for the segment. */
  function MappedLen(s: Segment): u32 {
    PgUp((s.memsz + s.va % PAGE) % U32)
  }

  /** Bytes by which the loader moves on in its chunk. */
  function Advance(s: Segment): u32 {
    PgUp(s.memsz)
  }

  ghost function MinStart(ls: seq<Segment>): u32 {
    if ls == [] then U32 - 1
    else
      var m, s := MinStart(ls[..|ls| - 1]), StartOf(ls[|ls| - 1]);
      if s < m then s else m
  }

  ghost function MaxEnd(ls: seq<Segment>): u32 {
    if ls == [] then 0
    else
      var m, e := MaxEnd(ls[..|ls| - 1]), EndOf(ls[|ls| - 1]);
      if e > m then e else m
  }

  /** The chunk requested for the image and the stack. */
  function ChunkSize(min: u32, max: u32): u32 {
    PgUp(((max - min) % U32 + STACK_SIZE) % U32)
  }

  /** Where in the chunk the segment after `ls` is placed. */
  ghost function ChunkAt(ls: seq<Segment>): nat {
    if ls == [] then 0 else ChunkAt(ls[..|ls| - 1]) + Advance(ls[|ls| - 1])
  }

  ghost function SegRegion(s: Segment, pa: nat): Region {
    Region(s.va, pa, MappedLen(s))
  }

  /** Regions of the segments, last one first. */
  ghost function SegRegions(ls: seq<Segment>, pa: nat): seq<Region> {
    if ls == [] then []
    else [SegRegion(ls[|ls| - 1], pa + ChunkAt(ls[..|ls| - 1]))] + SegRegions(ls[..|ls| - 1], pa)
  }

  ghost function StackRegion(pa: nat): Region {
    Region(KERNEL_OFFSET - STACK_SIZE, pa, STACK_SIZE)
  }

  /** The whole list, the stack in front. */
  ghost function ElfRegions(ls: seq<Segment>, pa: nat): seq<Region> {
    [StackRegion(pa + ChunkAt(ls))] + SegRegions(ls, pa)
  }

  lemma LoadsSnoc(phs: seq<Segment>, i: nat)
    requires i < |phs|
    ensures Loads(phs[..i + 1]) == if phs[i].ptype == LOAD then Loads(phs[..i]) + [phs[i]] else Loads(phs[..i])
  {
    assert phs[..i + 1][..i] == phs[..i];
  }

  /** The loadable segments of a prefix are a prefix of the loadable segments. */
  lemma {:induction false} LoadsPrefix(phs: seq<Segment>, i: nat)
    requires i <= |phs|
    ensures var k := |Loads(phs[..i])|;
      k <= |Loads(phs)| && Loads(phs[..i]) == Loads(phs)[..k]
    ensures i < |phs| && phs[i].ptype == LOAD ==>
      |Loads(phs[..i])| < |Loads(phs)| && Loads(phs)[|Loads(phs[..i])|] == phs[i]
    decreases |phs| - i
  {
    if i < |phs| {
      LoadsSnoc(phs, i);
      LoadsPrefix(phs, i + 1);
    } else {
      assert phs[..i] == phs;
    }
  }

  /** The first pass of the loader over the program headers. */
  method ScanHeaders(phs: seq<Segment>) returns (refused: bool, n: nat, min: u32, max: u32)
    ensures refused <==> Refused(phs)
    ensures refused <==> exists i :: 0 <= i < |phs| && (phs[i].ptype == 2 || phs[i].ptype == 3)
    ensures !refused ==> n == |Loads(phs)| && min == MinStart(Loads(phs)) && max == MaxEnd(Loads(phs))
  {
    hide StartOf, EndOf, Loads, MinStart, MaxEnd;
    NoHeaders(phs);
    n, min, max := 0, U32 - 1, 0;
    var i := 0;
    while i < |phs|
      invariant 0 <= i <= |phs|
      invariant forall k :: 0 <= k < i ==> phs[k].ptype != 2 && phs[k].ptype != 3
      invariant n == |Loads(phs[..i])| && min == MinStart(Loads(phs[..i])) && max == MaxEnd(Loads(phs[..i]))
    {
      LoadsSnoc(phs, i);
      if phs[i].ptype == 2 || phs[i].ptype == 3 {
        return true, n, min, max;
      }
      if phs[i].ptype == LOAD {
        n := n + 1;
        BoundsSnoc(Loads(phs[..i]), phs[i]);
        var start, end := StartOf(phs[i]), EndOf(phs[i]);
        if start < min {
          min := start;
        }
        if end > max {
          max := end;
        }
      }
      i := i + 1;
    }
    assert phs[..i] == phs;
    refused := false;
  }

  lemma NoHeaders(phs: seq<Segment>)
    ensures Loads(phs[..0]) == [] && MinStart(Loads(phs[..0])) == U32 - 1 && MaxEnd(Loads(phs[..0])) == 0
  {
  }

  lemma BoundsSnoc(ls: seq<Segment>, s: Segment)
    ensures MinStart(ls + [s]) == (if StartOf(s) < MinStart(ls) then StartOf(s) else MinStart(ls))
    ensures MaxEnd(ls + [s]) == (if EndOf(s) > MaxEnd(ls) then EndOf(s) else MaxEnd(ls))
  {
    assert (ls + [s])[..|ls|] == ls;
  }

  /** The bounds are the lowest page start and the highest page end of all segments, and reached. */
  lemma BoundsExact(ls: seq<Segment>)
    requires ls != []
    ensures forall i :: 0 <= i < |ls| ==> MinStart(ls) <= PgDown(ls[i].va) && PgUp((ls[i].va + ls[i].memsz) % U32) <= MaxEnd(ls)
    ensures exists i :: 0 <= i < |ls| && MinStart(ls) == PgDown(ls[i].va)
    ensures exists i :: 0 <= i < |ls| && MaxEnd(ls) == PgUp((ls[i].va + ls[i].memsz) % U32)
  {
    hide MinStart, MaxEnd, PgDown, PgUp;
    MinExact(ls);
    MaxExact(ls);
    var i :| 0 <= i < |ls| && MinStart(ls) == StartOf(ls[i]);
    var j :| 0 <= j < |ls| && MaxEnd(ls) == EndOf(ls[j]);
    assert MinStart(ls) == PgDown(ls[i].va) && MaxEnd(ls) == PgUp((ls[j].va + ls[j].memsz) % U32);
    forall k | 0 <= k < |ls|
      ensures MinStart(ls) <= PgDown(ls[k].va) && PgUp((ls[k].va + ls[k].memsz) % U32) <= MaxEnd(ls)
    {
      assert MinStart(ls) <= StartOf(ls[k]) && EndOf(ls[k]) <= MaxEnd(ls);
    }
  }

  lemma {:induction false} MinExact(ls: seq<Segment>)
    requires ls != []
    ensures forall i :: 0 <= i < |ls| ==> MinStart(ls) <= StartOf(ls[i])
    ensures exists i :: 0 <= i < |ls| && MinStart(ls) == StartOf(ls[i])
  {
    var n := |ls| - 1;
    StartInWord(ls[n]);
    hide StartOf;
    if n > 0 {
      MinExact(ls[..n]);
      var i :| 0 <= i < n && MinStart(ls[..n]) == StartOf(ls[..n][i]);
      assert MinStart(ls) == StartOf(ls[n]) || MinStart(ls) == StartOf(ls[i]);
      assert forall k :: 0 <= k < n ==> ls[..n][k] == ls[k];
    } else {
      assert MinStart(ls[..n]) == U32 - 1 && MinStart(ls) == StartOf(ls[n]);
    }
  }

  lemma {:induction false} MaxExact(ls: seq<Segment>)
    requires ls != []
    ensures forall i :: 0 <= i < |ls| ==> EndOf(ls[i]) <= MaxEnd(ls)
    ensures exists i :: 0 <= i < |ls| && MaxEnd(ls) == EndOf(ls[i])
  {
    hide EndOf;
    var n := |ls| - 1;
    if n > 0 {
      MaxExact(ls[..n]);
      var i :| 0 <= i < n && MaxEnd(ls[..n]) == EndOf(ls[..n][i]);
      assert MaxEnd(ls) == EndOf(ls[n]) || MaxEnd(ls) == EndOf(ls[i]);
      assert forall k :: 0 <= k < n ==> ls[..n][k] == ls[k];
    } else {
      assert MaxEnd(ls[..n]) == 0 && MaxEnd(ls) == EndOf(ls[n]);
    }
  }

  lemma StartInWord(s: Segment)
    ensures StartOf(s) <= U32 - 1
  {
  }

  // ---------- when the pieces are disjoint

  /** The segment's offset in its first page costs no extra page. */
  ghost predicate RoundsAlike(s: Segment) {
    MappedLen(s) == Advance(s)
  }

  /** Position and size of piece `i` in the chunk; the last piece is the stack. */
  ghost function PieceAt(ls: seq<Segment>, i: nat): (nat, nat)
    requires i <= |ls|
  {
    (ChunkAt(ls[..i]), if i == |ls| then STACK_SIZE else MappedLen(ls[i]))
  }

  ghost predicate InPiece(ls: seq<Segment>, i: nat, x: int)
    requires i <= |ls|
  {
    PieceAt(ls, i).0 <= x < PieceAt(ls, i).0 + PieceAt(ls, i).1
  }

  ghost predicate PiecesDisjoint(ls: seq<Segment>) {
    forall i: nat, j: nat, x :: i < j <= |ls| && InPiece(ls, i, x) ==> !InPiece(ls, j, x)
  }

  lemma ChunkStep(ls: seq<Segment>, i: nat)
    requires i < |ls|
    ensures ChunkAt(ls[..i + 1]) == ChunkAt(ls[..i]) + Advance(ls[i])
  {
    assert ls[..i + 1][..i] == ls[..i];
  }

  lemma {:induction false} ChunkMonotone(ls: seq<Segment>, i: nat, j: nat)
    requires i <= j <= |ls|
    ensures ChunkAt(ls[..i]) <= ChunkAt(ls[..j])
    decreases j - i
  {
    if i < j {
      ChunkStep(ls, j - 1);
      ChunkMonotone(ls, i, j - 1);
    }
  }

  /** A mapped length is the advance or one page more, unless 32 bits overflow. */
  lemma MappedLenIs(s: Segment)
    requires s.memsz + s.va % PAGE <= U32 - PAGE
    ensures MappedLen(s) == Advance(s) || MappedLen(s) == Advance(s) + PAGE
  {
  }

  /** The first non-empty piece from `i` on starts where piece `i` is placed. */
  lemma {:induction false} NextPiece(ls: seq<Segment>, i: nat) returns (j: nat)
    requires i <= |ls|
    requires forall k :: 0 <= k < |ls| ==> ls[k].memsz + ls[k].va % PAGE <= U32 - PAGE
    ensures i <= j <= |ls| && PieceAt(ls, j).0 == ChunkAt(ls[..i]) && PieceAt(ls, j).1 > 0
    decreases |ls| - i
  {
    if i == |ls| || MappedLen(ls[i]) > 0 {
      j := i;
    } else {
      MappedLenIs(ls[i]);
      ChunkStep(ls, i);
      j := NextPiece(ls, i + 1);
    }
  }

  /** The loader's pieces are disjoint in the chunk exactly when every segment rounds alike both ways. */
  lemma PiecesDisjointExact(ls: seq<Segment>)
    requires forall k :: 0 <= k < |ls| ==> ls[k].memsz + ls[k].va % PAGE <= U32 - PAGE
    ensures PiecesDisjoint(ls) <==> forall k :: 0 <= k < |ls| ==> RoundsAlike(ls[k])
  {
    if forall k :: 0 <= k < |ls| ==> RoundsAlike(ls[k]) {
      forall i: nat, j: nat, x | i < j <= |ls| && InPiece(ls, i, x)
        ensures !InPiece(ls, j, x)
      {
        ChunkStep(ls, i);
        ChunkMonotone(ls, i + 1, j);
        assert RoundsAlike(ls[i]);
      }
    }
    if PiecesDisjoint(ls) {
      forall k | 0 <= k < |ls|
        ensures RoundsAlike(ls[k])
      {
        MappedLenIs(ls[k]);
        ChunkStep(ls, k);
        var j := NextPiece(ls, k + 1);
        var x := PieceAt(ls, j).0;
        assert InPiece(ls, j, x);
        assert MappedLen(ls[k]) > Advance(ls[k]) ==> InPiece(ls, k, x);
      }
    }
  }

  // ---------- good images

  /** Two bytes across a page boundary: two pages are mapped, the next segment is placed after one. */
  lemma RoundingExample()
    ensures var s := Segment(LOAD, 0, 0x0040_0FFF, 0, 2);
      MappedLen(s) == 0x2000 && Advance(s) == 0x1000 && !PiecesDisjoint([s])
  {
    var s := Segment(LOAD, 0, 0x0040_0FFF, 0, 2);
    assert PgUp(0x1001) == 0x2000 && PgUp(2) == 0x1000;
    assert [s][0] == s;
    PiecesDisjointExact([s]);
  }

  /** A segment that ends below the stack, does not exceed its memory size in the file, and rounds alike. */
  ghost predicate GoodSegment(s: Segment) {
    s.filesz <= s.memsz && s.va + s.memsz <= MMAP_LIMIT && RoundsAlike(s)
  }

  /** Page-aligned segments in ascending order, as a linker lays them out, make an image the loader can place. */
  lemma AlignedImageGood(ls: seq<Segment>)
    requires forall i :: 0 <= i < |ls| ==> ls[i].va % PAGE == 0 && ls[i].filesz <= ls[i].memsz && ls[i].va + ls[i].memsz <= MMAP_LIMIT
    requires forall i, j :: 0 <= i < j < |ls| ==> PgUp(ls[i].va + ls[i].memsz) <= ls[j].va
    ensures GoodImage(ls)
  {
    forall i | 0 <= i < |ls|
      ensures GoodSegment(ls[i]) && StartOf(ls[i]) == ls[i].va && EndOf(ls[i]) == PgUp(ls[i].va + ls[i].memsz)
    {
      AlignedGood(ls[i]);
    }
    hide GoodSegment, StartOf, EndOf;
  }

  lemma AlignedGood(s: Segment)
    requires s.va % PAGE == 0 && s.filesz <= s.memsz && s.va + s.memsz <= MMAP_LIMIT
    ensures GoodSegment(s) && StartOf(s) == s.va && EndOf(s) == PgUp(s.va + s.memsz)
  {
  }

  ghost predicate SegPage(s: Segment, vp: int) {
    StartOf(s) / PAGE <= vp < EndOf(s) / PAGE
  }

  ghost predicate GoodImage(ls: seq<Segment>) {
    && (forall i :: 0 <= i < |ls| ==> GoodSegment(ls[i]))
    && forall i, j, vp :: 0 <= i < j < |ls| && SegPage(ls[i], vp) ==> !SegPage(ls[j], vp)
  }

  lemma RoundingIs(va: u32, memsz: u32)
    requires va + memsz <= U32 - PAGE
    ensures PgDown(va) == PAGE * (va / PAGE)
    ensures PgUp(va + memsz) == PAGE * (va / PAGE) + PgUp(memsz + va % PAGE)
  {
    hide PgUp, PgDown;
    var a, b := va / PAGE, va % PAGE;
    assert va == PAGE * a + b;
    var d, r, r' := PgDown(va) / PAGE, PgUp(va + memsz) / PAGE, PgUp(memsz + b) / PAGE;
    assert PgDown(va) == PAGE * d && PgUp(va + memsz) == PAGE * r && PgUp(memsz + b) == PAGE * r';
    assert d == a && r == a + r';
  }

  lemma NoWrap(va: u32, memsz: u32)
    requires va + memsz <= MMAP_LIMIT
    ensures (va + memsz) % U32 == va + memsz && (memsz + va % PAGE) % U32 == memsz + va % PAGE
    ensures va + memsz <= PgUp(va + memsz) <= MMAP_LIMIT
  {
  }

  lemma SegmentBounds(s: Segment)
    requires GoodSegment(s)
    ensures MappedLen(s) == EndOf(s) - StartOf(s) && StartOf(s) <= s.va && s.va + s.memsz <= EndOf(s) <= MMAP_LIMIT
    ensures MappedLen(s) == Advance(s) && StartOf(s) == PAGE * (s.va / PAGE)
  {
    hide PgUp, PgDown;
    NoWrap(s.va, s.memsz);
    RoundingIs(s.va, s.memsz);
  }

  lemma SegmentPages(s: Segment)
    requires GoodSegment(s)
    ensures var a, b := StartOf(s) / PAGE, EndOf(s) / PAGE;
      a <= b && Advance(s) == PAGE * (b - a) && StartOf(s) == PAGE * a && EndOf(s) == PAGE * b && a == s.va / PAGE
  {
    hide PgUp, PgDown;
    SegmentBounds(s);
  }

  lemma SegmentInRegion(s: Segment, pa: nat, vp: int)
    requires GoodSegment(s)
    ensures InRegion(SegRegion(s, pa), vp) <==> SegPage(s, vp)
  {
    hide PgUp, PgDown, MappedLen, StartOf, EndOf;
    SegmentBounds(s);
    SegmentPages(s);
  }

  lemma {:induction false} IntervalSize(lo: int, hi: int)
    requires lo <= hi
    ensures |Interval(lo, hi)| == hi - lo
    decreases hi - lo
  {
    if lo < hi {
      IntervalSize(lo, hi - 1);
      assert Interval(lo, hi) == Interval(lo, hi - 1) + {hi - 1};
    } else {
      assert Interval(lo, hi) == {};
    }
  }

  lemma SubsetSize(a: set<int>, b: set<int>)
    requires a <= b
    ensures |a| <= |b|
  {
    assert b == a + (b - a);
  }

  /** Pages of all segments. */
  ghost function PagesOf(ls: seq<Segment>): set<int> {
    if ls == [] then {}
    else PagesOf(ls[..|ls| - 1]) + Interval(StartOf(ls[|ls| - 1]) / PAGE, EndOf(ls[|ls| - 1]) / PAGE)
  }

  lemma {:induction false} PagesOfMembers(ls: seq<Segment>)
    ensures forall vp :: vp in PagesOf(ls) ==> exists i :: 0 <= i < |ls| && SegPage(ls[i], vp)
  {
    if ls != [] {
      var n := |ls| - 1;
      PagesOfMembers(ls[..n]);
      forall vp | vp in PagesOf(ls)
        ensures exists i :: 0 <= i < |ls| && SegPage(ls[i], vp)
      {
        if vp in PagesOf(ls[..n]) {
          var i :| 0 <= i < |ls[..n]| && SegPage(ls[..n][i], vp);
          assert SegPage(ls[i], vp);
        } else {
          assert SegPage(ls[n], vp);
        }
      }
    }
  }

  lemma {:induction false} BoundsAre(ls: seq<Segment>)
    requires forall i :: 0 <= i < |ls| ==> GoodSegment(ls[i])
    ensures forall i :: 0 <= i < |ls| ==> MinStart(ls) <= StartOf(ls[i]) && EndOf(ls[i]) <= MaxEnd(ls)
    ensures MaxEnd(ls) % PAGE == 0 && MaxEnd(ls) <= MMAP_LIMIT
    ensures ls != [] ==> MinStart(ls) % PAGE == 0 && MinStart(ls) <= MaxEnd(ls)
  {
    hide GoodSegment, StartOf, EndOf;
    if ls != [] {
      var n := |ls| - 1;
      assert forall i :: 0 <= i < n ==> ls[..n][i] == ls[i];
      BoundsAre(ls[..n]);
      SegmentBounds(ls[n]);
      SegmentPages(ls[n]);
      assert forall i :: 0 <= i < n ==> ls[i] == ls[..n][i];
    }
  }

  lemma {:induction false} PagesWithin(ls: seq<Segment>, lo: int, hi: int)
    requires forall i :: 0 <= i < |ls| ==> lo <= StartOf(ls[i]) / PAGE && EndOf(ls[i]) / PAGE <= hi
    ensures PagesOf(ls) <= Interval(lo, hi)
  {
    hide StartOf, EndOf;
    if ls != [] {
      PagesWithin(ls[..|ls| - 1], lo, hi);
    }
  }

  /** The chunk position counts the pages of the segments. */
  lemma {:induction false} ChunkCountsPages(ls: seq<Segment>)
    requires GoodImage(ls)
    ensures ChunkAt(ls) == PAGE * |PagesOf(ls)|
  {
    hide StartOf, EndOf, Advance, GoodSegment, SegPage;
    if ls != [] {
      var n := |ls| - 1;
      var s := ls[n];
      FrontIsGood(ls);
      ChunkCountsPages(ls[..n]);
      SegmentPages(s);
      IntervalSize(StartOf(s) / PAGE, EndOf(s) / PAGE);
      LastIsNew(ls);
    }
  }

  lemma FrontIsGood(ls: seq<Segment>)
    requires GoodImage(ls) && ls != []
    ensures GoodImage(ls[..|ls| - 1]) && GoodSegment(ls[|ls| - 1])
  {
    hide GoodSegment, SegPage;
    var front := ls[..|ls| - 1];
    assert forall i :: 0 <= i < |front| ==> front[i] == ls[i];
  }

  lemma LastIsNew(ls: seq<Segment>)
    requires GoodImage(ls) && ls != []
    ensures PagesOf(ls[..|ls| - 1]) !! Interval(StartOf(ls[|ls| - 1]) / PAGE, EndOf(ls[|ls| - 1]) / PAGE)
  {
    var n := |ls| - 1;
    PagesOfMembers(ls[..n]);
    forall vp | vp in PagesOf(ls[..n])
      ensures !SegPage(ls[n], vp)
    {
      var i :| 0 <= i < n && SegPage(ls[..n][i], vp);
      assert SegPage(ls[i], vp);
    }
  }

  lemma ChunkSizeIs(min: u32, max: u32)
    requires min <= max <= MMAP_LIMIT && min % PAGE == 0 && max % PAGE == 0
    ensures ChunkSize(min, max) == PAGE * (max / PAGE - min / PAGE + 1) == max - min + 0x1000
  {
    var x := max - min + STACK_SIZE;
    assert x == PAGE * (max / PAGE - min / PAGE + 1);
  }

  /** Without loadable segments the bounds are crossed and their difference wraps. */
  lemma EmptyChunkSize()
    ensures ChunkSize(U32 - 1, 0) == 0x2000
  {
  }

  /** All segments and the stack fit the one chunk the loader asks for. */
  lemma ImageFits(ls: seq<Segment>)
    requires GoodImage(ls)
    ensures ChunkAt(ls) + STACK_SIZE <= ChunkSize(MinStart(ls), MaxEnd(ls))
    ensures ChunkAt(ls) % PAGE == 0
  {
    hide StartOf, EndOf, Advance, GoodSegment, SegPage, ChunkSize;
    ChunkCountsPages(ls);
    if ls == [] {
      EmptyChunkSize();
    } else {
      BoundsAre(ls);
      var lo, hi := MinStart(ls) / PAGE, MaxEnd(ls) / PAGE;
      PagesWithin(ls, lo, hi);
      IntervalSize(lo, hi);
      SubsetSize(PagesOf(ls), Interval(lo, hi));
      ChunkSizeIs(MinStart(ls), MaxEnd(ls));
    }
  }

  // ---------- the resulting regions

  lemma {:induction false} SegRegionsAt(ls: seq<Segment>, pa: nat, i: nat)
    requires i < |ls|
    ensures |SegRegions(ls, pa)| == |ls|
    ensures SegRegions(ls, pa)[|ls| - 1 - i] == SegRegion(ls[i], pa + ChunkAt(ls[..i]))
    decreases |ls|
  {
    hide SegRegion, ChunkAt;
    var n := |ls| - 1;
    SegRegionsSize(ls[..n], pa);
    if i < n {
      SegRegionsAt(ls[..n], pa, i);
      assert ls[..n][..i] == ls[..i];
    }
  }

  lemma {:induction false} SegRegionsSize(ls: seq<Segment>, pa: nat)
    ensures |SegRegions(ls, pa)| == |ls|
  {
    if ls != [] {
      SegRegionsSize(ls[..|ls| - 1], pa);
    }
  }

  lemma AdvanceAligned(s: Segment)
    ensures Advance(s) % PAGE == 0
  {
  }

  lemma {:induction false} PrefixAligned(ls: seq<Segment>, i: nat)
    requires i <= |ls|
    ensures ChunkAt(ls[..i]) % PAGE == 0
  {
    if i > 0 {
      hide Advance;
      ChunkStep(ls, i - 1);
      AdvanceAligned(ls[i - 1]);
      PrefixAligned(ls, i - 1);
    }
  }

  lemma SegRegionPages(s: Segment, q: nat)
    requires GoodSegment(s) && q % PAGE == 0 && q + Advance(s) <= KERNEL_OFFSET
    ensures RegionOk(SegRegion(s, q)) && SegRegion(s, q).len == Advance(s)
    ensures FirstPage(SegRegion(s, q)) + Count(SegRegion(s, q)) == EndOf(s) / PAGE
  {
    hide StartOf, EndOf, MappedLen, Advance, GoodSegment;
    SegmentBounds(s);
    SegmentPages(s);
  }

  lemma EndBelow(ls: seq<Segment>, i: nat)
    requires GoodImage(ls) && i < |ls|
    ensures GoodSegment(ls[i]) && EndOf(ls[i]) / PAGE <= MaxEnd(ls) / PAGE
  {
    hide StartOf, EndOf, SegPage, GoodSegment;
    BoundsAre(ls);
  }

  lemma SegRegionPlace(s: Segment, q: nat)
    ensures SegRegion(s, q).pa == q
  {
  }

  /** A segment's region is page-aligned, inside the image's bounds and inside the chunk. */
  lemma SegRegionOk(ls: seq<Segment>, pa: nat, i: nat)
    requires GoodImage(ls) && i < |ls| && pa % PAGE == 0 && pa + ChunkAt(ls) <= KERNEL_OFFSET
    ensures var r := SegRegion(ls[i], pa + ChunkAt(ls[..i]));
      RegionOk(r) && r.len == Advance(ls[i]) && r.pa + r.len <= pa + ChunkAt(ls)
      && FirstPage(r) + Count(r) <= MaxEnd(ls) / PAGE
  {
    hide StartOf, EndOf, Advance, SegRegion, RegionOk, FirstPage, Count, ChunkAt, GoodImage, GoodSegment, MaxEnd;
    EndBelow(ls, i);
    ChunkStep(ls, i);
    ChunkMonotone(ls, i + 1, |ls|);
    assert ls[..|ls|] == ls;
    PrefixAligned(ls, i);
    SegRegionPages(ls[i], pa + ChunkAt(ls[..i]));
    SegRegionPlace(ls[i], pa + ChunkAt(ls[..i]));
  }

  lemma SegRegionsShape(ls: seq<Segment>, pa: nat)
    requires GoodImage(ls) && pa % PAGE == 0 && pa + ChunkAt(ls) <= KERNEL_OFFSET
    ensures SpaceShape(SegRegions(ls, pa), MaxEnd(ls))
    ensures forall k :: 0 <= k < |SegRegions(ls, pa)| ==>
      FirstPage(SegRegions(ls, pa)[k]) + Count(SegRegions(ls, pa)[k]) <= MMAP_LIMIT / PAGE
  {
    hide StartOf, EndOf, MappedLen, Advance, SegRegion, InRegion, GoodSegment, SegPage, SegRegions;
    BoundsAre(ls);
    SegRegionsSize(ls, pa);
    var rs, n := SegRegions(ls, pa), |ls| - 1;
    forall k | 0 <= k < |rs|
      ensures RegionOk(rs[k]) && FirstPage(rs[k]) + Count(rs[k]) <= MaxEnd(ls) / PAGE
    {
      SegRegionsAt(ls, pa, n - k);
      SegRegionOk(ls, pa, n - k);
    }
    forall i, j, vp | 0 <= i < j < |rs| && InRegion(rs[i], vp)
      ensures !InRegion(rs[j], vp)
    {
      SegRegionsAt(ls, pa, n - i);
      SegRegionsAt(ls, pa, n - j);
      SegmentInRegion(ls[n - i], pa + ChunkAt(ls[..n - i]), vp);
      SegmentInRegion(ls[n - j], pa + ChunkAt(ls[..n - j]), vp);
    }
  }

  /** The loaded program's regions do not overlap, leave `mmap_base` free, and sum to at most the recorded size. */
  lemma ElfRegionsShape(ls: seq<Segment>, pa: nat)
    requires GoodImage(ls) && pa % PAGE == 0 && pa + ChunkAt(ls) + STACK_SIZE <= KERNEL_OFFSET
    ensures SpaceShape(ElfRegions(ls, pa), MaxEnd(ls))
    ensures Total(ElfRegions(ls, pa)) == ChunkAt(ls) + STACK_SIZE <= ChunkSize(MinStart(ls), MaxEnd(ls))
  {
    hide StartOf, EndOf, MappedLen, Advance, SegRegion, GoodSegment, SegRegions, ChunkSize, Total, ChunkAt;
    SegRegionsShape(ls, pa);
    ImageFits(ls);
    var st, rs := StackRegion(pa + ChunkAt(ls)), SegRegions(ls, pa);
    SeparateCons(st, rs);
    TotalCons(st, rs);
    SegRegionsTotal(ls, pa);
    assert forall i :: 0 <= i < |rs| ==> ([st] + rs)[i + 1] == rs[i];
  }

  lemma {:induction false} SegRegionsTotal(ls: seq<Segment>, pa: nat)
    requires GoodImage(ls)
    ensures Total(SegRegions(ls, pa)) == ChunkAt(ls)
  {
    hide GoodSegment, MappedLen, Advance, Total;
    if ls != [] {
      var n := |ls| - 1;
      FrontIsGood(ls);
      SegRegionsTotal(ls[..n], pa);
      SegmentBounds(ls[n]);
      TotalCons(SegRegion(ls[n], pa + ChunkAt(ls[..n])), SegRegions(ls[..n], pa));
    } else {
      EmptyTotal();
    }
  }

  lemma EmptyTotal()
    ensures Total([]) == 0
  {
  }

  /** The page that holds byte `j` of segment `k`, and where in the chunk that byte is. */
  lemma SegmentByte(ls: seq<Segment>, pa: nat, k: nat, j: nat)
    requires GoodImage(ls) && pa % PAGE == 0 && pa + ChunkAt(ls) + STACK_SIZE <= KERNEL_OFFSET
    requires k < |ls| && j < ls[k].memsz
    ensures var a := ls[k].va + j;
      && a / PAGE < USER_PAGES && Lookup(ElfRegions(ls, pa), a / PAGE).Page?
      && Lookup(ElfRegions(ls, pa), a / PAGE).frame * PAGE + a % PAGE == pa + ChunkAt(ls[..k]) + ls[k].va % PAGE + j
  {
    hide MappedLen, Advance, SegRegion, GoodSegment, ElfRegions, Lookup, ChunkAt, GoodImage, InRegion, FrameFor, Separate, MaxEnd;
    ElfRegionAt(ls, pa, k);
    EndBelow(ls, k);
    PrefixAligned(ls, k);
    SegmentByteInRegion(ls[k], pa + ChunkAt(ls[..k]), j);
    LookupIn(ElfRegions(ls, pa), |ls| - k, (ls[k].va + j) / PAGE);
  }

  lemma ElfRegionAt(ls: seq<Segment>, pa: nat, k: nat)
    requires GoodImage(ls) && pa % PAGE == 0 && pa + ChunkAt(ls) + STACK_SIZE <= KERNEL_OFFSET && k < |ls|
    ensures Separate(ElfRegions(ls, pa)) && |ElfRegions(ls, pa)| == |ls| + 1
    ensures ElfRegions(ls, pa)[|ls| - k] == SegRegion(ls[k], pa + ChunkAt(ls[..k]))
  {
    hide SegRegion, SegRegions, GoodImage, Separate, ChunkAt, MaxEnd, ChunkSize, Total;
    ElfRegionsShape(ls, pa);
    SegRegionsAt(ls, pa, k);
  }

  lemma SegmentByteInRegion(s: Segment, q: nat, j: nat)
    requires GoodSegment(s) && q % PAGE == 0 && j < s.memsz
    ensures var r, vp := SegRegion(s, q), (s.va + j) / PAGE;
      InRegion(r, vp) && vp < USER_PAGES && FrameFor(r, vp) * PAGE + (s.va + j) % PAGE == q + s.va % PAGE + j
  {
    hide StartOf, EndOf, MappedLen, Advance, GoodSegment;
    SegmentBounds(s);
    SegmentPages(s);
    var a, v := s.va + j, s.va / PAGE;
    assert a == PAGE * (a / PAGE) + a % PAGE && s.va == PAGE * v + s.va % PAGE;
    var e := EndOf(s) / PAGE;
    assert a / PAGE < e;
  }
}
