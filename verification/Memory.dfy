/** Byte fills and the two-directional byte copy of kernel/string.S on physical memory. */
module Memory {
  import opened Words

  type Byte = x: int | 0 <= x < 256

  /** `s` with the `n` bytes at `dst` replaced by those `s` has at `src`. */
  ghost function Copied(s: seq<Byte>, dst: nat, src: nat, n: nat): seq<Byte>
    requires dst + n <= |s| && src + n <= |s|
  {
    s[..dst] + s[src..src + n] + s[dst + n..]
  }

  /** Byte-by-byte copy with ascending addresses. */
  ghost function CopyUp(s: seq<Byte>, dst: nat, src: nat, n: nat): seq<Byte>
    requires dst + n <= |s| && src + n <= |s|
    decreases n
  {
    if n == 0 then s else CopyUp(s[dst := s[src]], dst + 1, src + 1, n - 1)
  }

  /** Byte-by-byte copy with descending addresses. */
  ghost function CopyDown(s: seq<Byte>, dst: nat, src: nat, n: nat): seq<Byte>
    requires dst + n <= |s| && src + n <= |s|
    decreases n
  {
    if n == 0 then s else CopyDown(s[dst + n - 1 := s[src + n - 1]], dst, src, n - 1)
  }

  /** `memmove` copies upwards when the destination is the higher address. */
  ghost function Moved(s: seq<Byte>, dst: nat, src: nat, n: nat): seq<Byte>
    requires dst + n <= |s| && src + n <= |s|
  {
    if dst > src then CopyUp(s, dst, src, n) else CopyDown(s, dst, src, n)
  }

  ghost predicate Apart(dst: nat, src: nat, n: nat) {
    dst == src || dst + n <= src || src + n <= dst
  }

  lemma {:induction false} CopyUpSize(s: seq<Byte>, dst: nat, src: nat, n: nat)
    requires dst + n <= |s| && src + n <= |s|
    ensures |CopyUp(s, dst, src, n)| == |s|
    ensures forall i :: 0 <= i < dst ==> CopyUp(s, dst, src, n)[i] == s[i]
    decreases n
  {
    if n > 0 {
      CopyUpSize(s[dst := s[src]], dst + 1, src + 1, n - 1);
    }
  }

  lemma CopiedAt(s: seq<Byte>, dst: nat, src: nat, n: nat, i: nat)
    requires dst + n <= |s| && src + n <= |s| && i < |s|
    ensures |Copied(s, dst, src, n)| == |s|
    ensures Copied(s, dst, src, n)[i] == if dst <= i < dst + n then s[src + i - dst] else s[i]
  {
  }

  lemma CopiedStep(s: seq<Byte>, dst: nat, src: nat, n: nat)
    requires dst + n <= |s| && src + n <= |s| && Apart(dst, src, n) && n > 0
    ensures Copied(s[dst := s[src]], dst + 1, src + 1, n - 1) == Copied(s, dst, src, n)
  {
    var s' := s[dst := s[src]];
    var l, r := Copied(s', dst + 1, src + 1, n - 1), Copied(s, dst, src, n);
    hide Copied;
    CopiedAt(s, dst, src, n, dst);
    CopiedAt(s', dst + 1, src + 1, n - 1, dst);
    forall i | 0 <= i < |s|
      ensures l[i] == r[i]
    {
      CopiedAt(s, dst, src, n, i);
      CopiedAt(s', dst + 1, src + 1, n - 1, i);
    }
  }

  lemma CopiedDownStep(s: seq<Byte>, dst: nat, src: nat, n: nat)
    requires dst + n <= |s| && src + n <= |s| && Apart(dst, src, n) && n > 0
    ensures Copied(s[dst + n - 1 := s[src + n - 1]], dst, src, n - 1) == Copied(s, dst, src, n)
  {
    var s' := s[dst + n - 1 := s[src + n - 1]];
    var l, r := Copied(s', dst, src, n - 1), Copied(s, dst, src, n);
    hide Copied;
    CopiedAt(s, dst, src, n, dst);
    CopiedAt(s', dst, src, n - 1, dst);
    forall i | 0 <= i < |s|
      ensures l[i] == r[i]
    {
      CopiedAt(s, dst, src, n, i);
      CopiedAt(s', dst, src, n - 1, i);
    }
  }

  lemma {:induction false} CopyUpApart(s: seq<Byte>, dst: nat, src: nat, n: nat)
    requires dst + n <= |s| && src + n <= |s| && Apart(dst, src, n)
    ensures CopyUp(s, dst, src, n) == Copied(s, dst, src, n)
    decreases n
  {
    if n == 0 {
      assert Copied(s, dst, src, n) == s;
    } else {
      hide Copied;
      CopiedStep(s, dst, src, n);
      CopyUpApart(s[dst := s[src]], dst + 1, src + 1, n - 1);
    }
  }

  lemma {:induction false} CopyDownApart(s: seq<Byte>, dst: nat, src: nat, n: nat)
    requires dst + n <= |s| && src + n <= |s| && Apart(dst, src, n)
    ensures CopyDown(s, dst, src, n) == Copied(s, dst, src, n)
    decreases n
  {
    if n == 0 {
      assert Copied(s, dst, src, n) == s;
    } else {
      hide Copied;
      CopiedDownStep(s, dst, src, n);
      CopyDownApart(s[dst + n - 1 := s[src + n - 1]], dst, src, n - 1);
    }
  }

  lemma {:induction false} CopyDownSize(s: seq<Byte>, dst: nat, src: nat, n: nat)
    requires dst + n <= |s| && src + n <= |s|
    ensures |CopyDown(s, dst, src, n)| == |s|
    ensures forall i :: dst + n <= i < |s| ==> CopyDown(s, dst, src, n)[i] == s[i]
    decreases n
  {
    if n > 0 {
      CopyDownSize(s[dst + n - 1 := s[src + n - 1]], dst, src, n - 1);
    }
  }

  lemma {:induction false} CopyUpSplit(s: seq<Byte>, dst: nat, src: nat, n: nat, d: nat)
    requires dst + n <= |s| && src + n <= |s| && d <= n
    ensures |CopyUp(s, dst, src, d)| == |s|
    ensures CopyUp(s, dst, src, n) == CopyUp(CopyUp(s, dst, src, d), dst + d, src + d, n - d)
    decreases d
  {
    if d > 0 {
      CopyUpSplit(s[dst := s[src]], dst + 1, src + 1, n - 1, d - 1);
    }
  }

  lemma {:induction false} CopyDownSplit(s: seq<Byte>, dst: nat, src: nat, n: nat, d: nat)
    requires dst + n <= |s| && src + n <= |s| && d <= n
    ensures |CopyDown(s, dst + n - d, src + n - d, d)| == |s|
    ensures CopyDown(s, dst, src, n) == CopyDown(CopyDown(s, dst + n - d, src + n - d, d), dst, src, n - d)
    decreases d
  {
    if d > 0 {
      CopyDownSplit(s[dst + n - 1 := s[src + n - 1]], dst, src, n - 1, d - 1);
    }
  }

  /** When the ranges overlap, an upward copy to a higher address repeats the source's first byte. */
  lemma CopyUpOverlap(s: seq<Byte>, dst: nat, src: nat, n: nat)
    requires dst + n <= |s| && src < dst < src + n
    ensures |CopyUp(s, dst, src, n)| == |s|
    ensures CopyUp(s, dst, src, n)[2 * dst - src] == s[src]
  {
    hide Copied;
    var d := dst - src;
    CopyUpSplit(s, dst, src, n, d);
    CopyUpApart(s, dst, src, d);
    var t := Copied(s, dst, src, d);
    CopiedAt(s, dst, src, d, dst);
    CopyUpSize(t[dst + d := t[src + d]], dst + d + 1, src + d + 1, n - d - 1);
  }

  lemma CopyDownOverlap(s: seq<Byte>, dst: nat, src: nat, n: nat)
    requires src + n <= |s| && dst < src < dst + n
    ensures |CopyDown(s, dst, src, n)| == |s|
    ensures CopyDown(s, dst, src, n)[2 * dst + n - 1 - src] == s[src + n - 1]
  {
    hide Copied;
    var d := src - dst;
    CopyDownSplit(s, dst, src, n, d);
    CopyDownApart(s, dst + n - d, src + n - d, d);
    var t := Copied(s, dst + n - d, src + n - d, d);
    CopiedAt(s, dst + n - d, src + n - d, d, dst + n - 1);
    var k := n - d - 1;
    CopyDownSize(t[dst + k := t[src + k]], dst, src, k);
  }

  ghost predicate CopiesAll(size: nat, dst: nat, src: nat, n: nat)
    requires dst + n <= size && src + n <= size
  {
    forall s: seq<Byte> :: |s| == size ==> Moved(s, dst, src, n) == Copied(s, dst, src, n)
  }

  /** `memmove` copies correctly, whatever the bytes, exactly when the ranges coincide or do not overlap. */
  lemma MemmoveExact(size: nat, dst: nat, src: nat, n: nat)
    requires dst + n <= size && src + n <= size
    ensures CopiesAll(size, dst, src, n) <==> Apart(dst, src, n)
  {
    if Apart(dst, src, n) {
      forall s: seq<Byte> | |s| == size
        ensures Moved(s, dst, src, n) == Copied(s, dst, src, n)
      {
        CopyUpApart(s, dst, src, n);
        CopyDownApart(s, dst, src, n);
      }
    } else {
      OverlapBreaks(size, dst, src, n);
    }
  }

  lemma OverlapBreaks(size: nat, dst: nat, src: nat, n: nat)
    requires dst + n <= size && src + n <= size && !Apart(dst, src, n)
    ensures !CopiesAll(size, dst, src, n)
  {
    hide CopyUp, CopyDown, Copied;
    var p := if dst > src then src else src + n - 1;
    var q := if dst > src then 2 * dst - src else 2 * dst + n - 1 - src;
    var s: seq<Byte> := seq(size, _ => 0)[p := 1];
    if dst > src {
      CopyUpOverlap(s, dst, src, n);
    } else {
      CopyDownOverlap(s, dst, src, n);
    }
    CopiedAt(s, dst, src, n, q);
  }

  // ---------- on memory

  method Memset(ram: array<Byte>, dst: nat, v: Byte, n: nat)
    requires n > 0 ==> dst + n <= ram.Length
    modifies ram
    ensures forall i :: 0 <= i < ram.Length ==> ram[i] == if dst <= i < dst + n then v else old(ram[i])
  {
    var i := 0;
    while i < n
      invariant 0 <= i <= n
      invariant forall k :: 0 <= k < ram.Length ==> ram[k] == if dst <= k < dst + i then v else old(ram[k])
    {
      ram[dst + i] := v;
      i := i + 1;
    }
  }

  /** The reading of a word as a signed number. */
  function Signed(x: u32): int {
    if x < KERNEL_OFFSET then x else x - U32
  }

  /** The source compares addresses as signed words, which agrees with their order exactly inside one half. */
  lemma SignedOrder(x: u32, y: u32)
    ensures x != y ==> ((Signed(x) > Signed(y) <==> x > y) <==> (x < KERNEL_OFFSET <==> y < KERNEL_OFFSET))
  {
  }

  /** `memmove` between kernel addresses; `dst` and `src` are the physical ones. */
  method Memmove(ram: array<Byte>, dst: nat, src: nat, n: nat)
    requires n > 0 ==> dst < KERNEL_OFFSET && src < KERNEL_OFFSET
    requires n > 0 ==> dst + n <= ram.Length && src + n <= ram.Length
    modifies ram
    ensures ram[..] == if n == 0 then old(ram[..]) else Moved(old(ram[..]), dst, src, n)
  {
    if n == 0 {
      return;
    }
    if Signed(P2V(dst)) > Signed(P2V(src)) {
      var i := 0;
      while i < n
        invariant 0 <= i <= n
        invariant CopyUp(ram[..], dst + i, src + i, n - i) == CopyUp(old(ram[..]), dst, src, n)
      {
        ghost var s := ram[..];
        ram[dst + i] := ram[src + i];
        assert ram[..] == s[dst + i := s[src + i]];
        i := i + 1;
      }
    } else {
      var i := n;
      while i > 0
        invariant 0 <= i <= n
        invariant CopyDown(ram[..], dst, src, i) == CopyDown(old(ram[..]), dst, src, n)
      {
        i := i - 1;
        ghost var s := ram[..];
        ram[dst + i] := ram[src + i];
        assert ram[..] == s[dst + i := s[src + i]];
      }
    }
  }

  /** A copy into memory from an image outside it. */
  method CopyIn(ram: array<Byte>, dst: nat, image: seq<Byte>, off: nat, n: nat)
    requires dst + n <= ram.Length && off + n <= |image|
    modifies ram
    ensures forall i :: 0 <= i < ram.Length ==> ram[i] == if dst <= i < dst + n then image[off + i - dst] else old(ram[i])
  {
    var i := 0;
    while i < n
      invariant 0 <= i <= n
      invariant forall k :: 0 <= k < ram.Length ==> ram[k] == if dst <= k < dst + i then image[off + k - dst] else old(ram[k])
    {
      ram[dst + i] := image[off + i];
      i := i + 1;
    }
  }
}
