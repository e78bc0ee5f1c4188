/** 32-bit words, page rounding and the kernel's linear address mapping. */
module Words {

  const U32 := 0x1_0000_0000
  const PAGE := 0x1000
  const KERNEL_OFFSET := 0x8000_0000

  type u32 = x: int | 0 <= x < 0x1_0000_0000

  lemma MultipleHasNoRemainder(a: int, q: int)
    requires a > 0
    ensures (a * q) % a == 0
  {
    DivisionIsUnique(a, q, 0, (a * q) / a, (a * q) % a);
  }

  lemma DivisionIsUnique(a: int, q: int, r: int, q': int, r': int)
    requires 0 <= r < a && 0 <= r' < a && a * q + r == a * q' + r'
    ensures q == q' && r == r'
  {
    assert a * (q - q') == r' - r;
    assert q - q' >= 1 ==> a * (q - q') >= a;
    assert q - q' <= -1 ==> a * (q - q') <= -a;
  }

  lemma RemainderDropsOut(x: int, a: int)
    requires a > 0
    ensures (x - x % a) % a == 0 && (x + a - x % a) % a == 0
  {
    assert x - x % a == a * (x / a);
    assert x + a - x % a == a * (x / a + 1);
    MultipleHasNoRemainder(a, x / a);
    MultipleHasNoRemainder(a, x / a + 1);
  }

  /** The least multiple of `a` that is not below `x`, or what is left of it in 32 bits when it does not fit. */
  function RoundUp(x: u32, a: u32): (r: u32)
    requires a > 0
    ensures x <= r ==> r < x + a && r % a == 0
    ensures r < x ==> r + U32 < x + a && (r + U32) % a == 0
  {
    var p := x % a;
    RemainderDropsOut(x, a);
    if p == 0 then x else (x + a - p) % U32
  }

  /** The greatest multiple of `a` that is not above `x`. */
  function RoundDown(x: u32, a: u32): (r: u32)
    requires a > 0
    ensures x - a < r <= x && r % a == 0
  {
    var p := x % a;
    RemainderDropsOut(x, a);
    if p == 0 then x else x - p
  }

  /** Page round-up. Above the last page boundary the 32-bit sum wraps to zero. */
  function PgUp(x: u32): (r: u32)
    ensures r % PAGE == 0
    ensures x <= U32 - PAGE ==> x <= r < x + PAGE
    ensures x > U32 - PAGE ==> r == 0
  {
    RoundUp(x, 0x1000)
  }

  function PgDown(x: u32): (r: u32)
    ensures r % PAGE == 0 && x - PAGE < r <= x
  {
    RoundDown(x, 0x1000)
  }

  /** Physical address of a kernel virtual one: clears the top bit. */
  function V2P(x: u32): (r: u32)
    ensures r < KERNEL_OFFSET
  {
    x % KERNEL_OFFSET
  }

  /** Kernel virtual address of a physical one: sets the top bit. */
  function P2V(x: u32): (r: u32)
    ensures r >= KERNEL_OFFSET
  {
    if x < KERNEL_OFFSET then x + KERNEL_OFFSET else x
  }

  /** The two address mappings undo each other exactly on the halves they were meant for. */
  lemma LinearMappingRoundTrips(x: u32)
    ensures V2P(P2V(x)) == x <==> x < KERNEL_OFFSET
    ensures P2V(V2P(x)) == x <==> x >= KERNEL_OFFSET
    ensures x < 0x8000_0000 ==> P2V(x) == x + 0x8000_0000 && V2P(x) == x
    ensures x >= 0x8000_0000 ==> V2P(x) == x - 0x8000_0000 && P2V(x) == x
  {
  }

  ghost predicate Within(q: int, lo: int, hi: int) {
    lo <= q < hi
  }

  /** The numbers from `lo` up to but not including `hi`. */
  ghost function Interval(lo: int, hi: int): set<int> {
    set q | lo <= q < hi && Within(q, lo, hi)
  }
}
