/**
  The two `itoa` functions (kernel/serial.c and lib/libc/stdio/vfprintf.c), which fill a static buffer from
  the low digit up and reverse it in place, and `oct2int` of kernel/fs.c.
 */
module Numbers {
  import opened Words

  const INT_MIN := -0x8000_0000
  const INT_MAX := 0x7FFF_FFFF

  type i32 = x: int | INT_MIN <= x <= INT_MAX

  /** Conversion between the signed and the unsigned reading of 32 bits. */
  function ToUnsigned(n: i32): u32 {
    n % U32
  }

  function ToSigned(x: int): i32 {
    (x + 0x8000_0000) % U32 - 0x8000_0000
  }

  function Magnitude(n: i32): nat {
    if n < 0 then -(n as int) else n
  }

  lemma ProductGrows(a: nat, b: nat, c: nat, d: nat)
    requires a <= c && b <= d
    ensures a * b <= c * d
  {
    assert a * b <= c * b && c * b <= c * d;
  }

  // ---------- numerals

  function DigitChar(d: nat, upper: bool): char
    requires d < 16
  {
    if upper then "0123456789ABCDEF"[d] else "0123456789abcdef"[d]
  }

  /** What a digit stands for; characters that are no digits stand for nothing sensible. */
  function CharValue(c: char): int {
    if 'a' <= c <= 'f' then c as int - 'a' as int + 10
    else if 'A' <= c <= 'F' then c as int - 'A' as int + 10
    else c as int - '0' as int
  }

  ghost predicate IsDigit(c: char, base: nat, upper: bool) {
    0 <= CharValue(c) < base <= 16 && c == DigitChar(CharValue(c), upper)
  }

  /** A digit string without leading zeros. */
  ghost predicate Numeral(s: string, base: nat, upper: bool) {
    |s| > 0 && s[0] != '0' && forall i :: 0 <= i < |s| ==> IsDigit(s[i], base, upper)
  }

  ghost function Value(s: string, base: nat): int {
    if s == "" then 0 else Value(s[..|s| - 1], base) * base + CharValue(s[|s| - 1])
  }

  /** The digits of `v`, none for zero. */
  ghost function Digits(v: nat, base: nat, upper: bool): string
    requires 2 <= base <= 16
  {
    if v == 0 then "" else DigitsStep(v, base); Digits(v / base, base, upper) + [DigitChar(v % base, upper)]
  }

  lemma DigitsStep(v: nat, base: nat)
    requires base >= 2
    ensures v == v / base * base + v % base && v % base < base && (v > 0 ==> v / base < v)
  {
  }

  lemma DigitCharInverse(d: nat, upper: bool)
    requires d < 16
    ensures CharValue(DigitChar(d, upper)) == d && (DigitChar(d, upper) == '0' <==> d == 0)
    ensures '0' <= DigitChar(d, upper) <= '9' <==> d <= 9
    ensures d > 9 ==> if upper then 'A' <= DigitChar(d, upper) <= 'F' else 'a' <= DigitChar(d, upper) <= 'f'
  {
  }

  /** The digits denote the value, and there is no leading zero. */
  lemma {:induction false} DigitsDenote(v: nat, base: nat, upper: bool)
    requires 2 <= base <= 16
    ensures Value(Digits(v, base, upper), base) == v
    ensures v > 0 ==> Numeral(Digits(v, base, upper), base, upper)
    decreases v
  {
    hide DigitChar, CharValue;
    if v > 0 {
      DigitsStep(v, base);
      DigitCharInverse(v % base, upper);
      DigitsDenote(v / base, base, upper);
      var front := Digits(v / base, base, upper);
      assert Digits(v, base, upper)[..|front|] == front;
    }
  }

  lemma {:induction false} NumeralValue(s: string, base: nat, upper: bool)
    requires Numeral(s, base, upper)
    ensures Value(s, base) >= 1
  {
    var front, d := s[..|s| - 1], CharValue(s[|s| - 1]);
    assert IsDigit(s[|s| - 1], base, upper);
    if |s| == 1 {
      assert front == "";
      DigitCharInverse(d, upper);
    } else {
      assert IsDigit(s[0], base, upper);
      NumeralValue(front, base, upper);
      ProductGrows(1, 1, Value(front, base), base);
    }
  }

  /** There is only one numeral for a number. */
  lemma {:induction false} NumeralUnique(s: string, t: string, base: nat, upper: bool)
    requires 2 <= base <= 16 && Numeral(s, base, upper) && Numeral(t, base, upper) && Value(s, base) == Value(t, base)
    ensures s == t
    decreases |s|
  {
    var sf, tf := s[..|s| - 1], t[..|t| - 1];
    var d, e := s[|s| - 1], t[|t| - 1];
    assert IsDigit(d, base, upper) && IsDigit(e, base, upper);
    FrontValue(s, base, upper);
    FrontValue(t, base, upper);
    DivisionIsUnique(base, Value(sf, base), CharValue(d), Value(tf, base), CharValue(e));
    assert s == sf + [d] && t == tf + [e];
    if |s| > 1 && |t| > 1 {
      NumeralUnique(sf, tf, base, upper);
    }
  }

  lemma FrontValue(s: string, base: nat, upper: bool)
    requires Numeral(s, base, upper)
    ensures Value(s[..|s| - 1], base) >= 0 && (Value(s[..|s| - 1], base) == 0 <==> |s| == 1)
  {
    if |s| > 1 {
      NumeralValue(s[..|s| - 1], base, upper);
    }
  }

  // ---------- how long numerals are

  ghost function Pow(base: nat, k: nat): nat {
    if k == 0 then 1 else Pow(base, k - 1) * base
  }

  /** `k` digits suffice exactly for the numbers below `base` to the power `k`. */
  lemma {:induction false} DigitCount(v: nat, base: nat, upper: bool, k: nat)
    requires 2 <= base <= 16
    ensures |Digits(v, base, upper)| <= k <==> v < Pow(base, k)
    decreases k
  {
    if v > 0 && k > 0 {
      DigitsStep(v, base);
      DigitCount(v / base, base, upper, k - 1);
      QuotientBelow(v, base, Pow(base, k - 1));
    } else if k > 0 {
      PowPositive(base, k);
    }
  }

  lemma QuotientBelow(v: nat, base: nat, p: nat)
    requires base >= 2
    ensures v / base < p <==> v < p * base
  {
    DigitsStep(v, base);
    var q := v / base;
    if q < p {
      assert (q + 1) * base <= p * base;
    } else {
      assert q * base >= p * base;
    }
  }

  lemma {:induction false} PowPositive(base: nat, k: nat)
    requires base >= 1
    ensures Pow(base, k) >= 1
  {
    if k > 0 {
      PowPositive(base, k - 1);
    }
  }

  lemma {:induction false} PowGrows(a: nat, b: nat, k: nat)
    requires a <= b
    ensures Pow(a, k) <= Pow(b, k)
  {
    if k > 0 {
      PowGrows(a, b, k - 1);
      ProductGrows(Pow(a, k - 1), a, Pow(b, k - 1), b);
    }
  }

  lemma {:induction false} PowSum(base: nat, m: nat, n: nat)
    ensures Pow(base, m + n) == Pow(base, m) * Pow(base, n)
  {
    if n > 0 {
      PowSum(base, m, n - 1);
    }
  }

  lemma PowersOfThree()
    ensures Pow(3, 31) >= 0x1_0000_0000
  {
    assert Pow(3, 1) == 3 && Pow(3, 2) == 9 && Pow(3, 3) == 27;
    PowSum(3, 3, 3);
    PowSum(3, 6, 6);
    PowSum(3, 12, 12);
    PowSum(3, 24, 6);
    PowSum(3, 30, 1);
  }

  lemma PowersOfTwo()
    ensures Pow(2, 31) == 0x8000_0000 && Pow(2, 32) == 0x1_0000_0000 && Pow(8, 11) == 0x2_0000_0000
    ensures Pow(3, 31) >= 0x1_0000_0000
  {
    PowersOfThree();
    assert Pow(2, 1) == 2 && Pow(2, 2) == 4 && Pow(2, 3) == 8 && Pow(2, 4) == 16;
    PowSum(2, 4, 4);
    PowSum(2, 8, 8);
    PowSum(2, 16, 16);
    PowSum(2, 31, 1);
    assert Pow(8, 1) == 8 && Pow(8, 2) == 64 && Pow(8, 3) == 512;
    PowSum(8, 3, 3);
    PowSum(8, 6, 3);
    PowSum(8, 9, 2);
  }

  /** 32-bit values have at most 32 digits, and 31 when they are below 2^31 or the base is not two. */
  lemma DigitsFit(v: u32, base: nat, upper: bool)
    requires 2 <= base <= 16
    ensures |Digits(v, base, upper)| <= 32
    ensures v <= INT_MAX || base != 2 ==> |Digits(v, base, upper)| <= 31
    ensures base == 2 && v > INT_MAX ==> |Digits(v, base, upper)| == 32
  {
    hide Digits;
    PowersOfTwo();
    PowGrows(2, base, 31);
    PowGrows(2, base, 32);
    DigitCount(v, base, upper, 31);
    DigitCount(v, base, upper, 32);
    if base != 2 {
      PowGrows(3, base, 31);
    }
  }

  // ---------- what the two functions print

  ghost function Signed(magnitude: nat, base: nat, upper: bool): string
    requires 2 <= base <= 16
  {
    "-" + Digits(magnitude, base, upper)
  }

  /** Kernel: signed in base ten only. */
  ghost function KernelText(n: i32, base: nat): string
    requires 2 <= base <= 16
  {
    if n == 0 then "0" else if n < 0 && base == 10 then Signed(Magnitude(n), base, false) else Digits(ToUnsigned(n), base, false)
  }

  /** C library: a negative base means signed. */
  ghost function LibcText(n: i32, base: int, upper: bool): string
    requires 2 <= base <= 16 || -16 <= base <= -2
  {
    if n == 0 then "0"
    else if base < 0 && n < 0 then Signed(Magnitude(n), -base, upper)
    else Digits(ToUnsigned(n), if base < 0 then -base else base, upper)
  }

  /** Kernel base ten is the library's base minus ten; every other base is the same in both. */
  lemma KernelAgreesWithLibc(n: i32, base: nat)
    requires 2 <= base <= 16
    ensures KernelText(n, base) == LibcText(n, if base == 10 then -10 else base, false)
    ensures KernelText(n, 10) == LibcText(n, 10, false) <==> n >= 0
  {
    if n < 0 {
      DigitsDenote(ToUnsigned(n), 10, false);
      var t := Digits(ToUnsigned(n), 10, false);
      assert IsDigit(t[0], 10, false);
    }
  }

  /** The text is the one numeral of the number, after a minus sign for negative signed numbers. */
  lemma TextDenotes(n: i32, base: int, upper: bool)
    requires 2 <= base <= 16 || -16 <= base <= -2
    ensures var t, b := LibcText(n, base, upper), if base < 0 then -base else base;
      if n == 0 then t == "0"
      else if base < 0 && n < 0 then t != "" && t[0] == '-' && Numeral(t[1..], b, upper) && Value(t[1..], b) == Magnitude(n)
      else Numeral(t, b, upper) && Value(t, b) == if n < 0 then n + U32 else n
  {
    hide Digits, Numeral, Value;
    var b := if base < 0 then -base else base;
    if base < 0 && n < 0 {
      DigitsDenote(Magnitude(n), b, upper);
      assert LibcText(n, base, upper)[1..] == Digits(Magnitude(n), b, upper);
    } else {
      DigitsDenote(ToUnsigned(n), b, upper);
    }
  }

  /** The text and its NUL fit the 33 characters in every case but one: the most negative number in signed base two. */
  lemma TextFits(n: i32, base: int, upper: bool)
    requires 2 <= base <= 16 || -16 <= base <= -2
    ensures |LibcText(n, base, upper)| + 1 <= 33 <==> !(base == -2 && n == INT_MIN)
  {
    var b := if base < 0 then -base else base;
    DigitsFit(ToUnsigned(n), b, upper);
    DigitsFit(Magnitude(n), b, upper);
  }

  // ---------- the functions themselves

  ghost function Backwards(t: string): string {
    if t == "" then "" else [t[|t| - 1]] + Backwards(t[..|t| - 1])
  }

  lemma {:induction false} BackwardsAt(t: string, i: nat)
    requires i < |t|
    ensures |Backwards(t)| == |t| && Backwards(t)[i] == t[|t| - 1 - i]
  {
    BackwardsSize(t);
    if i > 0 {
      BackwardsAt(t[..|t| - 1], i - 1);
    }
  }

  lemma {:induction false} BackwardsSize(t: string)
    ensures |Backwards(t)| == |t|
  {
    if t != "" {
      BackwardsSize(t[..|t| - 1]);
    }
  }

  lemma NoDigits(base: nat, upper: bool)
    requires 2 <= base <= 16
    ensures Digits(0, base, upper) == "" && Backwards("") == ""
  {
  }

  /** Backwards, the low digit comes first. */
  lemma LowDigit(v: nat, base: nat, upper: bool)
    requires 2 <= base <= 16 && v > 0
    ensures 0 <= v / base < v && 0 <= v % base < base
    ensures |Digits(v, base, upper)| == |Digits(v / base, base, upper)| + 1
    ensures Backwards(Digits(v, base, upper)) == [DigitChar(v % base, upper)] + Backwards(Digits(v / base, base, upper))
  {
    DigitsStep(v, base);
    var front := Digits(v / base, base, upper);
    assert Digits(v, base, upper)[..|front|] == front;
  }

  lemma BackwardsTwice(t: string)
    ensures Backwards(Backwards(t)) == t
  {
    var b := Backwards(t);
    BackwardsSize(t);
    BackwardsSize(b);
    forall i | 0 <= i < |t|
      ensures Backwards(b)[i] == t[i]
    {
      BackwardsAt(b, i);
      BackwardsAt(t, |t| - 1 - i);
    }
  }

  /** Element `x` counted from the other end of the range from `lo` to `hi`, both included. */
  ghost function Opposite(s: seq<char>, lo: nat, hi: nat, x: int): char {
    if 0 <= lo + hi - x < |s| then s[lo + hi - x] else '\0'
  }

  lemma SwappedIsBackwards(before: seq<char>, after: seq<char>, lo: nat, hi: nat)
    requires lo < hi <= |before| == |after|
    requires forall x :: lo <= x < hi ==> after[x] == Opposite(before, lo, hi - 1, x)
    requires forall x :: 0 <= x < lo || hi <= x < |after| ==> after[x] == before[x]
    ensures after == before[..lo] + Backwards(before[lo..hi]) + before[hi..]
  {
    var t := before[lo..hi];
    BackwardsSize(t);
    forall i | lo <= i < hi
      ensures after[i] == Backwards(t)[i - lo]
    {
      BackwardsAt(t, i - lo);
    }
  }

  /** The function-local static buffer: 33 characters, the result of the last call. */
  class Formatter {
    const s: array<char>

    constructor ()
      ensures s.Length == 33 && fresh(s)
    {
      s := new char[33];
    }

    /** The buffer holds the NUL-terminated string `t`. */
    ghost predicate Holds(t: string)
      reads s
    {
      |t| < s.Length && s[..|t|] == t && s[|t|] == '\0'
    }

    /** The digits of `un0` from the low one up, starting at index `i0`. */
    method Fill(un0: u32, base: nat, upper: bool, i0: nat) returns (i: nat)
      requires s.Length == 33 && 2 <= base <= 16 && i0 + |Digits(un0, base, upper)| <= 32
      modifies s
      ensures i == i0 + |Digits(un0, base, upper)| && s[..i0] == old(s[..i0])
      ensures s[i0..i] == Backwards(Digits(un0, base, upper))
    {
      hide Digits, Backwards;
      var un: u32 := un0;
      i := i0;
      NoDigits(base, upper);
      while un > 0
        invariant i0 <= i && i + |Digits(un, base, upper)| == i0 + |Digits(un0, base, upper)|
        invariant s[..i0] == old(s[..i0])
        invariant s[i0..i] + Backwards(Digits(un, base, upper)) == Backwards(Digits(un0, base, upper))
        decreases un
      {
        LowDigit(un, base, upper);
        ghost var filled := s[..i];
        s[i] := DigitChar(un % base, upper);
        assert s[..i] == filled && s[..i + 1] == filled + [DigitChar(un % base, upper)];
        assert s[i0..i + 1] == s[..i + 1][i0..];
        i := i + 1;
        un := un / base;
      }
    }

    /** Turns the characters from index `j0` below index `i0` around. */
    method Reverse(j0: nat, i0: nat)
      requires j0 < i0 <= s.Length
      modifies s
      ensures s[..] == old(s[..j0]) + Backwards(old(s[j0..i0])) + old(s[i0..])
    {
      var j, i := j0, i0 - 1;
      ghost var before := s[..];
      while j < i
        invariant j0 <= j <= i + 1 <= i0 && j - j0 == i0 - 1 - i
        invariant forall x :: j0 <= x < j || i < x < i0 ==> s[x] == Opposite(before, j0, i0 - 1, x)
        invariant forall x :: 0 <= x < j0 || j <= x <= i || i0 <= x < s.Length ==> s[x] == before[x]
        decreases i - j
      {
        s[i], s[j] := s[j], s[i];
        i := i - 1;
        j := j + 1;
      }
      SwappedIsBackwards(before, s[..], j0, i0);
      assert before[..j0] == old(s[..j0]) && before[j0..i0] == old(s[j0..i0]) && before[i0..] == old(s[i0..]);
    }

    /** The digits of `un` at index `i0`, and the terminating NUL. */
    method Spell(un: u32, base: nat, upper: bool, i0: nat)
      requires s.Length == 33 && 2 <= base <= 16 && un > 0 && i0 + |Digits(un, base, upper)| <= 32
      modifies s
      ensures Holds(old(s[..i0]) + Digits(un, base, upper))
    {
      hide Digits, Backwards;
      DigitsDenote(un, base, upper);
      BackwardsTwice(Digits(un, base, upper));
      var i := Fill(un, base, upper, i0);
      ghost var t := s[..i0];
      s[i] := '\0';
      assert s[..i0] == t && s[i0..i] == Backwards(Digits(un, base, upper));
      Reverse(i0, i);
      assert s[i0..][i - i0] == '\0';
      assert s[..i] == s[..i0] + s[i0..i];
    }

    /** `itoa` of the kernel; the negation is that of two's complement words. */
    method KernelItoa(n: i32, base: nat)
      requires s.Length == 33 && 2 <= base <= 16
      modifies s
      ensures Holds(KernelText(n, base))
    {
      hide Digits;
      if n == 0 {
        s[0], s[1] := '0', '\0';
        return;
      }
      DigitsFit(ToUnsigned(n), base, false);
      DigitsFit(Magnitude(n), base, false);
      if n < 0 && base == 10 {
        s[0] := '-';
        assert s[..1] == "-";
        Spell(-(n as int), base, false, 1);
      } else {
        assert s[..0] == "";
        Spell(n % U32, base, false, 0);
      }
    }

    /** `itoa` of the C library. */
    method LibcItoa(n: i32, base: int, upper: bool)
      requires s.Length == 33 && (2 <= base <= 16 || -16 <= base <= -2) && !(base == -2 && n == INT_MIN)
      modifies s
      ensures Holds(LibcText(n, base, upper))
    {
      hide Digits;
      if n == 0 {
        s[0], s[1] := '0', '\0';
        return;
      }
      var b := if base < 0 then -base else base;
      DigitsFit(ToUnsigned(n), b, upper);
      DigitsFit(Magnitude(n), b, upper);
      if base < 0 && !(n > 0) {
        s[0] := '-';
        assert s[..1] == "-";
        Spell(-(n as int), b, upper, 1);
      } else {
        assert s[..0] == "";
        Spell(n % U32, b, upper, 0);
      }
    }
  }

  // ---------- octal numbers of an archive header

  /** The characters before the first NUL among the first `len`. */
  function Field(s: string, len: nat): string
    decreases len
  {
    if len == 0 || s == "" || s[0] == '\0' then "" else [s[0]] + Field(s[1..], len - 1)
  }

  /** The loop's value: eight times the old one plus the digit, in 32 bits. */
  ghost function Octal(t: string): i32 {
    if t == "" then 0 else ToSigned(Octal(t[..|t| - 1]) * 8 + (t[|t| - 1] as int - '0' as int))
  }

  method Oct2Int(str: string, len: nat) returns (n: i32)
    requires len <= |str| || '\0' in str
    ensures n == Octal(Field(str, len))
  {
    hide Octal, Field, ToSigned, Read;
    n := 0;
    ReadNone(str, len);
    var c, left: nat := 0, len;
    while left > 0
      invariant Read(str, len, c, left) && 0 <= c <= |str| && n == Octal(str[..c])
      decreases left
    {
      ReadNext(str, len, c, left);
      left := left - 1;
      if str[c] == '\0' {
        return;
      }
      OctalStep(str, c);
      n := ToSigned(n * 8 + (str[c] as int - '0' as int));
      c := c + 1;
    }
    ReadAll(str, len, c);
  }

  /** `c` characters of the field are read, at most `left` to go. */
  ghost predicate Read(s: string, len: nat, c: nat, left: nat) {
    c <= |s| && c + left == len && '\0' !in s[..c] && Field(s, len) == s[..c] + Field(s[c..], left)
  }

  lemma ReadNone(s: string, len: nat)
    ensures Read(s, len, 0, len) && Octal(s[..0]) == 0
  {
    assert s[0..] == s;
  }

  lemma ReadNext(s: string, len: nat, c: nat, left: nat)
    requires Read(s, len, c, left) && left > 0 && (len <= |s| || '\0' in s)
    ensures c < |s|
    ensures s[c] == '\0' ==> Field(s, len) == s[..c]
    ensures s[c] != '\0' ==> Read(s, len, c + 1, left - 1)
  {
    assert s[..|s|] == s;
    assert s[c..][1..] == s[c + 1..] && s[..c + 1] == s[..c] + [s[c]];
    assert s[c] == '\0' ==> s[..c] + "" == s[..c];
    assert s[c] != '\0' ==> s[..c] + Field(s[c..], left) == s[..c + 1] + Field(s[c + 1..], left - 1);
  }

  lemma ReadAll(s: string, len: nat, c: nat)
    requires Read(s, len, c, 0)
    ensures Field(s, len) == s[..c]
  {
  }

  lemma OctalStep(s: string, c: nat)
    requires c < |s|
    ensures Octal(s[..c + 1]) == ToSigned(Octal(s[..c]) * 8 + (s[c] as int - '0' as int))
  {
    assert s[..c + 1][..c] == s[..c];
  }

  lemma WrapOnce(x: int, d: int)
    ensures ToSigned(ToSigned(x) * 8 + d) == ToSigned(x * 8 + d)
  {
    var k := (x + 0x8000_0000) / U32;
    assert ToSigned(x) == x - U32 * k;
    ShiftedByWords(x * 8 + d + 0x8000_0000, 8 * k);
  }

  lemma ShiftedByWords(x: int, k: int)
    ensures (x - U32 * k) % U32 == x % U32
  {
    DivisionIsUnique(U32, x / U32 - k, x % U32, (x - U32 * k) / U32, (x - U32 * k) % U32);
  }

  ghost predicate OctalDigits(t: string) {
    forall i :: 0 <= i < |t| ==> '0' <= t[i] <= '7'
  }

  /** On octal digits the loop computes the value, in 32 bits. */
  lemma {:induction false} OctalIsValue(t: string)
    requires OctalDigits(t)
    ensures Octal(t) == ToSigned(Value(t, 8))
  {
    if t != "" {
      var front := t[..|t| - 1];
      OctalIsValue(front);
      hide ToSigned;
      WrapOnce(Value(front, 8), CharValue(t[|t| - 1]));
    }
  }

  lemma {:induction false} FieldOfText(t: string, rest: string, len: nat)
    requires '\0' !in t
    ensures Field(t + "\0" + rest, len) == t[..if len < |t| then len else |t|]
    decreases |t|
  {
    var s := t + "\0" + rest;
    if t != "" && len > 0 {
      assert s[1..] == t[1..] + "\0" + rest;
      FieldOfText(t[1..], rest, len - 1);
    }
  }

  lemma {:induction false} PrefixIsSmaller(t: string, k: nat)
    requires Numeral(t, 8, false) && k < |t|
    ensures 0 <= Value(t[..k], 8) < Value(t, 8)
    decreases |t|
  {
    var n := |t| - 1;
    NumeralValue(t, 8, false);
    assert IsDigit(t[n], 8, false);
    FrontValue(t, 8, false);
    if 0 < n {
      if k < n {
        PrefixIsSmaller(t[..n], k);
        assert t[..n][..k] == t[..k];
      }
    }
  }

  /** What an octal text amounts to. */
  lemma OctalText(n: i32)
    ensures var t := KernelText(n, 8);
      && OctalDigits(t) && 0 < |t| <= 11 && '\0' !in t && Value(t, 8) == ToUnsigned(n)
      && (if n == 0 then |t| == 1 else Numeral(t, 8, false))
  {
    var t := KernelText(n, 8);
    hide Digits, Numeral;
    if n == 0 {
      assert Value("0", 8) == 0;
    } else {
      DigitsDenote(ToUnsigned(n), 8, false);
      PowersOfTwo();
      DigitCount(ToUnsigned(n), 8, false, 11);
      OctalNumeral(t);
    }
  }

  lemma OctalNumeral(t: string)
    requires Numeral(t, 8, false)
    ensures OctalDigits(t) && 0 < |t| && '\0' !in t
  {
    hide DigitChar;
    forall i | 0 <= i < |t|
      ensures '0' <= t[i] <= '7'
    {
      assert IsDigit(t[i], 8, false);
    }
  }

  lemma EmptyOctal(t: string)
    ensures Octal(t[..0]) == 0
  {
  }

  /** `oct2int` inverts base-eight `itoa`: always when all digits are read, for which eleven characters suffice. */
  lemma OctalRoundTrip(n: i32, rest: string, len: nat)
    ensures |KernelText(n, 8)| <= 11
    ensures len >= |KernelText(n, 8)| ==> Octal(Field(KernelText(n, 8) + "\0" + rest, len)) == n
    ensures n >= 0 ==> (Octal(Field(KernelText(n, 8) + "\0" + rest, len)) == n <==> len >= |KernelText(n, 8)| || n == 0)
  {
    hide KernelText, Value, Octal, Numeral, Field;
    var t := KernelText(n, 8);
    OctalText(n);
    FieldOfText(t, rest, len);
    var k := if len < |t| then len else |t|;
    OctalIsValue(t[..k]);
    if k == |t| {
      assert t[..k] == t;
    } else if n > 0 {
      PrefixIsSmaller(t, k);
    } else if n == 0 {
      EmptyOctal(t);
    }
  }
}
