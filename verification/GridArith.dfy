/** The checked int64 helpers every lowered grid or heuristic calls
    (intj/runtime/intj_runtime.h), and the Python arithmetic they stand for. */
module GridArith {
  import opened Bits
  import opened Words

  predicate InI64(x: int) {
    INT64_MIN <= x <= INT64_MAX
  }

  /** What a helper leaves behind: a value, or the Python exception it set. */
  datatype Status = Ok(value: int) | Overflow | ZeroDivision

  function Checked(x: int): Status {
    if InI64(x) then Ok(x) else Overflow
  }

  /** Python's `n // d`: rounds towards negative infinity. */
  function FloorDiv(n: int, d: int): int
    requires d != 0
  {
    if d > 0 then n / d else (-n) / (-d)
  }

  /** Python's `n % d`: takes the sign of `d`. */
  function FloorMod(n: int, d: int): int
    requires d != 0
  {
    n - FloorDiv(n, d) * d
  }

  /** Section 6.7 of the Python Language Reference: `n == (n // d) * d + n % d`, the
      remainder is smaller than the divisor and has its sign, and no other quotient
      leaves such a remainder. */
  lemma FloorDivMeaning(n: int, d: int, q: int)
    requires d != 0
    ensures if d > 0 then 0 <= FloorMod(n, d) < d else d < FloorMod(n, d) <= 0
    ensures (if d > 0 then 0 <= n - q * d < d else d < n - q * d <= 0) ==> q == FloorDiv(n, d)
  {
    var e, m := if d > 0 then d else -d, if d > 0 then n else -n;
    assert FloorDiv(n, d) * d == if d > 0 then e * (m / e) else -(e * (m / e));
    if d > 0 && 0 <= n - q * d < d {
      DivUnique(m, e, q, n - q * d);
    }
    if d < 0 && d < n - q * d <= 0 {
      DivUnique(m, e, q, -(n - q * d));
    }
  }

  /** C's `/`: rounds towards zero. */
  function TruncDiv(n: int, d: int): int
    requires d != 0
  {
    if n >= 0 then
      if d > 0 then n / d else -(n / -d)
    else
      if d > 0 then -(-n / d) else -n / -d
  }

  function FloorStatus(n: int, d: int): Status {
    if d == 0 then ZeroDivision else Checked(FloorDiv(n, d))
  }

  function ModStatus(a: int, b: int): Status {
    if b == 0 then ZeroDivision
    else if InI64(FloorDiv(a, b)) then Ok(FloorMod(a, b)) else Overflow
  }

  lemma TruncRemainder(n: int, d: int)
    requires d != 0
    ensures var r := n - TruncDiv(n, d) * d;
            && (n >= 0 ==> 0 <= r) && (n <= 0 ==> r <= 0)
            && (if d > 0 then -d < r < d else d < r < -d)
  {
    var e, m := if d > 0 then d else -d, if n >= 0 then n else -n;
    SignsOfProduct(m / e, e);
    assert TruncDiv(n, d) == if (n >= 0) == (d > 0) then m / e else -(m / e);
    SignedRemainder(n, d, m / e, m % e);
  }

  lemma SignsOfProduct(q: int, d: int)
    ensures (-q) * d == -(q * d) && q * -d == -(q * d) && d * q == q * d
  {
  }

  lemma SignedRemainder(n: int, d: int, q: int, r: int)
    requires (if n >= 0 then n else -n) == (if d > 0 then d else -d) * q + r
    ensures n - (if (n >= 0) == (d > 0) then q else -q) * d == if n >= 0 then r else -r
  {
    SignsOfProduct(q, d);
  }

  method Floor128(n: int, d: int) returns (s: Status)
    ensures s == FloorStatus(n, d)
  {
    if d == 0 {
      return ZeroDivision;
    }
    var q := TruncDiv(n, d);
    var r := n - q * d;
    TruncRemainder(n, d);
    if r != 0 && (r < 0) != (d < 0) {
      Distribute(d, q, 1);
      q := q - 1;
    }
    FloorDivMeaning(n, d, q);
    if q < INT64_MIN || q > INT64_MAX {
      return Overflow;
    }
    return Ok(q);
  }

  method Cdiv(a: int, b: int) returns (s: Status)
    ensures s == FloorStatus(a + b - 1, b)
  {
    s := Floor128(a + b - 1, b);
  }

  method Mod(a: int, b: int) returns (s: Status)
    ensures s == ModStatus(a, b)
  {
    s := Floor128(a, b);
    if s.Ok? {
      s := Ok(a - s.value * b);
    }
  }

  /** On int64 operands mod never returns a value Python would not, returns it whenever
      the floor quotient fits, and refuses exactly one case Python computes. */
  lemma ModMeaning(a: int, b: int)
    requires InI64(a) && InI64(b) && b != 0
    ensures ModStatus(a, b).Ok? ==> InI64(FloorMod(a, b))
    ensures ModStatus(a, b) == (if a == INT64_MIN && b == -1 then Overflow else Ok(FloorMod(a, b)))
    ensures FloorMod(INT64_MIN, -1) == 0
  {
    FloorDivMeaning(a, b, 0);
    QuotientFits(a, b);
  }

  lemma QuotientFits(a: int, b: int)
    requires InI64(a) && InI64(b) && b != 0
    ensures InI64(FloorDiv(a, b)) <==> !(a == INT64_MIN && b == -1)
  {
    var e, m := if b > 0 then b else -b, if b > 0 then a else -a;
    QuotientBound(m, e);
    assert m / 1 == m;
  }

  lemma MulSign(a: int, b: int)
    requires a >= 0
    ensures (b >= 0 ==> a * b >= 0) && (b <= 0 ==> a * b <= 0)
  {
  }

  lemma QuotientBound(m: int, e: int)
    requires e > 0
    ensures m >= 0 ==> 0 <= m / e <= m
    ensures m >= 0 && e >= 2 ==> 2 * (m / e) <= m
    ensures m < 0 ==> m <= m / e <= 0
  {
    QuotientBetween(m, e, m / e, m % e);
  }

  lemma QuotientBetween(m: int, e: int, q: int, r: int)
    requires e >= 1 && m == e * q + r && 0 <= r < e
    ensures m >= 0 ==> 0 <= q <= m
    ensures m >= 0 && e >= 2 ==> 2 * q <= m
    ensures m < 0 ==> m <= q <= 0
  {
    MulAtLeast(e, q);
    Distribute(q, e, 2);
    Distribute(q, e, 1);
    if m >= 0 {
      MulSign(q, e - 1);
      if e >= 2 {
        MulSign(q, e - 2);
      }
    } else {
      Distribute(e - 1, q, 1);
      MulSign(e - 1, q + 1);
    }
  }

  /** `triton.next_power_of_2` on unbounded ints, step for step. */
  function Smear(x: int): int {
    SmearBy(SmearBy(SmearBy(SmearBy(SmearBy(SmearBy(x, 1), 2), 4), 8), 16), 32)
  }

  function NextPow2Status(n: int): Status {
    if n == INT64_MIN then Overflow else Checked(Smear(n - 1) + 1)
  }

  method NextPow2(n: int) returns (s: Status)
    requires InI64(n)
    ensures s == NextPow2Status(n)
  {
    if n == INT64_MIN {
      return Overflow;
    }
    var x := n - 1;
    x := BitOr(x, Shift(x, 1));
    x := BitOr(x, Shift(x, 2));
    x := BitOr(x, Shift(x, 4));
    x := BitOr(x, Shift(x, 8));
    x := BitOr(x, Shift(x, 16));
    x := BitOr(x, Shift(x, 32));
    s := Checked(x + 1);
  }

  lemma SmearSteps(x: int, lo: int, hi: int, m: nat)
    requires Filled(x, lo, hi) && lo < hi
    requires Shift(x, m) == 0 || Shift(x, m) == -1
    ensures Filled(Smear(x), lo - 63, hi) && Shift(Smear(x), m) == Shift(x, m)
  {
    var x1 := SmearBy(x, 1);
    var x2 := SmearBy(x1, 2);
    var x3 := SmearBy(x2, 4);
    var x4 := SmearBy(x3, 8);
    var x5 := SmearBy(x4, 16);
    SmearFills(x, 1, lo, hi);
    SmearFills(x1, 2, lo - 1, hi);
    SmearFills(x2, 4, lo - 3, hi);
    SmearFills(x3, 8, lo - 7, hi);
    SmearFills(x4, 16, lo - 15, hi);
    SmearFills(x5, 32, lo - 31, hi);
    SmearKeepsTop(x, 1, m);
    SmearKeepsTop(x1, 2, m);
    SmearKeepsTop(x2, 4, m);
    SmearKeepsTop(x3, 8, m);
    SmearKeepsTop(x4, 16, m);
    SmearKeepsTop(x5, 32, m);
  }

  /** Some m > 0 puts a positive x in [2^(m-1), 2^m). */
  lemma {:induction false} BitLength(x: int) returns (m: nat)
    requires x > 0
    ensures m >= 1 && Pow2(m - 1) <= x < Pow2(m)
    ensures Shift(x, m) == 0 && Shift(x, m - 1) == 1
    decreases x
  {
    if x == 1 {
      m := 1;
    } else {
      m := BitLength(x / 2);
      ShiftHalf(x, m);
      ShiftHalf(x, m + 1);
      m := m + 1;
    }
  }

  lemma Pow2Values()
    ensures Pow2(62) == 0x4000_0000_0000_0000 && Pow2(63) == 0x8000_0000_0000_0000
  {
    assert Pow2(8) == 0x100;
    Pow2Add(8, 8);
    Pow2Add(16, 15);
    Pow2Add(31, 31);
    assert Pow2(16) == 2 * Pow2(15);
    assert Pow2(63) == 2 * Pow2(62);
  }

  lemma RunOfOnes(z: int, lo: int, m: nat)
    requires Filled(z, lo, m) && lo <= 0
    requires Shift(z, m) == 0 || Shift(z, m) == -1
    ensures z + 1 == if Shift(z, m) == 0 then Pow2(m) else 0
  {
    AllOnes(z, m);
  }

  lemma SmearNegative(x: int)
    requires INT64_MIN <= x < 0
    ensures Smear(x) == -1
  {
    Pow2Values();
    DivUnique(x, Pow2(63), -1, x + Pow2(63));
    assert Shift(x, 63) == -1;
    forall i: nat | 63 <= i < 64
      ensures Bit(x, i)
    {
      ShiftShift(x, 63, i - 63);
      ShiftConstant(-1, i - 63);
    }
    SmearSteps(x, 63, 64, 63);
    RunOfOnes(Smear(x), 0, 63);
  }

  lemma SmearPositive(x: int, m: nat)
    requires 1 <= m <= 64 && Pow2(m - 1) <= x < Pow2(m)
    requires Shift(x, m) == 0 && Shift(x, m - 1) == 1
    ensures Smear(x) + 1 == Pow2(m)
  {
    SmearSteps(x, m - 1, m, m);
    RunOfOnes(Smear(x), m - 64, m);
  }

  ghost predicate LeastPow2(p: int, n: int) {
    && (exists k: nat :: p == Pow2(k))
    && n <= p
    && forall k: nat :: n <= Pow2(k) ==> p <= Pow2(k)
  }

  lemma LeastPow2From(n: int, m: nat)
    requires Pow2(m) >= n && (m > 0 ==> Pow2(m - 1) < n) && n >= 1
    ensures LeastPow2(Pow2(m), n)
  {
    forall k: nat | n <= Pow2(k)
      ensures Pow2(m) <= Pow2(k)
    {
      if k < m {
        if k < m - 1 { Pow2Less(k, m - 1); }
      } else if m < k {
        Pow2Less(m, k);
      }
    }
  }

  lemma SmearAboveOne(n: int) returns (m: nat)
    requires 1 < n <= INT64_MAX
    ensures Smear(n - 1) + 1 == Pow2(m) && LeastPow2(Pow2(m), n)
    ensures m <= 62 <==> n <= Pow2(62)
    ensures m >= 63 ==> Pow2(63) <= Pow2(m)
    ensures m <= 62 ==> Pow2(m) <= Pow2(62)
  {
    hide Smear;
    Pow2Values();
    m := BitLength(n - 1);
    if m > 64 { Pow2LessEq(63, m - 1); }
    SmearPositive(n - 1, m);
    LeastPow2From(n, m);
    if m <= 62 { Pow2LessEq(m, 62); } else { Pow2LessEq(62, m - 1); Pow2LessEq(63, m); }
  }

  /** The bit smear computes the least power of two on [1, 2^62], zero below it, and
      refuses every other int64. */
  lemma NextPow2Meaning(n: int)
    requires InI64(n)
    ensures 1 <= n <= Pow2(62) ==>
              NextPow2Status(n).Ok? && LeastPow2(NextPow2Status(n).value, n)
    ensures INT64_MIN < n <= 0 ==> NextPow2Status(n) == Ok(0)
    ensures n == INT64_MIN || n > Pow2(62) ==> NextPow2Status(n) == Overflow
  {
    hide Smear;
    Pow2Values();
    if n == 1 {
      SmearZero();
      LeastPow2From(1, 0);
    } else if n > 1 {
      var m := SmearAboveOne(n);
    } else if n > INT64_MIN {
      SmearNegative(n - 1);
    }
  }

  lemma SmearZero()
    ensures Smear(0) == 0
  {
    forall k: nat
      ensures SmearBy(0, k) == 0
    {
      ShiftConstant(0, k);
    }
  }

  lemma Pow2LessEq(a: nat, b: nat)
    requires a <= b
    ensures Pow2(a) <= Pow2(b)
  {
    if a < b {
      Pow2Less(a, b);
    }
  }
}
