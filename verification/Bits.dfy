/** Two's-complement bit operations on unbounded integers, and the power-of-two
    arithmetic behind the shifts, masks and words of the C runtime. */
module Bits {

  function Pow2(n: nat): (p: nat)
    ensures p >= 1
  {
    if n == 0 then 1 else 2 * Pow2(n - 1)
  }

  /** Distance from the nearer of the all-zeros and all-ones patterns. */
  function Magnitude(a: int): nat {
    if a >= 0 then a else -1 - a
  }

  /** `a | b` on two's-complement integers of any width. */
  function BitOr(a: int, b: int): int
    decreases Magnitude(a) + Magnitude(b)
  {
    if (a == 0 || a == -1) && (b == 0 || b == -1) then
      if a == -1 || b == -1 then -1 else 0
    else
      2 * BitOr(a / 2, b / 2) + if a % 2 == 1 || b % 2 == 1 then 1 else 0
  }

  lemma OrHalves(a: int, b: int)
    ensures BitOr(a, b) / 2 == BitOr(a / 2, b / 2)
    ensures BitOr(a, b) % 2 == if a % 2 == 1 || b % 2 == 1 then 1 else 0
  {
  }

  lemma {:induction false} OrZero(a: int)
    ensures BitOr(a, 0) == a && BitOr(0, a) == a
    decreases Magnitude(a)
  {
    if a != 0 && a != -1 {
      OrZero(a / 2);
    }
  }

  lemma {:induction false} OrOnes(a: int)
    ensures BitOr(a, -1) == -1 && BitOr(-1, a) == -1
    decreases Magnitude(a)
  {
    if a != 0 && a != -1 {
      OrOnes(a / 2);
    }
  }

  lemma {:induction false} OrNonNegative(a: int, b: int)
    requires a >= 0 && b >= 0
    ensures BitOr(a, b) >= a && BitOr(a, b) >= b
    decreases a + b
  {
    if a != 0 || b != 0 {
      OrNonNegative(a / 2, b / 2);
    }
  }

  lemma MulAtLeast(d: int, k: int)
    requires d > 0
    ensures k >= 1 ==> d * k >= d
    ensures k <= -1 ==> d * k <= -d
  {
  }

  lemma Distribute(d: int, a: int, b: int)
    ensures d * (a - b) == d * a - d * b
    ensures d * (a + b) == d * a + d * b
  {
  }

  lemma DivUnique(x: int, d: int, q: int, r: int)
    requires d > 0 && 0 <= r < d && x == d * q + r
    ensures x / d == q && x % d == r
  {
    Distribute(d, x / d, q);
    MulAtLeast(d, x / d - q);
  }

  lemma HalveThenDiv(x: int, p: int)
    requires p > 0
    ensures (x / 2) / p == x / (2 * p)
  {
    var q2, r2 := x / 2 / p, x / 2 % p;
    assert (2 * p) * q2 == 2 * (p * q2);
    DivUnique(x, 2 * p, q2, 2 * r2 + x % 2);
  }

  lemma ShiftHalf(x: int, k: nat)
    requires k > 0
    ensures Shift(x, k) == Shift(x / 2, k - 1)
  {
    HalveThenDiv(x, Pow2(k - 1));
  }

  lemma {:induction false} Pow2Add(a: nat, b: nat)
    ensures Pow2(a + b) == Pow2(a) * Pow2(b)
  {
    if a > 0 {
      Pow2Add(a - 1, b);
      assert Pow2(a + b) == 2 * Pow2(a - 1 + b);
    }
  }

  lemma Pow2Widths()
    ensures Pow2(8) == 256 && Pow2(30) == 0x4000_0000 && Pow2(32) == 0x1_0000_0000
    ensures Pow2(63) == 0x8000_0000_0000_0000 && Pow2(64) == 0x1_0000_0000_0000_0000
  {
    assert Pow2(2) == 4 && Pow2(64) == 2 * Pow2(63) && Pow2(32) == 4 * Pow2(30);
    hide Pow2;
    Pow2Add(2, 2);
    assert Pow2(4) == 16;
    Pow2Add(4, 4);
    assert Pow2(8) == 256;
    Pow2Add(8, 8);
    assert Pow2(16) == 0x1_0000;
    Pow2Add(16, 16);
    assert Pow2(32) == 0x1_0000_0000;
    Pow2Add(32, 32);
  }

  lemma {:induction false} Pow2Less(a: nat, b: nat)
    requires a < b
    ensures Pow2(a) < Pow2(b)
  {
    if a + 1 < b {
      Pow2Less(a, b - 1);
    }
  }

  /** `x >> k`, arithmetic. */
  function Shift(x: int, k: nat): int {
    x / Pow2(k)
  }

  /** A right shift distributes over or. */
  lemma {:induction false} OrShift(a: int, b: int, k: nat)
    ensures Shift(BitOr(a, b), k) == BitOr(Shift(a, k), Shift(b, k))
    decreases k
  {
    if k == 0 {
      assert Shift(a, 0) == a && Shift(b, 0) == b && Shift(BitOr(a, b), 0) == BitOr(a, b);
    } else {
      ShiftHalf(a, k);
      ShiftHalf(b, k);
      ShiftHalf(BitOr(a, b), k);
      OrHalves(a, b);
      OrShift(a / 2, b / 2, k - 1);
    }
  }

  lemma {:induction false} ShiftShift(x: int, a: nat, b: nat)
    ensures Shift(Shift(x, a), b) == Shift(x, a + b)
    decreases a
  {
    if a == 0 {
      assert Shift(x, 0) == x;
    } else {
      ShiftHalf(x, a);
      ShiftHalf(x, a + b);
      ShiftShift(x / 2, a - 1, b);
    }
  }

  predicate Bit(x: int, i: nat) {
    Shift(x, i) % 2 == 1
  }

  lemma OrBit(a: int, b: int, i: nat)
    ensures Bit(BitOr(a, b), i) <==> Bit(a, i) || Bit(b, i)
  {
    OrShift(a, b, i);
    OrHalves(Shift(a, i), Shift(b, i));
  }

  /** `x | x >> j`. */
  function SmearBy(x: int, j: nat): int {
    BitOr(x, Shift(x, j))
  }

  /** Bits `lo` up to `hi` of `x` are all ones. */
  ghost predicate Filled(x: int, lo: int, hi: int) {
    forall i: nat :: lo <= i < hi ==> Bit(x, i)
  }

  /** One smear step extends a run of ones downwards by its shift. */
  lemma SmearFills(x: int, j: nat, lo: int, hi: int)
    requires Filled(x, lo, hi) && lo + j <= hi
    ensures Filled(SmearBy(x, j), lo - j, hi)
  {
    forall i: nat | lo - j <= i < hi
      ensures Bit(SmearBy(x, j), i)
    {
      OrBit(x, Shift(x, j), i);
      ShiftShift(x, j, i);
      if i < lo {
        assert Bit(x, j + i);
      }
    }
  }

  lemma {:induction false} ShiftConstant(x: int, k: nat)
    requires x == 0 || x == -1
    ensures Shift(x, k) == x
  {
    if k > 0 {
      ShiftHalf(x, k);
      ShiftConstant(x / 2, k - 1);
    } else {
      assert Shift(x, 0) == x;
    }
  }

  /** A smear step keeps the sign bits above `m` as they are. */
  lemma SmearKeepsTop(x: int, j: nat, m: nat)
    requires Shift(x, m) == 0 || Shift(x, m) == -1
    ensures Shift(SmearBy(x, j), m) == Shift(x, m)
  {
    OrShift(x, Shift(x, j), m);
    ShiftShift(x, j, m);
    ShiftShift(x, m, j);
    ShiftConstant(Shift(x, m), j);
    OrZero(0);
    OrOnes(-1);
  }

  /** A number whose low `m` bits are ones is one below a multiple of 2^m. */
  lemma {:induction false} AllOnes(x: int, m: nat)
    requires Filled(x, 0, m)
    ensures x + 1 == Pow2(m) * (Shift(x, m) + 1)
    decreases m
  {
    if m == 0 {
      assert Shift(x, 0) == x;
    } else {
      assert Bit(x, 0) && Shift(x, 0) == x;
      forall i: nat | i < m - 1
        ensures Bit(x / 2, i)
      {
        ShiftHalf(x, i + 1);
        assert Bit(x, i + 1);
      }
      AllOnes(x / 2, m - 1);
      ShiftHalf(x, m);
      assert Pow2(m) * (Shift(x, m) + 1) == 2 * (Pow2(m - 1) * (Shift(x, m) + 1));
    }
  }

  /** `a & b`. */
  function BitAnd(a: int, b: int): int {
    -1 - BitOr(-1 - a, -1 - b)
  }

  lemma ComplementHalf(x: int)
    ensures (-1 - x) / 2 == -1 - x / 2 && (-1 - x) % 2 == 1 - x % 2
  {
  }

  lemma AndHalves(a: int, b: int)
    ensures BitAnd(a, b) / 2 == BitAnd(a / 2, b / 2)
    ensures BitAnd(a, b) % 2 == if a % 2 == 1 && b % 2 == 1 then 1 else 0
  {
    OrHalves(-1 - a, -1 - b);
    hide BitOr;
    ComplementHalf(a);
    ComplementHalf(b);
    ComplementHalf(BitOr(-1 - a, -1 - b));
  }

  lemma FromHalves(a: int, b: int)
    requires a / 2 == b / 2 && a % 2 == b % 2
    ensures a == b
  {
  }

  lemma MaskHalves(x: int, p: int)
    requires p > 0 && BitAnd(x / 2, p - 1) == x / 2 % p
    ensures BitAnd(x, 2 * p - 1) == x % (2 * p)
  {
    AndHalves(x, 2 * p - 1);
    hide BitAnd;
    ModHalves(x, p);
    FromHalves(BitAnd(x, 2 * p - 1), 2 * (x / 2 % p) + x % 2);
  }

  /** Masking with 2^k - 1 keeps the low k bits. */
  lemma {:induction false} MaskIsMod(x: int, k: nat)
    ensures BitAnd(x, Pow2(k) - 1) == x % Pow2(k)
    decreases k
  {
    if k == 0 {
      OrOnes(-1 - x);
    } else {
      MaskIsMod(x / 2, k - 1);
      MaskHalves(x, Pow2(k - 1));
    }
  }

  lemma ModHalves(x: int, p: int)
    requires p > 0
    ensures x % (2 * p) == 2 * (x / 2 % p) + x % 2
  {
    var q, r := x / 2 / p, x / 2 % p;
    assert (2 * p) * q == 2 * (p * q);
    DivUnique(x, 2 * p, q, 2 * r + x % 2);
  }

  // ---------------------------------------------------------------- bit by bit

  lemma BitHalf(x: int, i: nat)
    requires i > 0
    ensures Bit(x, i) <==> Bit(x / 2, i - 1)
  {
    ShiftHalf(x, i);
  }

  lemma BitZero(x: int)
    ensures Bit(x, 0) <==> x % 2 == 1
  {
    assert Shift(x, 0) == x;
  }

  /** Naturals with the same bits are equal. */
  lemma {:induction false} SameBits(a: nat, b: nat)
    requires forall i: nat :: Bit(a, i) <==> Bit(b, i)
    ensures a == b
    decreases a + b
  {
    if a + b > 0 {
      BitZero(a);
      BitZero(b);
      assert a % 2 == 1 <==> b % 2 == 1 by {
        assert Bit(a, 0) <==> Bit(b, 0);
      }
      forall i: nat
        ensures Bit(a / 2, i) <==> Bit(b / 2, i)
      {
        BitHalf(a, i + 1);
        BitHalf(b, i + 1);
        assert Bit(a, i + 1) <==> Bit(b, i + 1);
      }
      SameBits(a / 2, b / 2);
    }
  }

  lemma BitOfShift(x: int, k: nat, i: nat)
    ensures Bit(Shift(x, k), i) <==> Bit(x, k + i)
  {
    ShiftShift(x, k, i);
  }

  /** `x << k`. */
  function ShiftLeft(x: int, k: nat): int {
    x * Pow2(k)
  }

  lemma {:induction false} BitOfShiftLeft(x: int, k: nat, i: nat)
    ensures Bit(ShiftLeft(x, k), i) <==> i >= k && Bit(x, i - k)
    decreases k
  {
    if k == 0 {
      assert ShiftLeft(x, 0) == x;
    } else {
      assert ShiftLeft(x, k) == 2 * ShiftLeft(x, k - 1);
      if i == 0 {
        BitZero(ShiftLeft(x, k));
      } else {
        BitHalf(ShiftLeft(x, k), i);
        BitOfShiftLeft(x, k - 1, i - 1);
      }
    }
  }

  lemma {:induction false} BitOfMod(x: int, k: nat, i: nat)
    ensures Bit(x % Pow2(k), i) <==> i < k && Bit(x, i)
    decreases k
  {
    if k == 0 {
      ShiftConstant(0, i);
    } else {
      ModHalves(x, Pow2(k - 1));
      var y := x % Pow2(k);
      assert y / 2 == x / 2 % Pow2(k - 1) && y % 2 == x % 2;
      if i == 0 {
        BitZero(y);
        BitZero(x);
      } else {
        BitHalf(y, i);
        BitHalf(x, i);
        BitOfMod(x / 2, k - 1, i - 1);
      }
    }
  }

  lemma BitAbove(x: nat, k: nat, i: nat)
    requires x < Pow2(k) && i >= k
    ensures !Bit(x, i)
  {
    DivUnique(x, Pow2(k), 0, x);
    BitOfMod(x, k, i);
  }

  lemma BitOfZero(i: nat)
    ensures !Bit(0, i)
  {
    ShiftConstant(0, i);
  }
}
