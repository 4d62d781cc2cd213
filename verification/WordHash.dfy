/** The one-word hash of a kernel key (`intj_hash_n`, intj/runtime/intj_map.h), and its inverse. */
module WordHash {
  import opened Bits
  import opened Words

  const FIRST := 0xbf58476d1ce4e5b9
  const SECOND := 0x94d049bb133111eb

  /** The inverses of the two multipliers modulo 2^64. */
  const FIRST_BACK := 0x96de1b173f119089
  const SECOND_BACK := 0x319642b2d24d8ec3

  /** How often each product passes 2^64. */
  const FIRST_TURNS := 8125545580553827436
  const SECOND_TURNS := 2077064247507883091

  /** `a ^ b`. */
  function BitXor(a: nat, b: nat): nat
    decreases a + b
  {
    if a == 0 && b == 0 then 0
    else 2 * BitXor(a / 2, b / 2) + if a % 2 != b % 2 then 1 else 0
  }

  lemma {:induction false} XorBit(a: nat, b: nat, i: nat)
    ensures Bit(BitXor(a, b), i) <==> (Bit(a, i) <==> !Bit(b, i))
    decreases i
  {
    if i == 0 {
      BitZero(a);
      BitZero(b);
      BitZero(BitXor(a, b));
    } else {
      BitHalf(a, i);
      BitHalf(b, i);
      BitHalf(BitXor(a, b), i);
      assert BitXor(a, b) / 2 == BitXor(a / 2, b / 2);
      XorBit(a / 2, b / 2, i - 1);
    }
  }

  lemma NoHighBit(x: Word, i: nat)
    requires i >= 64
    ensures !Bit(x, i)
  {
    Pow2Widths();
    BitAbove(x, 64, i);
  }

  /** A natural without bits from 64 up is a word. */
  lemma FitsWord(x: nat)
    requires forall i: nat :: i >= 64 ==> !Bit(x, i)
    ensures x < WORD
  {
    Pow2Widths();
    forall i: nat
      ensures Bit(x % Pow2(64), i) <==> Bit(x, i)
    {
      BitOfMod(x, 64, i);
    }
    SameBits(x % Pow2(64), x);
  }

  /** `x >> s`. */
  function Right(x: nat, s: nat): (r: nat)
    ensures r == Shift(x, s)
  {
    DivNonNegative(x, Pow2(s));
    x / Pow2(s)
  }

  lemma DivNonNegative(x: nat, p: nat)
    requires p > 0
    ensures x / p >= 0
  {
  }

  /** `x ^ x >> s`. */
  function XorShift(x: nat, s: nat): nat {
    BitXor(x, Right(x, s))
  }

  lemma XorShiftBit(x: nat, s: nat, i: nat)
    ensures Bit(XorShift(x, s), i) <==> (Bit(x, i) <==> !Bit(x, s + i))
  {
    XorBit(x, Right(x, s), i);
    BitOfShift(x, s, i);
  }

  lemma XorShiftFits(x: Word, s: nat)
    ensures XorShift(x, s) < WORD
  {
    hide XorShift;
    hide Bit;
    forall i: nat | i >= 64
      ensures !Bit(XorShift(x, s), i)
    {
      XorShiftBit(x, s, i);
      NoHighBit(x, i);
      NoHighBit(x, s + i);
    }
    FitsWord(XorShift(x, s));
  }

  /** `x ^ x >> s ^ x >> 2 * s`: what undoes a shift of at least a third of the word. */
  function Unshift(x: nat, s: nat): nat {
    BitXor(BitXor(x, Right(x, s)), Right(x, 2 * s))
  }

  lemma UnshiftBit(x: nat, s: nat, i: nat)
    ensures Bit(Unshift(x, s), i) <==> ((Bit(x, i) <==> !Bit(x, s + i)) <==> !Bit(x, 2 * s + i))
  {
    XorBit(BitXor(x, Right(x, s)), Right(x, 2 * s), i);
    XorBit(x, Right(x, s), i);
    BitOfShift(x, s, i);
    BitOfShift(x, 2 * s, i);
  }

  lemma UnshiftFits(x: Word, s: nat)
    ensures Unshift(x, s) < WORD
  {
    hide Unshift;
    hide Bit;
    forall i: nat | i >= 64
      ensures !Bit(Unshift(x, s), i)
    {
      UnshiftBit(x, s, i);
      NoHighBit(x, i);
      NoHighBit(x, s + i);
      NoHighBit(x, 2 * s + i);
    }
    FitsWord(Unshift(x, s));
  }

  lemma BackBit(x: Word, s: nat, i: nat)
    requires 3 * s >= 64
    ensures Bit(Unshift(XorShift(x, s), s), i) <==> Bit(x, i)
    ensures Bit(XorShift(Unshift(x, s), s), i) <==> Bit(x, i)
  {
    hide XorShift;
    hide Unshift;
    hide Bit;
    NoHighBit(x, 3 * s + i);
    UnshiftBit(XorShift(x, s), s, i);
    XorShiftBit(x, s, i);
    XorShiftBit(x, s, s + i);
    XorShiftBit(x, s, 2 * s + i);
    XorShiftBit(Unshift(x, s), s, i);
    UnshiftBit(x, s, i);
    UnshiftBit(x, s, s + i);
  }

  lemma ShiftRoundTrip(x: Word, s: nat)
    requires 3 * s >= 64
    ensures Unshift(XorShift(x, s), s) == x && XorShift(Unshift(x, s), s) == x
  {
    hide XorShift;
    hide Unshift;
    hide Bit;
    forall i: nat
      ensures Bit(Unshift(XorShift(x, s), s), i) <==> Bit(x, i)
      ensures Bit(XorShift(Unshift(x, s), s), i) <==> Bit(x, i)
    {
      BackBit(x, s, i);
    }
    SameBits(Unshift(XorShift(x, s), s), x);
    SameBits(XorShift(Unshift(x, s), s), x);
  }

  /** `x * c` on words. */
  function Times(x: nat, c: nat): Word {
    x * c % WORD
  }

  lemma TimesRoundTrip(x: Word, c: nat, back: nat, k: nat)
    requires c * back == k * WORD + 1
    ensures Times(Times(x, c), back) == x
  {
    var y, q := x * c % WORD, x * c / WORD;
    assert x * c == WORD * q + y;
    assert y * back == x * (c * back) - WORD * (q * back) by {
      assert y == x * c - WORD * q;
      assert (x * c - WORD * q) * back == x * c * back - WORD * q * back;
    }
    assert x * (k * WORD + 1) == WORD * (x * k) + x;
    Distribute(WORD, x * k, q * back);
    DivUnique(y * back, WORD, x * k - q * back, x);
  }

  function Hash(x: Word): nat {
    XorShift(Times(XorShift(Times(XorShift(x, 30), FIRST), 27), SECOND), 31)
  }

  function Unhash(h: nat): nat {
    Unshift(Times(Unshift(Times(Unshift(h, 31), SECOND_BACK), 27), FIRST_BACK), 30)
  }

  lemma InverseMultipliers()
    ensures FIRST * FIRST_BACK == FIRST_TURNS * WORD + 1
    ensures SECOND * SECOND_BACK == SECOND_TURNS * WORD + 1
  {
  }

  /** The one-word hash is a bijection of the 64-bit words, with `Unhash` for its inverse: distinct
      one-word keys never share a hash, and no word is missed. */
  lemma HashIsBijection(x: Word)
    ensures Hash(x) < WORD && Unhash(Hash(x)) == x
    ensures Unhash(x) < WORD && Hash(Unhash(x)) == x
  {
    InverseMultipliers();
    hide XorShift;
    hide Unshift;
    hide Times;
    XorShiftFits(x, 30);
    var a := XorShift(x, 30);
    XorShiftFits(Times(a, FIRST), 27);
    var b := XorShift(Times(a, FIRST), 27);
    XorShiftFits(Times(b, SECOND), 31);
    ShiftRoundTrip(x, 30);
    ShiftRoundTrip(Times(a, FIRST), 27);
    ShiftRoundTrip(Times(b, SECOND), 31);
    TimesRoundTrip(a, FIRST, FIRST_BACK, FIRST_TURNS);
    TimesRoundTrip(b, SECOND, SECOND_BACK, SECOND_TURNS);
    UnhashFirst(x);
  }

  lemma UnhashFirst(x: Word)
    ensures Unhash(x) < WORD && Hash(Unhash(x)) == x
  {
    InverseMultipliers();
    hide XorShift;
    hide Unshift;
    hide Times;
    UnshiftFits(x, 31);
    var c := Unshift(x, 31);
    UnshiftFits(Times(c, SECOND_BACK), 27);
    var d := Unshift(Times(c, SECOND_BACK), 27);
    UnshiftFits(Times(d, FIRST_BACK), 30);
    ShiftRoundTrip(x, 31);
    ShiftRoundTrip(Times(c, SECOND_BACK), 27);
    ShiftRoundTrip(Times(d, FIRST_BACK), 30);
    TimesRoundTrip(c, SECOND_BACK, SECOND, SECOND_TURNS);
    TimesRoundTrip(d, FIRST_BACK, FIRST, FIRST_TURNS);
  }

  /** The rounds as they run; the word they started from can be read back. */
  method HashWord(w: Word) returns (x: nat)
    ensures x == Hash(w) && x < WORD && Unhash(x) == w
  {
    x := w;
    x := XorShift(x, 30);
    x := Times(x, FIRST);
    x := XorShift(x, 27);
    x := Times(x, SECOND);
    x := XorShift(x, 31);
    HashIsBijection(w);
  }
}
