/** CPython's ints as the launcher reads them: a sign and 30-bit digits, in two object layouts
    (intj/python_intf/cpython_abi.h). */
module IntDecode {
  import opened Bits
  import opened Optional
  import opened Words

  const DIGIT := 0x4000_0000

  /** `ob_size`, signed, before 3.12; from 3.12 `lv_tag`, the digit count above three bits of sign. */
  datatype PyLong = Sized(size: int, digits: seq<nat>) | Tagged(tag: nat, digits: seq<nat>)

  function Count(v: PyLong): nat {
    match v
    case Sized(size, _) => if size < 0 then -size else size
    case Tagged(tag, _) => tag / 8
  }

  predicate IsNegative(v: PyLong) {
    match v
    case Sized(size, _) => size < 0
    case Tagged(tag, _) => tag % 4 == 2
  }

  /** The positional value of the digits, least significant first. */
  function Positional(digits: seq<nat>): nat {
    if digits == [] then 0 else digits[0] + DIGIT * Positional(digits[1..])
  }

  function Magnitude(v: PyLong): nat
    requires Count(v) <= |v.digits|
  {
    Positional(v.digits[..Count(v)])
  }

  /** The Python int the object is. */
  function IntOf(v: PyLong): int
    requires Count(v) <= |v.digits|
  {
    if IsNegative(v) then 0 - Magnitude(v) else Magnitude(v)
  }

  /** What CPython keeps of its ints: digits below 2^30 with no leading zero; and from 3.12, a zero
      with sign 1 and one zero digit, and every other int with sign 0 or 2. */
  predicate Normalized(v: PyLong) {
    && Count(v) <= |v.digits|
    && (forall i :: 0 <= i < |v.digits| ==> v.digits[i] < DIGIT)
    && (Count(v) > 0 ==> v.digits[Count(v) - 1] > 0)
    && (v.Tagged? ==>
          && |v.digits| > 0
          && (if Count(v) == 0 then v.tag % 8 == 1 && v.digits[0] == 0 else v.tag % 8 == 0 || v.tag % 8 == 2))
  }

  lemma {:induction false} PositionalBelow(digits: seq<nat>)
    requires forall i :: 0 <= i < |digits| ==> digits[i] < DIGIT
    ensures Positional(digits) < Pow2(30 * |digits|)
    decreases |digits|
  {
    if digits != [] {
      PositionalBelow(digits[1..]);
      Pow2Add(30, 30 * (|digits| - 1));
      Pow2Widths();
      assert 30 * |digits| == 30 + 30 * (|digits| - 1);
      Scale(Positional(digits[1..]), Pow2(30 * (|digits| - 1)), digits[0]);
    }
  }

  lemma Scale(x: nat, p: nat, d: nat)
    requires x < p && d < DIGIT
    ensures d + DIGIT * x < DIGIT * p
  {
  }

  lemma {:induction false} PositionalAbove(digits: seq<nat>)
    requires digits != [] && digits[|digits| - 1] > 0
    ensures Positional(digits) >= Pow2(30 * (|digits| - 1))
    decreases |digits|
  {
    if |digits| > 1 {
      PositionalAbove(digits[1..]);
      Pow2Add(30, 30 * (|digits| - 2));
      Pow2Widths();
      assert 30 * (|digits| - 1) == 30 + 30 * (|digits| - 2);
    }
  }

  lemma PositionalStep(digits: seq<nat>, i: nat)
    requires i < |digits|
    ensures Positional(digits[i..]) == digits[i] + DIGIT * Positional(digits[i + 1..])
  {
    assert digits[i..][1..] == digits[i + 1..];
  }

  /** Or-ing a digit below a left shift adds it. */
  lemma {:induction false} OrAdds(a: nat, k: nat, d: nat)
    requires d < Pow2(k)
    ensures BitOr(a * Pow2(k), d) == a * Pow2(k) + d
    decreases k
  {
    if k == 0 {
      OrZero(a);
      assert a * Pow2(0) == a;
    } else {
      var top := a * Pow2(k - 1);
      assert a * Pow2(k) == 2 * top;
      OrAdds(a, k - 1, d / 2);
      OrHalves(2 * top, d);
      assert (2 * top) / 2 == top && (2 * top) % 2 == 0;
    }
  }

  lemma ShiftDigit(a: nat, d: nat)
    requires d < DIGIT
    ensures BitOr(ShiftLeft(a, 30), d) == d + DIGIT * a
  {
    Pow2Widths();
    hide Pow2;
    hide BitOr;
    OrAdds(a, 30, d);
  }

  /** The one-digit fast path. */
  method LongCompact(v: PyLong) returns (r: Option<int>)
    requires Normalized(v)
    ensures r.Some? <==> Count(v) <= 1
    ensures r.Some? ==> r.value == IntOf(v) && -DIGIT < r.value < DIGIT
  {
    match v {
      case Sized(size, digits) =>
        if size < -1 || size > 1 {
          return None;
        }
        if size != 0 {
          OneDigit(digits);
        }
        return Some(if size == 0 then 0 else size * digits[0]);
      case Tagged(tag, digits) =>
        if tag >= 16 {
          return None;
        }
        OneDigit(digits);
        return Some((1 - tag % 4) * digits[0]);
    }
  }

  lemma OneDigit(digits: seq<nat>)
    requires digits != []
    ensures Positional(digits[..1]) == digits[0] && digits[..0] == []
  {
    assert digits[..1][1..] == [];
  }

  /** The magnitude when it fits three digits, by shifts and ors from the top digit down. */
  method LongMagnitude(v: PyLong) returns (r: Option<nat>)
    requires Normalized(v)
    ensures r == if Count(v) > 3 then None else Some(Magnitude(v))
    ensures r.Some? ==> r.value < Pow2(90)
  {
    hide BitOr;
    hide ShiftLeft;
    hide Positional;
    var digits, n := v.digits, Count(v);
    if n > 3 {
      return None;
    }
    ghost var low := digits[..n];
    var a, i := 0, n;
    NoDigitsLeft(low);
    while i > 0
      invariant 0 <= i <= n && a == Positional(low[i..])
    {
      i := i - 1;
      PositionalStep(low, i);
      ShiftDigit(a, digits[i]);
      a := BitOr(ShiftLeft(a, 30), digits[i]);
    }
    assert low[0..] == low;
    ThreeDigits(low);
    return Some(a);
  }

  lemma NoDigitsLeft(digits: seq<nat>)
    ensures Positional(digits[|digits|..]) == 0
  {
  }

  lemma ThreeDigits(digits: seq<nat>)
    requires |digits| <= 3 && forall i :: 0 <= i < |digits| ==> digits[i] < DIGIT
    ensures Positional(digits) < Pow2(90)
  {
    PositionalBelow(digits);
    hide Pow2;
    if |digits| < 3 {
      Pow2Less(30 * |digits|, 90);
    }
  }

  lemma TooManyDigits(v: PyLong)
    requires Normalized(v) && Count(v) > 3
    ensures Magnitude(v) >= Pow2(90) && Pow2(90) > WORD
  {
    var low := v.digits[..Count(v)];
    PositionalAbove(low);
    Pow2Widths();
    Pow2Less(64, 90);
    if 30 * (Count(v) - 1) > 90 {
      Pow2Less(90, 30 * (Count(v) - 1));
    }
  }

  /** `intj_as_i64`: the int exactly when an int64 holds it, whatever its digits and layout. */
  method AsI64(v: PyLong) returns (r: Option<int>)
    requires Normalized(v)
    ensures r == if INT64_MIN <= IntOf(v) <= INT64_MAX then Some(IntOf(v)) else None
  {
    var small := LongCompact(v);
    if small.Some? {
      return small;
    }
    var acc := LongMagnitude(v);
    if acc.None? {
      TooManyDigits(v);
      return None;
    }
    if IsNegative(v) {
      return if acc.value > INT64_MAX + 1 then None else Some(0 - acc.value);
    } else {
      return if acc.value > INT64_MAX then None else Some(acc.value);
    }
  }

  datatype IntKind = TooBig | I64 | U64

  function Classified(n: int): IntKind {
    if INT64_MIN <= n <= INT64_MAX then I64 else if INT64_MAX < n < WORD then U64 else TooBig
  }

  /** `intj_as_int`: which of the two widths holds the int, and its value modulo 2^64. */
  method AsInt(v: PyLong) returns (kind: IntKind, bits: nat)
    requires Normalized(v)
    ensures kind == Classified(IntOf(v))
    ensures !kind.TooBig? ==> bits == IntOf(v) % WORD
  {
    bits := 0;
    var small := LongCompact(v);
    if small.Some? {
      return I64, small.value % WORD;
    }
    var acc := LongMagnitude(v);
    if acc.None? {
      TooManyDigits(v);
      return TooBig, 0;
    }
    if IsNegative(v) {
      if acc.value > INT64_MAX + 1 {
        return TooBig, 0;
      }
      return I64, (0 - acc.value) % WORD;
    }
    if acc.value > WORD - 1 {
      return TooBig, 0;
    }
    return if acc.value > INT64_MAX then U64 else I64, acc.value;
  }

  /** The digits of a natural, least significant first. */
  function Digits(n: nat): (d: seq<nat>)
    ensures forall i :: 0 <= i < |d| ==> d[i] < DIGIT
    ensures n > 0 ==> d != [] && d[|d| - 1] > 0
  {
    if n == 0 then [] else [n % DIGIT] + Digits(n / DIGIT)
  }

  lemma {:induction false} DigitsPositional(n: nat)
    ensures Positional(Digits(n)) == n
    decreases n
  {
    if n > 0 {
      DigitsPositional(n / DIGIT);
      assert Digits(n)[1..] == Digits(n / DIGIT);
    }
  }

  /** The object CPython makes of an int, in either layout. */
  function Encode(n: int, tagged: bool): PyLong {
    var d := Digits(if n < 0 then -n else n);
    if tagged then Tagged(8 * |d| + (if n == 0 then 1 else if n < 0 then 2 else 0), if n == 0 then [0] else d)
    else Sized(if n < 0 then -|d| else |d|, d)
  }

  lemma TagParts(n: nat, sign: nat)
    requires sign < 8
    ensures (8 * n + sign) / 8 == n && (8 * n + sign) % 8 == sign && (8 * n + sign) % 4 == sign % 4
  {
    DivUnique(8 * n + sign, 8, n, sign);
    DivUnique(8 * n + sign, 4, 2 * n + sign / 4, sign % 4);
  }

  lemma EncodeCounts(n: int, tagged: bool)
    ensures Count(Encode(n, tagged)) == |Digits(if n < 0 then -n else n)|
    ensures IsNegative(Encode(n, tagged)) == (n < 0)
    ensures tagged ==> Encode(n, tagged).tag % 8 == if n == 0 then 1 else if n < 0 then 2 else 0
  {
    NoDigits();
    hide Digits;
    TagParts(|Digits(if n < 0 then -n else n)|, if n == 0 then 1 else if n < 0 then 2 else 0);
  }

  lemma NoDigits()
    ensures Digits(0) == []
  {
  }

  /** Every int has a normalized object in both layouts, and it reads back as itself. */
  lemma EncodeRoundTrip(n: int, tagged: bool)
    ensures Normalized(Encode(n, tagged)) && IntOf(Encode(n, tagged)) == n
  {
    var m := if n < 0 then -n else n;
    var v := Encode(n, tagged);
    EncodeCounts(n, tagged);
    NoDigits();
    DigitsPositional(m);
    hide Digits;
    hide Positional;
    assert v.digits[..Count(v)] == Digits(m);
  }
}
