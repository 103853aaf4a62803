/**
 * Fixed-width arithmetic used by the whole model.
 *
 * A `Num` stands for a V3Number: a constant with a bit width whose value is an
 * unsigned bit pattern of that width. Adding or subtracting one wraps around
 * modulo 2^width, as V3Number::opAdd and V3Number::opSub do.
 * Decimal rendering stands for cvtToStr / std::to_string on counters.
 */
module Bits {

  /** 2 raised to `w`. */
  function Pow2(w: nat): (r: nat)
    ensures r >= 1
  {
    if w == 0 then 1 else 2 * Pow2(w - 1)
  }

  lemma {:induction false} Pow2Monotone(a: nat, b: nat)
    requires a <= b
    ensures Pow2(a) <= Pow2(b)
  {
    if a < b {
      Pow2Monotone(a, b - 1);
    }
  }

  /** Reducing modulo m leaves a value in [0, m) alone and takes one m off a value in [m, 2m). */
  lemma ModSmall(a: int, m: int)
    requires m > 0 && 0 <= a < 2 * m
    ensures a % m == (if a < m then a else a - m)
  {
  }

  /** A constant of the given width (a V3Number). */
  datatype Num = Num(value: nat, width: nat)

  /** The value is a bit pattern of the constant's width. */
  predicate Fits(n: Num) {
    n.value < Pow2(n.width)
  }

  /** `n + 1` computed in n's own width (V3Number::opAdd with a one of that width). */
  function Inc(n: Num): (r: Num)
    requires Fits(n)
    ensures Fits(r) && r.width == n.width
    ensures r.value == (n.value + 1) % Pow2(n.width)
    ensures n.value + 1 < Pow2(n.width) ==> r.value == n.value + 1
    ensures n.value + 1 == Pow2(n.width) ==> r.value == 0
  {
    ModSmall(n.value + 1, Pow2(n.width));
    Num(if n.value + 1 < Pow2(n.width) then n.value + 1 else 0, n.width)
  }

  /** `n - 1` computed in n's own width (V3Number::opSub with a one of that width). */
  function Dec(n: Num): (r: Num)
    requires Fits(n)
    ensures Fits(r) && r.width == n.width
    ensures r.value == (n.value + Pow2(n.width) - 1) % Pow2(n.width)
    ensures n.value >= 1 ==> r.value == n.value - 1
    ensures n.value == 0 ==> r.value == Pow2(n.width) - 1
  {
    ModSmall(n.value + Pow2(n.width) - 1, Pow2(n.width));
    Num(if n.value >= 1 then n.value - 1 else Pow2(n.width) - 1, n.width)
  }

  /** Bitwise AND of two bit patterns. */
  function BitAnd(a: nat, b: nat): (r: nat)
    ensures r <= a && r <= b
    decreases a
  {
    if a == 0 || b == 0 then 0
    else 2 * BitAnd(a / 2, b / 2) + (if a % 2 == 1 && b % 2 == 1 then 1 else 0)
  }

  /** Bitwise OR of two bit patterns. */
  function BitOr(a: nat, b: nat): (r: nat)
    ensures r >= a && r >= b
    decreases a + b
  {
    if a == 0 then b
    else if b == 0 then a
    else 2 * BitOr(a / 2, b / 2) + (if a % 2 == 1 || b % 2 == 1 then 1 else 0)
  }

  lemma {:induction false} BitOrBound(a: nat, b: nat, w: nat)
    requires a < Pow2(w) && b < Pow2(w)
    ensures BitOr(a, b) < Pow2(w)
    decreases w
  {
    if a != 0 && b != 0 {
      assert w > 0;
      BitOrBound(a / 2, b / 2, w - 1);
    }
  }

  /** A bit pattern of width `w` read as a two's-complement number. */
  function ToSigned(a: nat, w: nat): int {
    if w > 0 && a >= Pow2(w - 1) then a - Pow2(w) else a
  }

  /** A multiple of m, or its negation, leaves no remainder. */
  lemma MultipleMod(k: int, m: int)
    requires m > 0
    ensures (k * m) % m == 0 && (-(k * m)) % m == 0
  {
    MultipleModOne(k, m);
    MultipleModOne(-k, m);
    assert -(k * m) == (-k) * m;
  }

  lemma MultipleModOne(k: int, m: int)
    requires m > 0
    ensures (k * m) % m == 0
  {
    var q, r := (k * m) / m, (k * m) % m;
    assert k * m == m * q + r && 0 <= r < m;
    assert m * (k - q) == r;
    MulAwayFromZero(m, k - q);
  }

  lemma MulAwayFromZero(m: int, d: int)
    requires m > 0
    ensures d >= 1 ==> m * d >= m
    ensures d <= -1 ==> m * d <= -m
  {
  }

  /** Remainder truncating toward zero: the sign follows the dividend (C, Verilog). */
  function TruncRem(x: int, y: int): (r: int)
    requires y != 0
    ensures x >= 0 ==> 0 <= r < (if y > 0 then y else -y)
    ensures x < 0 ==> -(if y > 0 then y else -y) < r <= 0
    ensures (x - r) % (if y > 0 then y else -y) == 0
  {
    var ax := if x >= 0 then x else -x;
    var ay := if y >= 0 then y else -y;
    assert ax - ax % ay == (ax / ay) * ay;
    MultipleMod(ax / ay, ay);
    if x >= 0 then ax % ay else -(ax % ay)
  }

  /** The decimal digits of `n`, most significant first (cvtToStr). */
  function Decimal(n: nat): (s: string)
    ensures |s| >= 1
    ensures forall i :: 0 <= i < |s| ==> '0' <= s[i] <= '9'
  {
    if n < 10 then [Digit(n)] else Decimal(n / 10) + [Digit(n % 10)]
  }

  function Digit(d: nat): (c: char)
    requires d < 10
    ensures '0' <= c <= '9'
  {
    ['0', '1', '2', '3', '4', '5', '6', '7', '8', '9'][d]
  }

  function DigitValue(c: char): nat {
    if '0' <= c <= '9' then (c as int - '0' as int) as nat else 0
  }

  /** Reads a string of decimal digits back as a number. */
  function ParseDecimal(s: string): nat {
    if s == [] then 0 else 10 * ParseDecimal(s[..|s| - 1]) + DigitValue(s[|s| - 1])
  }

  /** Rendering a counter in decimal loses nothing: the digits read back as the counter. */
  lemma {:induction false} DecimalRoundTrip(n: nat)
    ensures ParseDecimal(Decimal(n)) == n
  {
    if n >= 10 {
      var s := Decimal(n);
      assert s[..|s| - 1] == Decimal(n / 10);
      DecimalRoundTrip(n / 10);
      assert DigitValue(Digit(n % 10)) == n % 10;
    } else {
      assert DigitValue(Digit(n)) == n;
    }
  }

  /** Two different counters never render to the same decimal string. */
  lemma DecimalInjective(a: nat, b: nat)
    requires a != b
    ensures Decimal(a) != Decimal(b)
  {
    DecimalRoundTrip(a);
    DecimalRoundTrip(b);
  }
}
