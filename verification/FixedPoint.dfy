/** Q16.16 arithmetic of the kernel's engines. Values are 32-bit; an operation that would
    leave that range is a proof obligation of its caller. */
module FixedPoint {
  import opened Bytes

  const ONE := 65536

  type i32 = x: int | -0x8000_0000 <= x < 0x8000_0000

  function Abs(x: int): nat {
    if x < 0 then -x else x
  }

  /** C's cast to int32_t. */
  function ToInt32(x: int): i32 {
    (x + 0x8000_0000) % 0x1_0000_0000 - 0x8000_0000
  }

  /** C's unsigned subtraction. */
  function Sub32(a: u32, b: u32): u32 {
    (a - b) % 0x1_0000_0000
  }

  predicate Fits32(x: int) {
    -0x8000_0000 <= x < 0x8000_0000
  }

  /** C's division: towards zero. */
  function TruncDiv(n: int, d: int): int
    requires d > 0
  {
    if n >= 0 then n / d else -(-n / d)
  }

  /** fp_mul before its cast: the arithmetic shift rounds down. */
  function Mul(a: int, b: int): int {
    a * b / 65536
  }

  /** A factor of at most `k` grows a value at most k-fold, rounding included. */
  lemma MulBound(w: int, x: int, k: nat)
    requires Abs(x) <= k * 65536
    ensures -(k * Abs(w)) <= Mul(w, x) <= k * Abs(w)
  {
    ProductBound(w, x, k * 65536);
    assert Abs(w) * (k * 65536) == k * Abs(w) * 65536;
    FloorBound(w * x, k * Abs(w));
  }

  lemma ProductBound(w: int, x: int, m: int)
    requires Abs(x) <= m
    ensures -(Abs(w) * m) <= w * x <= Abs(w) * m
  {
    Scale(x, m, Abs(w));
    Scale(-m, x, Abs(w));
    assert w >= 0 ==> w * x == Abs(w) * x;
    assert w < 0 ==> w * x == -(Abs(w) * x);
  }

  lemma Scale(a: int, b: int, c: nat)
    requires a <= b
    ensures c * a <= c * b
  {
  }

  lemma FloorBound(p: int, q: int)
    requires -(q * 65536) <= p <= q * 65536
    ensures -q <= p / 65536 <= q
  {
  }

  /** The quotient is the largest number of whole divisors. */
  lemma QuotientIs(n: nat, d: nat, q: nat)
    requires d > 0
    ensures q <= n / d <==> q * d <= n
  {
    var r := n / d;
    assert n == r * d + n % d;
    if q <= r {
      Scale(q, r, d);
    } else {
      Scale(r + 1, q, d);
    }
  }

  /** fp_from_ratio. */
  function FromRatio(num: u32, den: u32): i32 {
    if den == 0 then 0 else ToInt32(num * 65536 / den)
  }

  /** `r` is the largest Q16.16 value that does not exceed the fraction. */
  predicate IsFraction(r: int, num: u32, den: u32) {
    if den == 0 then r == 0 else r * den <= num * 65536 < (r + 1) * den
  }

  lemma SmallCast(x: int)
    requires 0 <= x <= ONE
    ensures ToInt32(x) == x
  {
  }

  lemma FractionInUnit(num: u32, den: u32)
    requires num <= den
    ensures 0 <= FromRatio(num, den) <= ONE
    ensures den > 0 ==> FromRatio(num, den) == num * 65536 / den
  {
    hide ToInt32;
    if den > 0 {
      UnitQuotient(num, den);
      SmallCast(num * 65536 / den);
    }
  }

  lemma UnitQuotient(num: nat, den: nat)
    requires num <= den && den > 0
    ensures 0 <= num * 65536 / den <= 65536
  {
    QuotientIs(num * 65536, den, 65537);
    QuotientIs(num * 65536, den, 0);
  }

  /** A true fraction is rounded down. */
  lemma FractionRounds(num: u32, den: u32)
    requires num <= den
    ensures IsFraction(FromRatio(num, den), num, den)
  {
    hide FromRatio;
    FractionInUnit(num, den);
    if den > 0 {
      QuotientIs(num * 65536, den, num * 65536 / den);
      QuotientIs(num * 65536, den, num * 65536 / den + 1);
    } else {
      assert FromRatio(0, 0) == 0 by { EmptyRatio(); }
    }
  }

  lemma EmptyRatio()
    ensures FromRatio(0, 0) == 0
  {
  }

  /** fp_softsign. */
  function Softsign(x: int): int {
    TruncDiv(x * 65536, 65536 + Abs(x))
  }

  /** The denominator of fp_softsign is a 32-bit value exactly for these arguments. */
  lemma SoftsignDenominator(x: int)
    ensures Fits32(65536 + Abs(x)) <==> -2147418111 <= x <= 2147418111
  {
  }

  /** The magnitude of an activation. */
  function Magnitude(a: nat): nat {
    a * 65536 / (65536 + a)
  }

  lemma SoftsignIs(x: int)
    ensures Softsign(x) == if x >= 0 then Magnitude(x) else -(Magnitude(-x) as int)
  {
  }

  lemma MagnitudeBound(a: nat)
    ensures Magnitude(a) <= 65535
  {
    QuotientIs(a * 65536, 65536 + a, 65536);
  }

  /** Every activation is strictly inside (-1, 1) and keeps the sign. */
  lemma SoftsignBound(x: int)
    ensures -65535 <= Softsign(x) <= 65535
    ensures x >= 0 ==> Softsign(x) >= 0
    ensures x <= 0 ==> Softsign(x) <= 0
    ensures Softsign(-x) == -Softsign(x)
  {
    hide Softsign;
    SoftsignIs(x);
    SoftsignIs(-x);
    MagnitudeBound(Abs(x));
  }

  lemma MagnitudeMonotone(a: nat, b: nat)
    requires a <= b
    ensures Magnitude(a) <= Magnitude(b)
  {
    var q := Magnitude(a);
    MagnitudeBound(a);
    QuotientIs(a * 65536, 65536 + a, q);
    Scale(a, b, 65536 - q);
    Expand(q, a);
    Expand(q, b);
    QuotientIs(b * 65536, 65536 + b, q);
  }

  lemma Expand(q: int, a: int)
    ensures q * (65536 + a) == q * 65536 + q * a
    ensures (65536 - q) * a == 65536 * a - q * a
  {
  }

  /** fp_softsign never reverses an order. */
  lemma SoftsignMonotone(x: int, y: int)
    requires x <= y
    ensures Softsign(x) <= Softsign(y)
  {
    hide Softsign, Magnitude;
    SoftsignIs(x);
    SoftsignIs(y);
    if 0 <= x {
      MagnitudeMonotone(x, y);
    } else if y <= 0 {
      MagnitudeMonotone(-y, -x);
    }
  }

  /** fp_clamp. */
  function Clamp(x: int, lo: int, hi: int): (r: int)
    requires lo <= hi
    ensures lo <= r <= hi && (lo <= x <= hi ==> r == x)
  {
    if x < lo then lo else if x > hi then hi else x
  }

  /** Clamping gives the one value inside the limits that is nearest. */
  lemma ClampNearest(x: int, lo: int, hi: int, y: int)
    requires lo <= y <= hi
    ensures Abs(x - Clamp(x, lo, hi)) <= Abs(x - y)
    ensures Abs(x - Clamp(x, lo, hi)) == Abs(x - y) ==> y == Clamp(x, lo, hi)
  {
  }

  /** fp_abs saturates at the one value whose negation does not fit. */
  function AbsSat(x: i32): (r: i32)
    ensures r >= 0 && (r == Abs(x) <==> x != -0x8000_0000)
  {
    if x == -0x8000_0000 then 0x7FFF_FFFF else Abs(x)
  }
}
