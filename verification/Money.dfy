/** Fixed-point money.  An amount is a whole number of 1e-4 units (Numeric(20,4)) and a rate
    a whole number of 1e-8 units (Numeric(20,8)), so `amount * rate` counts 1e-12 units and a
    conversion is a rounded division by SCALE. */
module Money {

  const SCALE: int := 100_000_000
  const RATE_ONE: int := SCALE

  datatype Option<+T> = None | Some(value: T)

  /** Amounts are kept twice: in the document currency and in the entity base currency. */
  datatype Column = Transaction | Base

  /** ROUND_HALF_UP of `product / SCALE`. */
  function HalfUp(product: nat): (r: nat) {
    (product + SCALE / 2) / SCALE
  }

  /** ROUND_HALF_EVEN, Decimal's default, of the exact quotient `n / d`. */
  function HalfEven(n: nat, d: nat): (r: nat)
    requires d > 0
  {
    var q, rem := n / d, n % d;
    if 2 * rem < d || (2 * rem == d && q % 2 == 0) then q else q + 1
  }

  /** convert_to_base */
  function ToBase(amount: nat, rate: nat): (r: nat) {
    Product(amount, rate);
    HalfUp(amount * rate)
  }

  /** The conversion inside credit memos: same quantum, other tie rule. */
  function ToBaseEven(amount: nat, rate: nat): (r: nat) {
    Product(amount, rate);
    HalfEven(amount * rate, SCALE)
  }

  function Abs(x: int): nat { if x < 0 then -x else x }

  function Min(a: int, b: int): int { if a <= b then a else b }

  function Max(a: int, b: int): int { if a >= b then a else b }

  lemma Product(a: nat, b: nat)
    ensures a * b >= 0
  {}

  /** Half-up picks the one integer whose half-open unit interval holds the quotient. */
  lemma HalfUpIsNearest(product: nat, r: int)
    ensures r == HalfUp(product) <==> -SCALE <= 2 * (product - r * SCALE) < SCALE
  {}

  /** `r` is a nearest integer to `n / d`, and even if there are two. */
  ghost predicate IsNearestEven(n: nat, d: nat, r: int)
    requires d > 0
  {
    && 2 * Abs(n - r * d) <= d
    && (2 * Abs(n - r * d) == d ==> r % 2 == 0)
  }

  lemma HalfEvenIsNearest(n: nat, d: nat)
    requires d > 0
    ensures IsNearestEven(n, d, HalfEven(n, d))
  {
    var q, rem := n / d, n % d;
    assert n - q * d == rem;
    assert (q + 1) * d == q * d + d;
  }

  lemma NearestEvenOnlyOne(n: nat, d: nat, a: int, b: int)
    requires d > 0 && a < b
    requires IsNearestEven(n, d, a)
    ensures !IsNearestEven(n, d, b)
  {
    Distance(a, b, d);
  }

  lemma Distance(a: int, b: int, d: nat)
    requires a < b
    ensures b * d - a * d >= d
    ensures b - a >= 2 ==> b * d - a * d >= 2 * d
  {
    assert b * d - a * d == (b - a) * d;
    assert (b - a) * d == d + (b - a - 1) * d;
    Product(b - a - 1, d);
    if b - a >= 2 {
      assert (b - a) * d == 2 * d + (b - a - 2) * d;
      Product(b - a - 2, d);
    }
  }

  /** Half-even is pinned down by that description. */
  lemma NearestEvenIsUnique(n: nat, d: nat, r: int)
    requires d > 0
    ensures IsNearestEven(n, d, r) <==> r == HalfEven(n, d)
  {
    HalfEvenIsNearest(n, d);
    var p: int := HalfEven(n, d);
    if r < p && IsNearestEven(n, d, r) {
      NearestEvenOnlyOne(n, d, r, p);
    } else if p < r {
      NearestEvenOnlyOne(n, d, p, r);
    }
  }

  lemma ToBaseError(amount: nat, rate: nat)
    ensures 2 * Abs(ToBase(amount, rate) * SCALE - amount * rate) <= SCALE
  {
    Product(amount, rate);
    HalfUpIsNearest(amount * rate, ToBase(amount, rate));
  }

  lemma ToBaseEvenError(amount: nat, rate: nat)
    ensures 2 * Abs(ToBaseEven(amount, rate) * SCALE - amount * rate) <= SCALE
  {
    Product(amount, rate);
    HalfEvenIsNearest(amount * rate, SCALE);
  }

  /** At rate one both conversions are the identity. */
  lemma UnitRate(amount: nat)
    ensures ToBase(amount, RATE_ONE) == amount
    ensures ToBaseEven(amount, RATE_ONE) == amount
  {
    NearestEvenIsUnique(amount * RATE_ONE, SCALE, amount);
    HalfUpIsNearest(amount * RATE_ONE, amount);
  }
}
