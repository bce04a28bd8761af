/**
 * Fixed-width unsigned integers of cosmwasm-std (`u16`, `u64`, `Uint128`,
 * `Uint256`), the checked operations the contracts use on them, the floor
 * integer square root, and the 18-decimal fixed-point types `Decimal` and
 * `Decimal256`, whose values are represented by their atomics.
 */
module Uint {
  import opened Wrappers
  import opened Errors

  const TWO_16: nat := 0x1_0000
  const TWO_64: nat := 0x1_0000_0000_0000_0000
  const TWO_128: nat := 0x1_0000_0000_0000_0000_0000_0000_0000_0000
  const TWO_256: nat := 0x1_0000_0000_0000_0000_0000_0000_0000_0000_0000_0000_0000_0000_0000_0000_0000_0000

  /** One whole unit of `Decimal`/`Decimal256` in atomics: 10^18. */
  const DECIMAL_FRACTIONAL: nat := 1_000_000_000_000_000_000

  type U16 = x: nat | x < TWO_16
  type U64 = x: nat | x < TWO_64
  type U128 = x: nat | x < TWO_128
  type U256 = x: nat | x < TWO_256

  /** A `Decimal`, given by its atomics: the value is `d / 10^18`. */
  type Decimal = U128
  /** A `Decimal256`, given by its atomics. */
  type Decimal256 = U256

  /** `Decimal::percent(p)`. */
  function Percent(p: U64): (d: Decimal)
    ensures d * 100 == p * DECIMAL_FRACTIONAL
  {
    p * 10_000_000_000_000_000
  }

  /** `Decimal::one()`. */
  const ONE: Decimal := DECIMAL_FRACTIONAL

  // ---------------------------------------------------------------------------
  // Checked arithmetic. `Uint256` and `u64` operators panic on overflow.
  // ---------------------------------------------------------------------------

  function Add256(x: U256, y: U256): (r: Result<U256, Error>)
    ensures r.Ok? <==> x + y < TWO_256
    ensures r.Ok? ==> r.value == x + y
    ensures r.Err? ==> r.error == Panic(AddOverflow)
  {
    if x + y < TWO_256 then Ok(x + y) else Err(Panic(AddOverflow))
  }

  /**
   * The `-` of `Uint256` and of `u64`: it panics when `y > x`. The
   * difference never exceeds `x`, so it keeps the width of its operands.
   */
  function Sub(x: nat, y: nat): (r: Result<nat, Error>)
    ensures r.Ok? <==> y <= x
    ensures r.Ok? ==> r.value + y == x && r.value <= x
    ensures r.Err? ==> r.error == Panic(SubOverflow)
  {
    if y <= x then Ok(x - y) else Err(Panic(SubOverflow))
  }

  function Mul256(x: U256, y: U256): (r: Result<U256, Error>)
    ensures r.Ok? <==> x * y < TWO_256
    ensures r.Ok? ==> r.value == x * y
    ensures r.Err? ==> r.error == Panic(MulOverflow)
  {
    if x * y < TWO_256 then Ok(x * y) else Err(Panic(MulOverflow))
  }

  function Div256(x: U256, y: U256): (r: Result<U256, Error>)
    ensures r.Ok? <==> y != 0
    ensures r.Ok? ==> r.value == Quot(x, y)
    ensures r.Err? ==> r.error == Panic(DivideByZero)
  {
    if y != 0 then Ok(Quot(x, y)) else Err(Panic(DivideByZero))
  }

  function Mul64(x: U64, y: U64): (r: Result<U64, Error>)
    ensures r.Ok? <==> x * y < TWO_64
    ensures r.Ok? ==> r.value == x * y
    ensures r.Err? ==> r.error == Panic(MulOverflow)
  {
    if x * y < TWO_64 then Ok(x * y) else Err(Panic(MulOverflow))
  }

  function Add64(x: U64, y: U64): (r: Result<U64, Error>)
    ensures r.Ok? <==> x + y < TWO_64
    ensures r.Ok? ==> r.value == x + y
    ensures r.Err? ==> r.error == Panic(AddOverflow)
  {
    if x + y < TWO_64 then Ok(x + y) else Err(Panic(AddOverflow))
  }

  /** `Uint128 + Uint128`, panicking on overflow. */
  function Add128(x: U128, y: U128): (r: Result<U128, Error>)
    ensures r.Ok? <==> x + y < TWO_128
    ensures r.Ok? ==> r.value == x + y
    ensures r.Err? ==> r.error == Panic(AddOverflow)
  {
    if x + y < TWO_128 then Ok(x + y) else Err(Panic(AddOverflow))
  }

  /** `Uint128::checked_sub`, whose error is a recoverable `StdError`. */
  function CheckedSub(x: U128, y: U128): (r: Result<U128, Error>)
    ensures r.Ok? <==> y <= x
    ensures r.Ok? ==> r.value + y == x
    ensures r.Err? ==> r.error == SubUnderflow
  {
    if y <= x then Ok(x - y) else Err(SubUnderflow)
  }

  /** `saturating_sub`, and `checked_sub(..).unwrap_or_default()`. */
  function SatSub(x: nat, y: nat): (r: nat)
    ensures y <= x ==> r + y == x
    ensures x < y ==> r == 0
    ensures r <= x
  {
    if y <= x then x - y else 0
  }

  /** `Uint128::multiply_ratio`: floor(x * num / den), panicking on a zero
      denominator or a quotient that does not fit. */
  function MultiplyRatio128(x: U128, num: U128, den: U128): (r: Result<U128, Error>)
    ensures r.Ok? <==> den != 0 && Quot(x * num, den) < TWO_128
    ensures r.Ok? ==> r.value == Quot(x * num, den)
    ensures r.Err? ==> r.error.Panic?
  {
    if den == 0 then Err(Panic(DivideByZero))
    else if Quot(x * num, den) < TWO_128 then Ok(Quot(x * num, den))
    else Err(Panic(MulOverflow))
  }

  /** `Uint128 * Decimal`: floor(x * d / 10^18). */
  function MulDec128(x: U128, d: Decimal): (r: Result<U128, Error>)
    ensures r.Ok? ==> r.value == Quot(x * d, DECIMAL_FRACTIONAL)
    ensures d <= ONE ==> r.Ok? && r.value <= x
    ensures r.Err? ==> r.error == Panic(MulOverflow)
  {
    MulDecBound(x, d);
    if Quot(x * d, DECIMAL_FRACTIONAL) < TWO_128 then Ok(Quot(x * d, DECIMAL_FRACTIONAL))
    else Err(Panic(MulOverflow))
  }

  /** `Uint256 * Decimal256`: floor(x * d / 10^18). */
  function MulDec256(x: U256, d: Decimal256): (r: Result<U256, Error>)
    ensures r.Ok? ==> r.value == Quot(x * d, DECIMAL_FRACTIONAL)
    ensures d <= DECIMAL_FRACTIONAL ==> r.Ok? && r.value <= x
  {
    MulDecBound(x, d);
    if Quot(x * d, DECIMAL_FRACTIONAL) < TWO_256 then Ok(Quot(x * d, DECIMAL_FRACTIONAL))
    else Err(Panic(MulOverflow))
  }

  lemma MulDecBound(x: nat, d: nat)
    ensures d <= DECIMAL_FRACTIONAL ==> Quot(x * d, DECIMAL_FRACTIONAL) <= x
  {
    if d <= DECIMAL_FRACTIONAL {
      MulLe(x, d, x, DECIMAL_FRACTIONAL);
      DivLe(x * d, DECIMAL_FRACTIONAL, x);
    }
  }

  /** `Decimal256::from_ratio(num, den)`: atomics floor(num * 10^18 / den). */
  function DecFromRatio256(num: U256, den: U256): (r: Result<Decimal256, Error>)
    ensures r.Ok? <==> den != 0 && Quot(num * DECIMAL_FRACTIONAL, den) < TWO_256
    ensures r.Ok? ==> r.value == Quot(num * DECIMAL_FRACTIONAL, den)
    ensures r.Err? ==> r.error.Panic?
  {
    if den == 0 then Err(Panic(DivideByZero))
    else if Quot(num * DECIMAL_FRACTIONAL, den) < TWO_256 then Ok(Quot(num * DECIMAL_FRACTIONAL, den))
    else Err(Panic(DecimalRange))
  }

  /** Floor division of naturals. */
  function Quot(n: nat, d: nat): (q: nat)
    requires 0 < d
    ensures q * d <= n < (q + 1) * d
  {
    assert n == (n / d) * d + n % d;
    n / d
  }

  // ---------------------------------------------------------------------------
  // Floor integer square root (`Isqrt` of cosmwasm-std).
  // ---------------------------------------------------------------------------

  /** The floor square root, computed digit by digit in base 4. */
  function Isqrt(n: nat): (r: nat)
    ensures r * r <= n < (r + 1) * (r + 1)
    ensures r <= n
    decreases n
  {
    if n < 2 then n
    else
      var s := Isqrt(n / 4);
      var h := 2 * s;
      IsqrtStep(n, s);
      if (h + 1) * (h + 1) <= n then h + 1 else h
  }

  lemma IsqrtStep(n: nat, s: nat)
    requires 2 <= n
    requires s * s <= n / 4 < (s + 1) * (s + 1)
    ensures (2 * s) * (2 * s) <= n < (2 * s + 2) * (2 * s + 2)
    ensures 2 * s + 1 <= n
  {
    var q := n / 4;
    assert n == 4 * q + n % 4;
    assert (2 * s) * (2 * s) == 4 * (s * s);
    assert (2 * s + 2) * (2 * s + 2) == 4 * ((s + 1) * (s + 1));
    assert (s + 1) * (s + 1) >= q + 1;
    if s > 0 {
      assert s <= s * s;
    }
  }

  /** The floor square root of a `Uint256` fits in 128 bits. */
  lemma IsqrtBelow(n: nat)
    requires n < TWO_256
    ensures Isqrt(n) < TWO_128
  {
    var r := Isqrt(n);
    MulMono(TWO_128, TWO_128, r, r);
  }

  /** The product of the floor square roots of two `Uint256` values; it fits in 256 bits. */
  function IsqrtProduct(x: U256, y: U256): (r: U256)
    ensures r == Isqrt(x) * Isqrt(y)
  {
    var sx := Isqrt(x);
    var sy := Isqrt(y);
    assert sx * sy <= (TWO_128 - 1) * (TWO_128 - 1) by {
      IsqrtBelow(x);
      IsqrtBelow(y);
      MulLe(sx, sy, TWO_128 - 1, TWO_128 - 1);
    }
    assert 0 <= sx * sy by { MulLe(0, 0, sx, sy); }
    sx * sy
  }

  /** The product of two floor square roots squares to at most the product. */
  lemma IsqrtProductSquare(x: nat, y: nat)
    ensures (Isqrt(x) * Isqrt(y)) * (Isqrt(x) * Isqrt(y)) <= x * y
  {
    var sx := Isqrt(x);
    var sy := Isqrt(y);
    MulLe(sx * sx, sy * sy, x, y);
    SquareOfProduct(sx, sy);
  }

  lemma SquareOfProduct(a: int, b: int)
    ensures (a * b) * (a * b) == (a * a) * (b * b)
  {
  }

  // ---------------------------------------------------------------------------
  // Small facts about non-linear arithmetic.
  // ---------------------------------------------------------------------------

  lemma MulLe(a: nat, b: nat, c: nat, d: nat)
    requires a <= c && b <= d
    ensures a * b <= c * d
  {
    assert a * b <= c * b;
    assert c * b <= c * d;
  }

  /** `MulLe` as an implication, for use without a case split. */
  lemma MulMono(a: nat, b: nat, c: nat, d: nat)
    ensures a <= c && b <= d ==> a * b <= c * d
  {
    if a <= c && b <= d {
      MulLe(a, b, c, d);
    }
  }

  /** Dividing an exact multiple recovers the factor. */
  lemma QuotExact(c: nat, b: nat)
    requires 0 < b
    ensures Quot(c * b, b) == c
  {
    var q := Quot(c * b, b);
    MulMono(q + 1, b, c, b);
    MulMono(c + 1, b, q, b);
  }

  /** x <= b * c makes floor(x / b) <= c. */
  lemma DivLe(x: nat, b: nat, c: nat)
    requires 0 < b && x <= b * c
    ensures Quot(x, b) <= c
  {
    MulMono(c + 1, b, Quot(x, b), b);
  }

  /** Squares of naturals are ordered like the naturals. */
  lemma SquareLe(u: nat, v: nat)
    requires u * u <= v * v
    ensures u <= v
  {
    MulMono(v + 1, v + 1, u, u);
  }
}
