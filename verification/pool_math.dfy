/**
 * The numeric core of the compound proxy: the closed-form optimal one-sided
 * swap amount (`get_swap_amount`) and the constant-product output
 * simulation (`simulate`), both over `Uint256` with the checked behaviour of
 * cosmwasm-std.
 */
module PoolMath {
  import opened Wrappers
  import opened Errors
  import opened Uint

  // ---------------------------------------------------------------------------
  // get_swap_amount
  // ---------------------------------------------------------------------------

  /**
   * The pool sizes after adding the caller's amounts, and the two cross
   * areas: `pool_ax = amount_a + pool_a`, `pool_bx = amount_b + pool_b`,
   * `area_ax = pool_ax * pool_b`, `area_bx = pool_bx * pool_a`.
   */
  datatype Areas = Areas(poolAx: U256, poolBx: U256, areaAx: U256, areaBx: U256)

  function SwapAreas(amountA: U256, amountB: U256, poolA: U256, poolB: U256): (r: Result<Areas, Error>)
    ensures r.Ok? ==> r.value.poolAx == amountA + poolA && r.value.poolBx == amountB + poolB
    ensures r.Ok? ==> r.value.areaAx == r.value.poolAx * poolB && r.value.areaBx == r.value.poolBx * poolA
    ensures r.Err? ==> r.error in {Panic(AddOverflow), Panic(MulOverflow)}
  {
    var poolAx :- Add256(amountA, poolA);
    var poolBx :- Add256(amountB, poolB);
    var areaAx :- Mul256(poolAx, poolB);
    var areaBx :- Mul256(poolBx, poolA);
    Ok(Areas(poolAx, poolBx, areaAx, areaBx))
  }

  /**
   * The discriminant `a = bps^2 * area_ax + 4 * (denom - bps) * denom * area_bx`,
   * computed with `u64` coefficients; `denom - bps` panics when `bps > denom`.
   */
  function Discriminant(areaAx: U256, areaBx: U256, bps: U64, denom: U64): (r: Result<U256, Error>)
    ensures r.Ok? ==> bps <= denom
    ensures r.Ok? ==> r.value == bps * bps * areaAx + 4 * (denom - bps) * denom * areaBx
    ensures r.Err? ==> r.error in {Panic(AddOverflow), Panic(SubOverflow), Panic(MulOverflow)}
  {
    var bpsSq :- Mul64(bps, bps);
    var a1 :- Mul256(bpsSq, areaAx);
    var feeFree: U64 :- Sub(denom, bps);
    var t1 :- Mul64(4, feeFree);
    var t2 :- Mul64(t1, denom);
    var a2 :- Mul256(t2, areaBx);
    Add256(a1, a2)
  }

  /** The numerator `b = bps * area_ax + isqrt(area_ax) * isqrt(a)`. */
  function Numerator(areaAx: U256, a: U256, bps: U64): (r: Result<U256, Error>)
    ensures r.Ok? ==> r.value == bps * areaAx + Isqrt(areaAx) * Isqrt(a)
    ensures r.Err? ==> r.error in {Panic(AddOverflow), Panic(MulOverflow)}
  {
    var b1 :- Mul256(bps, areaAx);
    Add256(b1, IsqrtProduct(areaAx, a))
  }

  /**
   * `get_swap_amount` before its final narrowing to `Uint128`: every
   * `Uint256` and `u64` operator of the source, in the source's evaluation
   * order, with a panic wherever the source would panic. The product of the
   * two square roots cannot overflow, since each root is below 2^128.
   */
  function SwapAmountWide(amountA: U256, amountB: U256, poolA: U256, poolB: U256,
                          bps: U64, denom: U64): (r: Result<U256, Error>)
    ensures r.Ok? ==> bps <= denom && 0 < denom && 0 < amountB + poolB
    ensures r.Err? ==> r.error.Panic?
  {
    var areas :- SwapAreas(amountA, amountB, poolA, poolB);
    var a :- Discriminant(areas.areaAx, areas.areaBx, bps, denom);
    var b :- Numerator(areas.areaAx, a, bps);
    var twoDenom :- Mul64(2, denom);
    var q1 :- Div256(b, twoDenom);
    var q2 :- Div256(q1, areas.poolBx);
    Ok(SatSub(q2, poolA))
  }

  /** `get_swap_amount`: the wide result, or "overflow" when it exceeds 128 bits. */
  function GetSwapAmount(amountA: U256, amountB: U256, poolA: U256, poolB: U256,
                         bps: U64, denom: U64): (r: Result<U128, Error>)
    ensures r.Ok? ==> r.value <= amountA
    ensures r == Err(Generic("overflow")) <==>
              SwapAmountWide(amountA, amountB, poolA, poolB, bps, denom).Ok? &&
              SwapAmountWide(amountA, amountB, poolA, poolB, bps, denom).value >= TWO_128
    ensures r.Err? ==> r.error.Panic? || r.error == Generic("overflow")
    ensures amountA < TWO_128 ==> r != Err(Generic("overflow"))
  {
    SwapAmountAtMostOffer(amountA, amountB, poolA, poolB, bps, denom);
    var w :- SwapAmountWide(amountA, amountB, poolA, poolB, bps, denom);
    if w < TWO_128 then Ok(w) else Err(Generic("overflow"))
  }

  /**
   * With a nonzero commission denominator and a nonzero ask-side reserve
   * `pool_b`, neither division of `get_swap_amount` divides by zero.
   */
  lemma SwapAmountDivisors(amountA: U256, amountB: U256, poolA: U256, poolB: U256, bps: U64, denom: U64)
    requires 0 < denom && 0 < poolB
    ensures GetSwapAmount(amountA, amountB, poolA, poolB, bps, denom) != Err(Panic(DivideByZero))
  {
  }

  /**
   * The optimal swap never offers more of asset A than the caller holds:
   * whenever no operator panics, the wide result is at most `amountA`.
   */
  lemma SwapAmountAtMostOffer(amountA: U256, amountB: U256, poolA: U256, poolB: U256,
                              bps: U64, denom: U64)
    ensures SwapAmountWide(amountA, amountB, poolA, poolB, bps, denom).Ok? ==>
              SwapAmountWide(amountA, amountB, poolA, poolB, bps, denom).value <= amountA
  {
    var r := SwapAmountWide(amountA, amountB, poolA, poolB, bps, denom);
    if r.Ok? {
      var areas := SwapAreas(amountA, amountB, poolA, poolB).value;
      var a := Discriminant(areas.areaAx, areas.areaBx, bps, denom).value;
      var b := Numerator(areas.areaAx, a, bps).value;
      assert 0 < areas.poolBx && 0 < denom;
      assert r.value == SatSub(Quot(Quot(b, 2 * denom), areas.poolBx), poolA);
      BoundFromStages(amountA, amountB, poolA, poolB, bps, denom, areas.areaAx, areas.areaBx, a, b);
    }
  }

  /** The bound of `SwapAmountAtMostOffer`, stated over the values of the stages. */
  lemma BoundFromStages(amountA: nat, amountB: nat, poolA: nat, poolB: nat, bps: nat, denom: nat,
                        x: nat, y: nat, a: nat, b: nat)
    requires bps <= denom && 0 < denom && 0 < amountB + poolB
    requires x == (amountA + poolA) * poolB
    requires y == (amountB + poolB) * poolA
    requires a == bps * bps * x + 4 * (denom - bps) * denom * y
    requires b == bps * x + Isqrt(x) * Isqrt(a)
    ensures SatSub(Quot(Quot(b, 2 * denom), amountB + poolB), poolA) <= amountA
  {
    var p := amountA + poolA;
    var q := amountB + poolB;
    var m := p * q;
    assert b <= 2 * denom * m by {
      NumeratorBound(amountA, amountB, poolA, poolB, bps, denom, x, y, m, a);
    }
    QuotChain(b, 2 * denom, p, q, m, amountA, poolA);
  }

  /** Two floor divisions of a numerator at most `d2 * (p * q)` leave at most `p`. */
  lemma QuotChain(b: nat, d2: nat, p: nat, q: nat, m: nat, amountA: nat, poolA: nat)
    requires 0 < d2 && 0 < q && p == amountA + poolA && m == p * q
    requires b <= d2 * m
    ensures SatSub(Quot(Quot(b, d2), q), poolA) <= amountA
  {
    DivLe(b, d2, p * q);
    DivLe(Quot(b, d2), q, p);
  }

  /**
   * The numerator of the closed form is at most `2 * denom * pool_ax * pool_bx`.
   * With `R = 2*denom*pool_ax*pool_bx - bps*area_ax`, the product of the two
   * floor square roots squares to at most `area_ax * a`, which is at most
   * `R * R`.
   */
  lemma NumeratorBound(amountA: nat, amountB: nat, poolA: nat, poolB: nat, bps: nat, denom: nat,
                       x: nat, y: nat, m: nat, a: nat)
    requires bps <= denom
    requires x == (amountA + poolA) * poolB
    requires y == (amountB + poolB) * poolA
    requires m == (amountA + poolA) * (amountB + poolB)
    requires a == bps * bps * x + 4 * (denom - bps) * denom * y
    ensures bps * x + Isqrt(x) * Isqrt(a) <= 2 * denom * m
  {
    var u: int := Isqrt(x) * Isqrt(a);
    var xa := x * a;
    assert 0 <= u by { MulLe(0, 0, Isqrt(x), Isqrt(a)); }
    var t := bps * x;
    var s := 2 * denom * m;
    assert u * u <= xa by { IsqrtProductSquare(x, a); }
    assert 0 <= t <= s by { BpsAreaBound(amountA, amountB, poolA, poolB, bps, denom, x, m); }
    assert xa <= (s - t) * (s - t) by { SquareGap(amountA, amountB, poolA, poolB, bps, denom, x, y, m, a); }
    RootBound(t, u, s, xa);
  }

  /** `u <= s - t` follows from `u * u <= xa <= (s - t) * (s - t)`. */
  lemma RootBound(t: int, u: int, s: int, xa: int)
    requires 0 <= t <= s && 0 <= u
    requires u * u <= xa <= (s - t) * (s - t)
    ensures t + u <= s
  {
    SquareLe(u, s - t);
  }

  lemma BpsAreaBound(amountA: nat, amountB: nat, poolA: nat, poolB: nat, bps: nat, denom: nat, x: nat, m: nat)
    requires bps <= denom
    requires x == (amountA + poolA) * poolB
    requires m == (amountA + poolA) * (amountB + poolB)
    ensures bps * x <= 2 * denom * m
  {
    var p := amountA + poolA;
    var q := amountB + poolB;
    MulLe(bps, poolB, denom, q);
    MulLe(p, bps * poolB, p, denom * q);
    assert bps * x == p * (bps * poolB);
    assert p * (denom * q) == denom * m;
  }

  /**
   * The polynomial identity behind `NumeratorBound`:
   * `R*R - x*a = 4*denom*m*(pool_ax*denom*amount_b + (denom - bps)*pool_b*amount_a)`,
   * and the right-hand side is not negative.
   */
  lemma SquareGap(amountA: nat, amountB: nat, poolA: nat, poolB: nat, bps: nat, denom: nat,
                  x: nat, y: nat, m: nat, a: nat)
    requires bps <= denom
    requires x == (amountA + poolA) * poolB
    requires y == (amountB + poolB) * poolA
    requires m == (amountA + poolA) * (amountB + poolB)
    requires a == bps * bps * x + 4 * (denom - bps) * denom * y
    ensures x * a <= (2 * denom * m - bps * x) * (2 * denom * m - bps * x)
  {
    var e := denom - bps;
    var p := amountA + poolA;
    var q := amountB + poolB;
    ProductsSwap(p, q, poolA, poolB);
    GapInProducts(denom, bps, e, m, x, y, poolB * poolA);
    GapFactor(denom, bps, e, p, q, poolA, poolB, amountA, amountB);
    MulLe(0, 0, 4 * denom * m, p * denom * amountB + e * poolB * amountA);
  }

  lemma GapInProducts(d: int, b: int, e: int, m: int, x: int, y: int, w: int)
    requires x * y == m * w
    ensures (2 * d * m - b * x) * (2 * d * m - b * x) - x * (b * b * x + 4 * e * d * y)
            == 4 * d * m * (d * m - b * x - e * w)
  {
    assert e * d * (x * y) == e * d * (m * w);
  }

  lemma GapFactor(d: int, b: int, e: int, p: int, q: int, pa: int, pb: int, amountA: int, amountB: int)
    requires p == amountA + pa && q == amountB + pb && d == b + e
    ensures d * (p * q) - b * (p * pb) - e * (pb * pa) == p * d * amountB + e * pb * amountA
  {
  }

  lemma ProductsSwap(p: int, q: int, pa: int, pb: int)
    ensures (p * pb) * (q * pa) == (p * q) * (pb * pa)
  {
  }

  // ---------------------------------------------------------------------------
  // simulate
  // ---------------------------------------------------------------------------

  /**
   * The gross constant-product output in `simulate`, in 18-decimal fixed
   * point: `ask_pool - cp / (offer_pool + offer_amount)` with the quotient
   * truncated to the atomics of `Decimal256`, and the difference truncated
   * to a whole unit.
   */
  function GrossReturn(offerPool: nat, askPool: nat, offerAmount: nat): nat
    requires 0 < offerPool + offerAmount
  {
    var cpDec := Quot(offerPool * askPool * DECIMAL_FRACTIONAL, offerPool + offerAmount);
    Quot(SatSub(askPool * DECIMAL_FRACTIONAL, cpDec), DECIMAL_FRACTIONAL)
  }

  /**
   * `simulate`: the return of offering `offerAmount` to a pool holding
   * `offerPool` and `askPool`, minus a commission of `rate` (a `Decimal256`)
   * taken from the truncated gross return. The `Decimal256` subtraction
   * cannot underflow, because `cp / (offerPool + offerAmount) <= askPool`.
   */
  function Simulate(offerPool: U256, askPool: U256, offerAmount: U256, rate: Decimal256): (r: Result<U128, Error>)
    ensures r.Ok? ==> 0 < offerPool + offerAmount
    ensures r.Ok? ==> r.value <= GrossReturn(offerPool, askPool, offerAmount) <= askPool
    ensures r.Ok? && rate == 0 ==> r.value == GrossReturn(offerPool, askPool, offerAmount)
    ensures 0 < offerPool + offerAmount ==> r != Err(Panic(DivideByZero))
    ensures r.Err? ==> r.error.Panic? || r.error == Generic("overflow")
  {
    var cp :- Mul256(offerPool, askPool);
    var askDec :- DecFromRatio256(askPool, 1);
    var den :- Add256(offerPool, offerAmount);
    var cpDec :- DecFromRatio256(cp, den);
    CpShareAtMostAsk(offerPool, askPool, offerAmount);
    GrossAtMostAsk(offerPool, askPool, offerAmount);
    var gross: U256 := Quot(askDec - cpDec, DECIMAL_FRACTIONAL);
    var commission :- MulDec256(gross, rate);
    var net :- Sub(gross, commission);
    if net < TWO_128 then Ok(net) else Err(Generic("overflow"))
  }

  /**
   * The value of `simulate`: the truncated gross return less the commission
   * `floor(gross * rate)`. Truncating the commission never takes more than
   * the exact fraction, so with a rate of at most one the net return is at
   * least `gross * (1 - rate)` in fixed point, and a positive gross return
   * with a rate below one is a positive net return.
   */
  lemma SimulateNet(offerPool: U256, askPool: U256, offerAmount: U256, rate: Decimal256)
    ensures var r := Simulate(offerPool, askPool, offerAmount, rate);
      r.Ok? ==>
        var g := GrossReturn(offerPool, askPool, offerAmount);
        r.value == g - Quot(g * rate, DECIMAL_FRACTIONAL) &&
        (rate <= DECIMAL_FRACTIONAL ==> r.value * DECIMAL_FRACTIONAL >= g * (DECIMAL_FRACTIONAL - rate)) &&
        (0 < g && rate < DECIMAL_FRACTIONAL ==> 0 < r.value)
  {
    var r := Simulate(offerPool, askPool, offerAmount, rate);
    if r.Ok? {
      var g := GrossReturn(offerPool, askPool, offerAmount);
      var c := Quot(g * rate, DECIMAL_FRACTIONAL);
      assert c * DECIMAL_FRACTIONAL <= g * rate;
      if rate <= DECIMAL_FRACTIONAL {
        assert g * (DECIMAL_FRACTIONAL - rate) == g * DECIMAL_FRACTIONAL - g * rate;
        assert (g - c) * DECIMAL_FRACTIONAL == g * DECIMAL_FRACTIONAL - c * DECIMAL_FRACTIONAL;
        if 0 < g && rate < DECIMAL_FRACTIONAL {
          MulLe(1, 1, g, DECIMAL_FRACTIONAL - rate);
        }
      }
    }
  }

  /** The `Decimal256` quotient `cp / (offerPool + offerAmount)` is at most `askPool`. */
  lemma CpShareAtMostAsk(offerPool: nat, askPool: nat, offerAmount: nat)
    requires 0 < offerPool + offerAmount
    ensures Quot(offerPool * askPool * DECIMAL_FRACTIONAL, offerPool + offerAmount) <= askPool * DECIMAL_FRACTIONAL
  {
    MulLe(offerPool, askPool * DECIMAL_FRACTIONAL, offerPool + offerAmount, askPool * DECIMAL_FRACTIONAL);
    assert offerPool * askPool * DECIMAL_FRACTIONAL == offerPool * (askPool * DECIMAL_FRACTIONAL);
    DivLe(offerPool * askPool * DECIMAL_FRACTIONAL, offerPool + offerAmount, askPool * DECIMAL_FRACTIONAL);
  }

  lemma GrossAtMostAsk(offerPool: nat, askPool: nat, offerAmount: nat)
    requires 0 < offerPool + offerAmount
    ensures GrossReturn(offerPool, askPool, offerAmount) <= askPool
  {
    var cpDec := Quot(offerPool * askPool * DECIMAL_FRACTIONAL, offerPool + offerAmount);
    DivLe(SatSub(askPool * DECIMAL_FRACTIONAL, cpDec), DECIMAL_FRACTIONAL, askPool);
  }

  /**
   * With `Uint128` reserves and offer, a nonzero pool after the offer, and a
   * commission rate of at most one, `simulate` neither panics nor reports
   * "overflow".
   */
  lemma SimulateSucceeds(offerPool: U256, askPool: U256, offerAmount: U256, rate: Decimal256)
    requires offerPool < TWO_128 && askPool < TWO_128 && offerAmount < TWO_128
    requires 0 < offerPool + offerAmount && rate <= ONE
    ensures Simulate(offerPool, askPool, offerAmount, rate).Ok?
  {
    assert offerPool * askPool < TWO_256 by {
      MulLe(offerPool, askPool, TWO_128, TWO_128);
    }
    assert askPool * DECIMAL_FRACTIONAL < TWO_256 by {
      MulLe(askPool, DECIMAL_FRACTIONAL, TWO_128, DECIMAL_FRACTIONAL);
    }
    var cp: nat := offerPool * askPool;
    var den: nat := offerPool + offerAmount;
    assert Quot(cp * DECIMAL_FRACTIONAL, den) < TWO_256 by {
      CpShareAtMostAsk(offerPool, askPool, offerAmount);
    }
    assert Quot(askPool * DECIMAL_FRACTIONAL, 1) == askPool * DECIMAL_FRACTIONAL;
    GrossAtMostAsk(offerPool, askPool, offerAmount);
  }

  /** Offering nothing to a non-empty pool returns nothing. */
  lemma GrossReturnOfNothing(offerPool: U256, askPool: U256)
    requires 0 < offerPool
    ensures GrossReturn(offerPool, askPool, 0) == 0
  {
    var n := offerPool * askPool * DECIMAL_FRACTIONAL;
    assert n == (askPool * DECIMAL_FRACTIONAL) * offerPool;
    QuotExact(askPool * DECIMAL_FRACTIONAL, offerPool);
  }
}
