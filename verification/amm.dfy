// Constant-product AMM pool arithmetic (contracts/amm-pool/src/lib.rs):
// swap output with a basis-point fee, LP tokens minted for a deposit,
// reserves returned for burnt LP tokens, and the integer square root used
// for the first deposit. Every `checked_*` step of the u128 arithmetic is
// an explicit bound test against U128_MAX.

module AmmPool {
  import opened Results

  const U128_MAX: nat := 0xffff_ffff_ffff_ffff_ffff_ffff_ffff_ffff
  const BPS: nat := 10000

  type U128 = x: nat | x <= U128_MAX

  // ---------------------------------------------------------------------
  // Arithmetic helpers

  lemma MulLe(a: nat, b: nat, c: nat)
    requires a <= b
    ensures a * c <= b * c
  {
  }

  lemma MulLt(a: nat, b: nat, c: nat)
    requires a < b && c > 0
    ensures a * c < b * c
  {
  }

  /** A positive common factor can be cancelled from both sides. */
  lemma CancelFactor(a: nat, b: nat, c: nat)
    requires c > 0 && a * c >= b * c
    ensures a >= b
  {
    if a < b {
      MulLt(a, b, c);
    }
  }

  /** Floor division is monotone in the ratio: n1/d1 <= n2/d2 as fractions gives it for floors. */
  lemma FloorDivMono(n1: nat, d1: nat, n2: nat, d2: nat)
    requires d1 > 0 && d2 > 0
    requires n1 * d2 <= n2 * d1
    ensures n1 / d1 <= n2 / d2
  {
    var q1 := n1 / d1;
    assert q1 * d1 <= n1;
    MulLe(q1 * d1, n1, d2);
    assert (q1 * d2) * d1 == (q1 * d1) * d2;
    if q1 * d2 > n2 {
      MulLt(n2, q1 * d2, d1);
      assert false;
    }
    var q2 := n2 / d2;
    assert n2 < (q2 + 1) * d2;
    if q1 > q2 {
      MulLe(q2 + 1, q1, d2);
    }
  }

  /** Unsigned division (`checked_div` once the divisor is known to be non-zero). */
  function Div(n: nat, d: nat): nat
    requires d > 0
  {
    n / d
  }

  // ---------------------------------------------------------------------
  // Swap

  /** The fee-adjusted input `amount_in * (10000 - fee_bps)`. */
  function WithFee(amountIn: nat, feeBps: nat): nat
    requires feeBps < BPS
  {
    amountIn * (BPS - feeBps)
  }

  /** `calculate_swap_output`: tokens paid out for `amountIn`, or the first check that fails. */
  function SwapOutput(reserveIn: U128, reserveOut: U128, amountIn: U128, feeBps: U128): Result<nat, string>
  {
    if amountIn == 0 then Err("Amount in must be positive")
    else if reserveIn == 0 || reserveOut == 0 then Err("Reserves must be positive")
    else if feeBps >= BPS then Err("Fee must be less than 100%")
    else
      var withFee: nat := WithFee(amountIn, feeBps);
      var numerator: nat := reserveOut * withFee;
      var scaledReserve: nat := reserveIn * BPS;
      if withFee > U128_MAX then Err("Fee calculation overflow")
      else if numerator > U128_MAX then Err("Numerator overflow")
      else if scaledReserve > U128_MAX then Err("Denominator overflow")
      else if scaledReserve + withFee > U128_MAX then Err("Denominator addition overflow")
      else if scaledReserve + withFee == 0 then Err("Denominator is zero")
      else Ok(Div(numerator, scaledReserve + withFee))
  }

  /** The guards reject a zero amount, an empty reserve and a fee of 100% or more. */
  lemma SwapRejectsDegenerateInput(reserveIn: U128, reserveOut: U128, amountIn: U128, feeBps: U128)
    ensures amountIn == 0 ==> SwapOutput(reserveIn, reserveOut, amountIn, feeBps) == Err("Amount in must be positive")
    ensures amountIn > 0 && (reserveIn == 0 || reserveOut == 0) ==>
      SwapOutput(reserveIn, reserveOut, amountIn, feeBps) == Err("Reserves must be positive")
    ensures feeBps >= BPS ==> SwapOutput(reserveIn, reserveOut, amountIn, feeBps).Err?
  {
  }

  /**
   * A swap succeeds exactly when the input is non-degenerate, the numerator
   * fits and the denominator fits (a fee-adjusted input that overflows
   * makes the numerator overflow too); the zero-denominator check can
   * never be the one that fails.
   */
  lemma SwapSucceedsIff(reserveIn: U128, reserveOut: U128, amountIn: U128, feeBps: U128)
    ensures SwapOutput(reserveIn, reserveOut, amountIn, feeBps).Ok? <==>
      (amountIn > 0 && reserveIn > 0 && reserveOut > 0 && feeBps < BPS &&
       reserveOut * WithFee(amountIn, feeBps) <= U128_MAX &&
       reserveIn * BPS + WithFee(amountIn, feeBps) <= U128_MAX)
    ensures SwapOutput(reserveIn, reserveOut, amountIn, feeBps) != Err("Denominator is zero")
  {
    if amountIn > 0 && reserveIn > 0 && reserveOut > 0 && feeBps < BPS {
      MulLe(1, reserveOut, WithFee(amountIn, feeBps));
    }
  }

  /** The pool never pays out its whole output reserve. */
  lemma SwapOutputBelowReserve(reserveIn: U128, reserveOut: U128, amountIn: U128, feeBps: U128)
    requires SwapOutput(reserveIn, reserveOut, amountIn, feeBps).Ok?
    ensures SwapOutput(reserveIn, reserveOut, amountIn, feeBps).value < reserveOut
  {
    var withFee := WithFee(amountIn, feeBps);
    var d := reserveIn * BPS + withFee;
    var out := (reserveOut * withFee) / d;
    assert out * d <= reserveOut * withFee;
    MulLe(withFee, d, reserveOut);
    if out >= reserveOut {
      MulLe(reserveOut, out, d);
      MulLt(withFee, d, reserveOut);
      assert false;
    }
  }

  /** The product of the reserves never decreases across a swap: the fee stays in the pool. */
  lemma SwapKeepsConstantProduct(reserveIn: U128, reserveOut: U128, amountIn: U128, feeBps: U128)
    requires SwapOutput(reserveIn, reserveOut, amountIn, feeBps).Ok?
    ensures var out := SwapOutput(reserveIn, reserveOut, amountIn, feeBps).value;
      out <= reserveOut && (reserveIn + amountIn) * (reserveOut - out) >= reserveIn * reserveOut
  {
    SwapValue(reserveIn, reserveOut, amountIn, feeBps);
    SwapOutputBelowReserve(reserveIn, reserveOut, amountIn, feeBps);
    var withFee := WithFee(amountIn, feeBps);
    var d := reserveIn * BPS + withFee;
    var out := SwapOutput(reserveIn, reserveOut, amountIn, feeBps).value;
    QuotientTimesDivisor(reserveOut * withFee, d);
    MulLe(BPS - feeBps, BPS, amountIn);
    ProductKept(reserveIn, reserveOut, amountIn, withFee, out);
  }

  /**
   * The arithmetic behind the constant product: paying out at most
   * `ro * w / (ri * BPS + w)` for a fee-adjusted input `w <= a * BPS`
   * leaves `(ri + a) * (ro - out) >= ri * ro`.
   */
  lemma ProductKept(ri: nat, ro: nat, a: nat, w: nat, out: nat)
    requires w <= a * BPS && out <= ro
    requires out * (ri * BPS + w) <= ro * w
    ensures (ri + a) * (ro - out) >= ri * ro
  {
    var d := ri * BPS + w;
    var rest := ro - out;
    // rest * d >= ro * d - ro * w = ro * ri * BPS
    assert rest * d >= ro * (ri * BPS) by {
      assert rest * d == ro * d - out * d;
      assert ro * d == ro * (ri * BPS) + ro * w;
    }
    var lhs := (ri + a) * rest;
    assert lhs * BPS >= (ri * ro) * BPS by {
      assert (ri + a) * BPS >= d;
      MulLe(d, (ri + a) * BPS, rest);
    }
    CancelFactor(lhs, ri * ro, BPS);
  }

  /** `ro * A / (k + A)` grows with `A`. */
  lemma QuoteMonotone(ro: nat, k: nat, a1: nat, a2: nat)
    requires a1 <= a2 && k + a1 > 0
    ensures (ro * a1) / (k + a1) <= (ro * a2) / (k + a2)
  {
    MulLe(a1, a2, ro * k);
    assert (ro * a1) * (k + a2) == ro * a1 * k + ro * a1 * a2;
    assert (ro * a2) * (k + a1) == ro * a2 * k + ro * a1 * a2;
    assert ro * a1 * k == a1 * (ro * k);
    assert ro * a2 * k == a2 * (ro * k);
    FloorDivMono(ro * a1, k + a1, ro * a2, k + a2);
  }

  /** A successful swap pays `reserveOut * withFee / (reserveIn * BPS + withFee)`. */
  lemma SwapValue(reserveIn: U128, reserveOut: U128, amountIn: U128, feeBps: U128)
    requires SwapOutput(reserveIn, reserveOut, amountIn, feeBps).Ok?
    ensures feeBps < BPS && reserveIn > 0
    ensures SwapOutput(reserveIn, reserveOut, amountIn, feeBps).value ==
      (reserveOut * WithFee(amountIn, feeBps)) / (reserveIn * BPS + WithFee(amountIn, feeBps))
  {
  }

  /** A larger input never yields a smaller output. */
  lemma SwapMonotoneInAmount(reserveIn: U128, reserveOut: U128, amount1: U128, amount2: U128, feeBps: U128)
    requires amount1 <= amount2
    requires SwapOutput(reserveIn, reserveOut, amount1, feeBps).Ok?
    requires SwapOutput(reserveIn, reserveOut, amount2, feeBps).Ok?
    ensures SwapOutput(reserveIn, reserveOut, amount1, feeBps).value
         <= SwapOutput(reserveIn, reserveOut, amount2, feeBps).value
  {
    SwapValue(reserveIn, reserveOut, amount1, feeBps);
    SwapValue(reserveIn, reserveOut, amount2, feeBps);
    var w1, w2 := WithFee(amount1, feeBps), WithFee(amount2, feeBps);
    assert w1 <= w2 by {
      MulLe(amount1, amount2, BPS - feeBps);
    }
    QuoteMonotone(reserveOut, reserveIn * BPS, w1, w2);
  }

  /** A higher fee never yields a larger output. */
  lemma SwapMonotoneInFee(reserveIn: U128, reserveOut: U128, amountIn: U128, fee1: U128, fee2: U128)
    requires fee1 <= fee2
    requires SwapOutput(reserveIn, reserveOut, amountIn, fee1).Ok?
    requires SwapOutput(reserveIn, reserveOut, amountIn, fee2).Ok?
    ensures SwapOutput(reserveIn, reserveOut, amountIn, fee2).value
         <= SwapOutput(reserveIn, reserveOut, amountIn, fee1).value
  {
    SwapValue(reserveIn, reserveOut, amountIn, fee1);
    SwapValue(reserveIn, reserveOut, amountIn, fee2);
    var w1, w2 := WithFee(amountIn, fee1), WithFee(amountIn, fee2);
    assert w2 <= w1 by {
      MulLe(BPS - fee2, BPS - fee1, amountIn);
    }
    QuoteMonotone(reserveOut, reserveIn * BPS, w2, w1);
  }

  /** Two inputs from the sampled ranges of the strict monotonicity property with equal outputs. */
  lemma SwapNotStrictlyMonotone()
    ensures SwapOutput(999999, 1000, 4999, 0) == Ok(4)
    ensures SwapOutput(999999, 1000, 5001, 0) == Ok(4)
  {
  }

  /** A 99.99% fee and a 0.3% fee can give the same output, so the output does not strictly fall. */
  lemma HighFeeNotStrictlyLower()
    ensures SwapOutput(999999, 1000, 100, 9999) == Ok(0)
    ensures SwapOutput(999999, 1000, 100, 30) == Ok(0)
  {
  }

  /** A successful swap may pay out nothing. */
  lemma SwapCanPayNothing()
    ensures SwapOutput(2, 1, 1, 0) == Ok(0)
  {
  }

  /** A swap that also refuses to pay out nothing, as mint and burn refuse too-small results. */
  function SwapOutputNonZero(reserveIn: U128, reserveOut: U128, amountIn: U128, feeBps: U128): (r: Result<nat, string>)
    ensures r.Ok? ==> 0 < r.value < reserveOut
    ensures r.Ok? ==> SwapOutput(reserveIn, reserveOut, amountIn, feeBps) == r
    ensures SwapOutput(reserveIn, reserveOut, amountIn, feeBps).Ok? && r.Err? ==>
      SwapOutput(reserveIn, reserveOut, amountIn, feeBps).value == 0
  {
    var r := SwapOutput(reserveIn, reserveOut, amountIn, feeBps);
    if r.Ok? && r.value == 0 then Err("Output amount too small")
    else
      if r.Ok? then SwapOutputBelowReserve(reserveIn, reserveOut, amountIn, feeBps); r
      else r
  }

  // ---------------------------------------------------------------------
  // Integer square root

  predicate IsFloorSqrt(n: nat, r: nat)
  {
    r * r <= n < (r + 1) * (r + 1)
  }

  /** Reference floor square root, digit pair by digit pair. */
  function FloorSqrt(n: nat): (r: nat)
    ensures IsFloorSqrt(n, r)
  {
    if n < 4 then (if n == 0 then 0 else 1)
    else
      var t := FloorSqrt(n / 4);
      SqrtStep(n, t);
      var h := 2 * t;
      if (h + 1) * (h + 1) <= n then h + 1 else h
  }

  /** Doubling the root of `n / 4` brackets the root of `n` within one. */
  lemma SqrtStep(n: nat, t: nat)
    requires t * t <= n / 4 < (t + 1) * (t + 1)
    ensures (2 * t) * (2 * t) <= n < (2 * t + 2) * (2 * t + 2)
  {
    var m := n / 4;
    assert n == 4 * m + n % 4;
    assert (2 * t) * (2 * t) == 4 * (t * t);
    assert (2 * t + 2) * (2 * t + 2) == 4 * ((t + 1) * (t + 1));
    MulLe(t * t, m, 4);
    MulLe(m + 1, (t + 1) * (t + 1), 4);
  }

  lemma SquareMono(a: nat, b: nat)
    requires a <= b
    ensures a * a <= b * b
  {
    MulLe(a, b, a);
    MulLe(a, b, b);
  }

  /** The floor square root is unique. */
  lemma FloorSqrtUnique(n: nat, r: nat)
    requires IsFloorSqrt(n, r)
    ensures r == FloorSqrt(n)
  {
    var s := FloorSqrt(n);
    if r < s {
      SquareMono(r + 1, s);
    } else if s < r {
      SquareMono(s + 1, r);
    }
  }

  /** `x * (2s - x) <= s * s`: the arithmetic-geometric mean inequality in integer form. */
  lemma ProductBelowSquare(s: int, x: int)
    ensures x * (2 * s - x) <= s * s
  {
    var d := s - x;
    assert s * s - x * (2 * s - x) == d * d;
  }

  /** The quotient times the divisor does not exceed the dividend. */
  lemma QuotientTimesDivisor(n: nat, d: nat)
    requires d > 0
    ensures (n / d) * d <= n
  {
    assert n == (n / d) * d + n % d;
  }

  /** If `q + 1` copies of `x` exceed `n >= s * s`, then `x + q >= 2 * s`. */
  lemma SumAboveTwiceRoot(n: nat, x: nat, q: nat, s: nat)
    requires x >= 1 && n < (q + 1) * x && s * s <= n
    ensures x + q >= 2 * s
  {
    if x + q < 2 * s {
      var w := 2 * s - x;
      MulLe(q + 1, w, x);
      ProductBelowSquare(s, x);
    }
  }

  /** One Newton step from any positive guess never undershoots the floor square root. */
  lemma NewtonStepAbove(n: nat, x: nat)
    requires x >= 1
    ensures (x + n / x) / 2 >= FloorSqrt(n)
  {
    var q := n / x;
    assert n < (q + 1) * x;
    SumAboveTwiceRoot(n, x, q, FloorSqrt(n));
  }

  /** A guess above the floor square root is strictly lowered by a Newton step. */
  lemma NewtonStepDescends(n: nat, x: nat)
    requires x > FloorSqrt(n)
    ensures (x + n / x) / 2 < x
  {
    var s := FloorSqrt(n);
    SquareMono(s + 1, x);
    assert n < x * x;
    var q := n / x;
    QuotientTimesDivisor(n, x);
    if q >= x {
      MulLe(x, q, x);
      assert false;
    }
    assert x + q < 2 * x;
  }

  /** Inside the loop the guess is at most half of `n` (rounded up), so `x + n / x` cannot overflow. */
  lemma NewtonSumFits(n: nat, x: nat)
    requires 1 <= n <= U128_MAX
    requires 1 <= x <= (n + 1) / 2
    requires FloorSqrt(n) <= x
    ensures x + n / x <= U128_MAX
  {
    if x == 1 {
      var s := FloorSqrt(n);
      SquareMono(s + 1, 2);
    } else {
      MulLe(2, x, n);
      FloorDivMono(n, x, n, 2);
    }
  }

  /**
   * The seed `(x + 1) / 2` as written, with its `+ 1` checked: `None` is the
   * arithmetic-overflow panic.
   */
  function NewtonSeedAsWritten(n: U128): Option<U128>
  {
    if n + 1 > U128_MAX then None else Some((n + 1) / 2)
  }

  /** The seed overflows for exactly one input, the largest u128. */
  lemma NewtonSeedOverflowsOnlyAtMax(n: U128)
    ensures NewtonSeedAsWritten(n).None? <==> n == U128_MAX
  {
  }

  /** A first deposit of `u128::MAX` and 1 passes the product check and reaches the overflowing seed. */
  lemma FirstDepositReachesOverflow()
    ensures U128_MAX * 1 <= U128_MAX
    ensures NewtonSeedAsWritten(U128_MAX * 1).None?
  {
  }

  lemma FloorSqrtBounds(n: nat)
    requires n >= 1
    ensures 1 <= FloorSqrt(n) <= n
  {
    var s := FloorSqrt(n);
    MulLe(1, s, s);
  }

  /** The next guess stays at most half of `n`, rounded up. */
  lemma NextGuessAtMostHalf(n: nat, x: nat)
    requires 1 <= x <= n
    requires x == n || x <= (n + 1) / 2
    requires (x + n / x) / 2 < x
    ensures (x + n / x) / 2 <= (n + 1) / 2
  {
    if x == n {
      assert n / x == 1;
    }
  }

  /** One pass of the loop keeps the guess between the root and half of `n`, with room for the next sum. */
  lemma NewtonLoopStep(n: nat, x: nat)
    requires 1 <= x <= n <= U128_MAX
    requires FloorSqrt(n) <= x
    requires x == n || x <= (n + 1) / 2
    requires (x + n / x) / 2 < x
    ensures var next := (x + n / x) / 2;
      1 <= next <= n && FloorSqrt(n) <= next && next <= (n + 1) / 2 && next + n / next <= U128_MAX
  {
    var next := (x + n / x) / 2;
    NewtonStepAbove(n, x);
    NextGuessAtMostHalf(n, x);
    FloorSqrtBounds(n);
    NewtonSumFits(n, next);
  }

  /**
   * `integer_sqrt` with the seed computed as `n / 2 + n % 2`, the same
   * value as `(n + 1) / 2` without the overflowing `+ 1`. Every
   * intermediate fits a u128.
   */
  method IntegerSqrt(n: U128) returns (r: U128)
    ensures IsFloorSqrt(n, r)
    ensures r == FloorSqrt(n)
  {
    if n == 0 {
      return 0;
    }
    var x: nat := n;
    var y: nat := n / 2 + n % 2;
    assert n / x == 1;
    FloorSqrtBounds(n);
    while y < x
      invariant 1 <= x <= n
      invariant FloorSqrt(n) <= x
      invariant x == n || x <= (n + 1) / 2
      invariant y == (x + n / x) / 2
      decreases x
    {
      NewtonLoopStep(n, x);
      x := y;
      var sum: U128 := x + n / x;
      y := sum / 2;
    }
    if x > FloorSqrt(n) {
      NewtonStepDescends(n, x);
    }
    r := x;
  }

  // ---------------------------------------------------------------------
  // Liquidity

  function Min(a: nat, b: nat): nat
  {
    if a < b then a else b
  }

  /**
   * `calculate_liquidity_mint`: LP tokens for depositing `amountA` and
   * `amountB`. The first deposit mints the floor square root of their
   * product (the reference root, see IntegerSqrt); later deposits mint
   * the smaller of the two proportional shares.
   */
  function LiquidityMint(reserveA: U128, reserveB: U128, amountA: U128, amountB: U128, totalSupply: U128)
    : Result<nat, string>
  {
    if amountA == 0 || amountB == 0 then Err("Amounts must be positive")
    else if totalSupply == 0 then
      var product: nat := amountA * amountB;
      if product > U128_MAX then Err("Initial liquidity overflow")
      else
        var liquidity := FloorSqrt(product);
        if liquidity == 0 then Err("Initial liquidity too small") else Ok(liquidity)
    else if reserveA == 0 || reserveB == 0 then Err("Reserves must be positive")
    else
      var scaledA: nat := amountA * totalSupply;
      var scaledB: nat := amountB * totalSupply;
      if scaledA > U128_MAX then Err("Liquidity A calculation overflow")
      else if scaledB > U128_MAX then Err("Liquidity B calculation overflow")
      else
        var liquidity := Min(Div(scaledA, reserveA), Div(scaledB, reserveB));
        if liquidity == 0 then Err("Liquidity amount too small") else Ok(liquidity)
  }

  /**
   * `integer_sqrt` as written: `None` is the overflow panic of the seed
   * `(x + 1) / 2`. Past the seed the loop is IntegerSqrt's, from the same
   * seed value, so the result is the floor root.
   */
  function IntegerSqrtAsWritten(n: U128): Option<nat>
  {
    if n == 0 then Some(0)
    else if NewtonSeedAsWritten(n).None? then None
    else Some(FloorSqrt(n))
  }

  /**
   * `calculate_liquidity_mint` as written, calling `integer_sqrt` with its
   * overflowing seed on the first deposit; `None` is that panic.
   */
  function LiquidityMintAsWritten(reserveA: U128, reserveB: U128, amountA: U128, amountB: U128, totalSupply: U128)
    : Option<Result<nat, string>>
  {
    if amountA == 0 || amountB == 0 then Some(Err("Amounts must be positive"))
    else if totalSupply == 0 then
      var product: nat := amountA * amountB;
      if product > U128_MAX then Some(Err("Initial liquidity overflow"))
      else
        var root := IntegerSqrtAsWritten(product);
        if root.None? then None
        else if root.value == 0 then Some(Err("Initial liquidity too small"))
        else Some(Ok(root.value))
    else if reserveA == 0 || reserveB == 0 then Some(Err("Reserves must be positive"))
    else
      var scaledA: nat := amountA * totalSupply;
      var scaledB: nat := amountB * totalSupply;
      if scaledA > U128_MAX then Some(Err("Liquidity A calculation overflow"))
      else if scaledB > U128_MAX then Some(Err("Liquidity B calculation overflow"))
      else
        var liquidity := Min(Div(scaledA, reserveA), Div(scaledB, reserveB));
        if liquidity == 0 then Some(Err("Liquidity amount too small")) else Some(Ok(liquidity))
  }

  /**
   * The mint as written panics exactly on a first deposit whose product is
   * `u128::MAX`; everywhere else it gives what LiquidityMint gives.
   */
  lemma MintAsWrittenAgrees(reserveA: U128, reserveB: U128, amountA: U128, amountB: U128, totalSupply: U128)
    ensures var w := LiquidityMintAsWritten(reserveA, reserveB, amountA, amountB, totalSupply);
      (w.None? <==> amountA > 0 && amountB > 0 && totalSupply == 0 && amountA * amountB == U128_MAX) &&
      (w.Some? ==> w.value == LiquidityMint(reserveA, reserveB, amountA, amountB, totalSupply))
  {
  }

  /** A first deposit of `u128::MAX` and 1 panics as written, where LiquidityMint succeeds. */
  lemma FirstDepositPanicsAsWritten()
    ensures LiquidityMintAsWritten(0, 0, U128_MAX, 1, 0).None?
    ensures LiquidityMint(0, 0, U128_MAX, 1, 0).Ok?
  {
    FirstMintIsGeometricMean(U128_MAX, 1);
  }

  lemma MintRejectsDegenerateInput(reserveA: U128, reserveB: U128, amountA: U128, amountB: U128, totalSupply: U128)
    ensures amountA == 0 || amountB == 0 ==>
      LiquidityMint(reserveA, reserveB, amountA, amountB, totalSupply) == Err("Amounts must be positive")
    ensures amountA > 0 && amountB > 0 && totalSupply > 0 && (reserveA == 0 || reserveB == 0) ==>
      LiquidityMint(reserveA, reserveB, amountA, amountB, totalSupply) == Err("Reserves must be positive")
  {
  }

  /**
   * The first deposit mints the floor geometric mean of the two amounts,
   * and fails only when their product overflows: it is never "too small".
   */
  lemma FirstMintIsGeometricMean(amountA: U128, amountB: U128)
    requires amountA > 0 && amountB > 0
    ensures var r := LiquidityMint(0, 0, amountA, amountB, 0);
      (r.Ok? <==> amountA * amountB <= U128_MAX) &&
      (r.Ok? ==> r.value > 0 && IsFloorSqrt(amountA * amountB, r.value))
  {
    MulLe(1, amountA, amountB);
  }

  /**
   * A later deposit mints the largest amount that is within both
   * proportional shares: `liquidity * reserve <= amount * totalSupply` for
   * both tokens, and one more token would break one of the two bounds.
   */
  lemma MintIsLargestProportionalShare(reserveA: U128, reserveB: U128, amountA: U128, amountB: U128, totalSupply: U128)
    requires totalSupply > 0
    requires LiquidityMint(reserveA, reserveB, amountA, amountB, totalSupply).Ok?
    ensures var l := LiquidityMint(reserveA, reserveB, amountA, amountB, totalSupply).value;
      l * reserveA <= amountA * totalSupply && l * reserveB <= amountB * totalSupply &&
      ((l + 1) * reserveA > amountA * totalSupply || (l + 1) * reserveB > amountB * totalSupply)
  {
    var la := amountA * totalSupply / reserveA;
    var lb := amountB * totalSupply / reserveB;
    var l := Min(la, lb);
    MulLe(l, la, reserveA);
    MulLe(l, lb, reserveB);
  }

  /** `calculate_liquidity_burn`: the reserves paid out for burning `liquidity` of `totalSupply` LP tokens. */
  function LiquidityBurn(reserveA: U128, reserveB: U128, liquidity: U128, totalSupply: U128)
    : Result<(nat, nat), string>
  {
    if liquidity == 0 then Err("Liquidity must be positive")
    else if totalSupply == 0 then Err("Total supply is zero")
    else if liquidity > totalSupply then Err("Liquidity exceeds total supply")
    else
      var shareA: nat := reserveA * liquidity;
      var shareB: nat := reserveB * liquidity;
      if shareA > U128_MAX then Err("Amount A calculation overflow")
      else if shareB > U128_MAX then Err("Amount B calculation overflow")
      else
        var amountA := Div(shareA, totalSupply);
        var amountB := Div(shareB, totalSupply);
        if amountA == 0 || amountB == 0 then Err("Burn amounts too small") else Ok((amountA, amountB))
  }

  lemma BurnRejectsDegenerateInput(reserveA: U128, reserveB: U128, liquidity: U128, totalSupply: U128)
    ensures liquidity == 0 ==> LiquidityBurn(reserveA, reserveB, liquidity, totalSupply).Err?
    ensures totalSupply == 0 ==> LiquidityBurn(reserveA, reserveB, liquidity, totalSupply).Err?
    ensures liquidity > totalSupply ==> LiquidityBurn(reserveA, reserveB, liquidity, totalSupply).Err?
  {
  }

  /** The floor of `reserve * liquidity / totalSupply` is at most `reserve` when `liquidity <= totalSupply`. */
  lemma ShareAtMostWhole(reserve: nat, liquidity: nat, totalSupply: nat)
    requires 0 < totalSupply && liquidity <= totalSupply
    ensures Div(reserve * liquidity, totalSupply) <= reserve
    ensures Div(reserve * liquidity, totalSupply) * totalSupply <= reserve * liquidity
    ensures reserve * liquidity < (Div(reserve * liquidity, totalSupply) + 1) * totalSupply
  {
    var share := reserve * liquidity;
    var q := share / totalSupply;
    MulLe(liquidity, totalSupply, reserve);
    assert q * totalSupply <= share;
    if q > reserve {
      MulLt(reserve, q, totalSupply);
    }
  }

  /**
   * A burn pays out a positive amount of each token, at most the reserve,
   * and exactly the rounded-down share `liquidity / totalSupply` of it.
   */
  lemma BurnIsShareOfReserves(reserveA: U128, reserveB: U128, liquidity: U128, totalSupply: U128)
    requires LiquidityBurn(reserveA, reserveB, liquidity, totalSupply).Ok?
    ensures var (a, b) := LiquidityBurn(reserveA, reserveB, liquidity, totalSupply).value;
      0 < a <= reserveA && 0 < b <= reserveB &&
      a * totalSupply <= reserveA * liquidity < (a + 1) * totalSupply &&
      b * totalSupply <= reserveB * liquidity < (b + 1) * totalSupply
  {
    ShareAtMostWhole(reserveA, liquidity, totalSupply);
    ShareAtMostWhole(reserveB, liquidity, totalSupply);
  }

  /** With `l * reserve <= amount * supply`, burning `l` of `supply + l` against `reserve + amount` returns at most `amount`. */
  lemma RedeemAtMostDeposit(reserve: nat, amount: nat, l: nat, supply: nat)
    requires supply + l > 0
    requires l * reserve <= amount * supply
    ensures Div((reserve + amount) * l, supply + l) <= amount
  {
    var num := (reserve + amount) * l;
    var den := supply + l;
    assert num == l * reserve + amount * l;
    assert amount * den == amount * supply + amount * l;
    assert num <= amount * den;
    var q := num / den;
    assert q * den <= num;
    if q > amount {
      MulLt(amount, q, den);
    }
  }

  /**
   * Depositing into a funded pool and burning the minted tokens straight
   * away never returns more of either token than was deposited.
   */
  lemma MintThenBurnNeverProfits(reserveA: U128, reserveB: U128, amountA: U128, amountB: U128, totalSupply: U128)
    requires totalSupply > 0
    requires LiquidityMint(reserveA, reserveB, amountA, amountB, totalSupply).Ok?
    requires reserveA + amountA <= U128_MAX && reserveB + amountB <= U128_MAX
    requires totalSupply + LiquidityMint(reserveA, reserveB, amountA, amountB, totalSupply).value <= U128_MAX
    requires LiquidityBurn(reserveA + amountA, reserveB + amountB,
                           LiquidityMint(reserveA, reserveB, amountA, amountB, totalSupply).value,
                           totalSupply + LiquidityMint(reserveA, reserveB, amountA, amountB, totalSupply).value).Ok?
    ensures var l := LiquidityMint(reserveA, reserveB, amountA, amountB, totalSupply).value;
      var (outA, outB) := LiquidityBurn(reserveA + amountA, reserveB + amountB, l, totalSupply + l).value;
      outA <= amountA && outB <= amountB
  {
    var l := LiquidityMint(reserveA, reserveB, amountA, amountB, totalSupply).value;
    MintIsLargestProportionalShare(reserveA, reserveB, amountA, amountB, totalSupply);
    RedeemAtMostDeposit(reserveA, amountA, l, totalSupply);
    RedeemAtMostDeposit(reserveB, amountB, l, totalSupply);
  }

  /** The unit tests of the source: a later deposit, a first deposit and a burn. */
  lemma LiquidityExamples()
    ensures LiquidityMint(1000, 2000, 100, 200, 500) == Ok(50)
    ensures LiquidityMint(0, 0, 1000, 1000, 0) == Ok(1000)
    ensures LiquidityBurn(1000, 2000, 100, 500) == Ok((200, 400))
  {
    assert Div(100 * 500, 1000) == 50 && Div(200 * 500, 2000) == 50;
    FloorSqrtUnique(1000 * 1000, 1000);
    assert Div(1000 * 100, 500) == 200 && Div(2000 * 100, 500) == 400;
  }

  /** The basic swap of the unit tests: positive and below the input, at 90 tokens. */
  lemma SwapExample()
    ensures SwapOutput(1000, 1000, 100, 30) == Ok(90)
  {
    assert WithFee(100, 30) == 997000;
    assert Div(1000 * 997000, 1000 * 10000 + 997000) == 90;
  }
}
