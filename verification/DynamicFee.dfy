/**
 The dynamic-fee check of x/dynamicfee/ante/fee.go: fee sufficiency, transaction priority
 and the conversion of a fee paid in another denom.
 */
module DynamicFee {
  import opened LegacyDec

  const MAX_INT64: int := 0x7fff_ffff_ffff_ffff
  const PRECISION_FACTOR: int := 1_000_000

  datatype Verdict = Accept | InsufficientFee | Panic

  /** CheckTxFee, for a fee in the denom of the gas price; NewCoin panics on a negative amount. */
  function CheckTxFee(gasPrice: Dec, fee: nat, feeGas: int): Verdict {
    if gasPrice == 0 then Accept
    else
      var limitFee := Mul(gasPrice, FromInt(feeGas));
      var required := RoundInt(Ceil(limitFee));
      if required < 0 then Panic
      else if fee >= required then Accept
      else InsufficientFee
  }

  datatype Priority = Priority(n: int) | PriorityPanic

  /** GetTxPriority; Int64() panics on an amount that does not fit. */
  function GetTxPriority(fee: nat, gasLimit: int, gasPrice: Dec): Priority {
    if gasLimit == 0 then Priority(0)
    else if gasPrice == 0 then
      if fee <= MAX_INT64 then Priority(fee) else PriorityPanic
    else
      var effective := QuoInt(FromInt(fee), gasLimit);
      var normalized := Quo(effective, gasPrice);
      var scaled := MulInt(normalized, PRECISION_FACTOR);
      if scaled >= FromInt(MAX_INT64) then Priority(MAX_INT64)
      else if scaled <= ONE then Priority(0)
      else Priority(TruncateInt(scaled))
  }

  /** The fee in the base denom: pay times the quotient of the two prices, truncated. */
  function ConvertFee(pay: nat, basePrice: Dec, minPrice: Dec): int
    requires minPrice != 0
  {
    TruncateInt(Mul(FromInt(pay), Quo(basePrice, minPrice)))
  }

  // ---------------------------------------------------------------- sufficiency

  /** The check is exact: the ceiling and the two roundings lose nothing. */
  lemma AcceptedIff(gasPrice: nat, fee: nat, feeGas: nat)
    ensures CheckTxFee(gasPrice, fee, feeGas) == Accept <==> fee * 1_000_000_000_000_000_000 >= gasPrice * feeGas
    ensures CheckTxFee(gasPrice, fee, feeGas) != Panic
  {
    if gasPrice > 0 {
      var exact := gasPrice * feeGas;
      assert gasPrice * (feeGas * ONE) == exact * ONE;
      ChopExact(exact);
      var up := if exact > (exact / ONE) * ONE then exact / ONE + 1 else exact / ONE;
      ChopExact(up);
      assert CheckTxFee(gasPrice, fee, feeGas) == if fee >= up then Accept else InsufficientFee;
    }
  }

  /** A gas limit of 2^63 or more turns negative as an int64 and the required coin panics. */
  lemma NegativeGasPanics(gasPrice: nat, fee: nat, feeGas: int)
    requires gasPrice > 0 && feeGas < 0
    ensures CheckTxFee(gasPrice, fee, feeGas) == Panic <==> gasPrice * -feeGas >= 1_000_000_000_000_000_000
    ensures CheckTxFee(gasPrice, fee, feeGas) != Panic ==> CheckTxFee(gasPrice, fee, feeGas) == Accept
  {
    var exact: nat := gasPrice * -feeGas;
    assert gasPrice * (feeGas * ONE) == -(exact * ONE);
    ChopExact(exact);
    assert Mul(gasPrice, FromInt(feeGas)) == 0 - exact;
    ChopExact(exact / ONE);
    assert Ceil(0 - exact) == (0 - exact / ONE) * ONE;
  }

  /** Nothing is required at a price of zero, whatever the gas. */
  lemma FreeGas(fee: nat, feeGas: int)
    ensures CheckTxFee(0, fee, feeGas) == Accept
  {
  }

  // ---------------------------------------------------------------- priority

  function Effective(fee: nat, gasLimit: nat): (r: nat)
    requires gasLimit > 0
  {
    fee * ONE / gasLimit
  }

  /** The two clamps and the truncation, on the raw scaled price. */
  function Clamp(scaled: int): int {
    if scaled >= MAX_INT64 * ONE then MAX_INT64 else if scaled <= ONE then 0 else scaled / ONE
  }

  lemma PriorityIsClamped(fee: nat, gasLimit: nat, gasPrice: nat)
    requires gasLimit > 0 && gasPrice > 0
    ensures GetTxPriority(fee, gasLimit, gasPrice) ==
            Priority(Clamp(Quo(Effective(fee, gasLimit), gasPrice) * PRECISION_FACTOR))
  {
    QuoNat(Effective(fee, gasLimit), gasPrice);
  }

  lemma ClampMono(x: int, y: int)
    requires x <= y
    ensures 0 <= Clamp(x) <= Clamp(y) <= MAX_INT64
  {
  }

  /** Priority never panics for positive gas and price, and stays in the int64 range. */
  lemma PriorityInRange(fee: nat, gasLimit: nat, gasPrice: nat)
    requires gasLimit > 0 && gasPrice > 0
    ensures GetTxPriority(fee, gasLimit, gasPrice).Priority?
    ensures 0 <= GetTxPriority(fee, gasLimit, gasPrice).n <= 9_223_372_036_854_775_807
  {
    PriorityIsClamped(fee, gasLimit, gasPrice);
    var scaled := Quo(Effective(fee, gasLimit), gasPrice) * PRECISION_FACTOR;
    ClampMono(scaled, scaled);
  }

  /** A higher fee never lowers the priority; a higher gas limit or gas price never raises it. */
  lemma PriorityMonotone(fee1: nat, gas1: nat, price1: nat, fee2: nat, gas2: nat, price2: nat)
    requires fee1 <= fee2 && gas1 >= gas2 > 0 && price1 >= price2 > 0
    ensures GetTxPriority(fee1, gas1, price1).Priority? && GetTxPriority(fee2, gas2, price2).Priority?
    ensures GetTxPriority(fee1, gas1, price1).n <= GetTxPriority(fee2, gas2, price2).n
  {
    PriorityIsClamped(fee1, gas1, price1);
    PriorityIsClamped(fee2, gas2, price2);
    DivMono(fee1 * ONE, gas1, fee2 * ONE, gas2);
    var e1, e2 := Effective(fee1, gas1), Effective(fee2, gas2);
    QuoMono(e1, price1, e2, price2);
    ClampMono(Quo(e1, price1) * PRECISION_FACTOR, Quo(e2, price2) * PRECISION_FACTOR);
  }

  /**
   What the priority is, for positive gas and price: the effective price fee * 10^18 / gas,
   rounded down, over the gas price to 36 digits and from there to the nearest 18, times 10^6
   without its fraction; 2^63 - 1 from there on, and 0 up to one unit.
   */
  lemma PriorityExact(fee: nat, gas: nat, gasPrice: nat) returns (q: nat)
    requires gas > 0 && gasPrice > 0
    ensures Rounds(fee * 1_000_000_000_000_000_000 / gas * 1_000_000_000_000_000_000_000_000_000_000_000_000 / gasPrice, q)
    ensures GetTxPriority(fee, gas, gasPrice) ==
            Priority(if q >= 9_223_372_036_854_775_807_000_000_000_000 then 9_223_372_036_854_775_807
                     else if q <= 1_000_000_000_000 then 0
                     else q * 1_000_000 / 1_000_000_000_000_000_000)
  {
    PriorityIsClamped(fee, gas, gasPrice);
    QuoNat(Effective(fee, gas), gasPrice);
    q := Quo(Effective(fee, gas), gasPrice);
    QuoIsNearestEven(Effective(fee, gas), gasPrice, q);
    hide Rounds, Quo, GetTxPriority;
  }

  lemma ReachesEven(x: int, q: int, t: int)
    requires Rounds(x, q) && t % 2 == 0
    ensures q >= t <==> x >= t * 1_000_000_000_000_000_000 - 500_000_000_000_000_000
    ensures q <= t <==> x <= t * 1_000_000_000_000_000_000 + 500_000_000_000_000_000
  {
  }

  /**
   The two clamps, exactly, for the effective price over the gas price to 36 digits: the highest
   priority is reached half a unit of the 18th digit before (2^63 - 1) / 10^6, and the priority
   is nothing up to half a unit beyond 10^-6.
   */
  lemma PriorityClamps(fee: nat, gas: nat, gasPrice: nat)
    requires gas > 0 && gasPrice > 0
    ensures var n := GetTxPriority(fee, gas, gasPrice);
            var x := fee * 1_000_000_000_000_000_000 / gas * 1_000_000_000_000_000_000_000_000_000_000_000_000 / gasPrice;
            && (n == Priority(9_223_372_036_854_775_807) <==>
                  x >= 9_223_372_036_854_775_807_000_000_000_000_000_000_000_000_000_000 - 500_000_000_000_000_000)
            && (n == Priority(0) <==> x <= 1_000_000_000_000_000_000_000_000_000_000 + 500_000_000_000_000_000)
  {
    var q := PriorityExact(fee, gas, gasPrice);
    hide Rounds, GetTxPriority;
    var x: nat := fee * 1_000_000_000_000_000_000 / gas * 1_000_000_000_000_000_000_000_000_000_000_000_000 / gasPrice;
    ClampsAt(x, q);
  }

  lemma ClampsAt(x: nat, q: nat)
    requires Rounds(x, q)
    ensures var n := if q >= 9_223_372_036_854_775_807_000_000_000_000 then 9_223_372_036_854_775_807
                     else if q <= 1_000_000_000_000 then 0
                     else q * 1_000_000 / 1_000_000_000_000_000_000;
            && (n == 9_223_372_036_854_775_807 <==>
                  9_223_372_036_854_775_807_000_000_000_000_000_000_000_000_000_000 - 500_000_000_000_000_000 <= x)
            && (n == 0 <==> x < 1_000_000_000_000_000_000_000_000_000_000 + 500_000_000_000_000_000 + 1)
  {
    ReachesEven(x, q, 9_223_372_036_854_775_807_000_000_000_000);
    ReachesEven(x, q, 1_000_000_000_000);
    hide Rounds;
    if 1_000_000_000_000 < q < 9_223_372_036_854_775_807_000_000_000_000 { BetweenClamps(q); }
  }

  lemma BetweenClamps(q: nat)
    requires 1_000_000_000_000 < q < 9_223_372_036_854_775_807_000_000_000_000
    ensures 0 < q * 1_000_000 / 1_000_000_000_000_000_000 < 9_223_372_036_854_775_807
  {
  }

  /**
   Between the clamps the priority n is 10^6 * fee * 10^18 / (gas * price), at most 10^-12
   above it, and below it by less than one, 10^-12, and 10^6 over the raw price together.
   */
  lemma PriorityNear(fee: nat, gas: nat, gasPrice: nat)
    requires gas > 0 && gasPrice > 0
    ensures var n := GetTxPriority(fee, gas, gasPrice).n;
            0 < n < 9_223_372_036_854_775_807 ==>
              var exact, whole := 1_000_000 * fee * 1_000_000_000_000_000_000_000_000_000_000_000_000, gas * gasPrice;
              && n * 1_000_000_000_000_000_000 * whole <= exact + 1_000_000 * whole
              && exact < (n + 1) * 1_000_000_000_000_000_000 * whole + 1_000_000 * whole + 1_000_000 * gas * 1_000_000_000_000_000_000
  {
    var e, q := Effective(fee, gas), Quo(Effective(fee, gas), gasPrice);
    PriorityIsClamped(fee, gas, gasPrice);
    QuoNear(e, gasPrice);
    DivBound(fee * ONE, gas);
    var n := GetTxPriority(fee, gas, gasPrice).n;
    if 0 < n < MAX_INT64 {
      assert n == q * PRECISION_FACTOR / ONE;
      QuoNat(e, gasPrice);
      hide Quo, GetTxPriority, Effective;
      DivBound(q * PRECISION_FACTOR, ONE);
      NearBounds(fee, gas, gasPrice, e, q, n);
    }
  }

  /** The chain of the three bounds. */
  lemma NearBounds(fee: nat, gas: nat, price: nat, e: nat, q: nat, n: nat)
    requires e * gas <= fee * ONE < e * gas + gas
    requires 0 - price <= q * price - e * ONE <= price
    requires n * ONE <= q * PRECISION_FACTOR < n * ONE + ONE
    ensures n * ONE * (gas * price) <= 1_000_000 * fee * (ONE * ONE) + 1_000_000 * (gas * price)
    ensures 1_000_000 * fee * (ONE * ONE) < (n + 1) * ONE * (gas * price) + 1_000_000 * (gas * price) + 1_000_000 * gas * ONE
  {
    var g := gas * price;
    UpToGas(gas, price, e, q);
    MulLe(n * ONE, q * PRECISION_FACTOR, g);
    MulLe(q * PRECISION_FACTOR, n * ONE + ONE, g);
    assert q * PRECISION_FACTOR * g == PRECISION_FACTOR * (q * g);
    assert (n * ONE + ONE) * g == (n + 1) * ONE * g;
  }

  /** q * g is e * gas * ONE up to g. */
  lemma UpToGas(gas: nat, price: nat, e: nat, q: nat)
    requires 0 - price <= q * price - e * ONE <= price
    ensures q * (gas * price) <= e * gas * ONE + gas * price && e * gas * ONE <= q * (gas * price) + gas * price
  {
    MulLe(q * price, e * ONE + price, gas);
    MulLe(e * ONE, q * price + price, gas);
    assert q * price * gas == q * (gas * price) && e * ONE * gas == e * gas * ONE;
  }

  /** At a price of zero the priority is the fee, and a fee that is no int64 panics; without gas it is zero, and so it is for gas that turned negative. */
  lemma PriorityUnpriced(fee: nat, gas: int, gasPrice: nat)
    ensures gas == 0 ==> GetTxPriority(fee, gas, gasPrice) == Priority(0)
    ensures gas != 0 && gasPrice == 0 ==>
              GetTxPriority(fee, gas, gasPrice) == if fee <= 9_223_372_036_854_775_807 then Priority(fee) else PriorityPanic
    ensures gas < 0 && gasPrice > 0 ==> GetTxPriority(fee, gas, gasPrice) == Priority(0)
  {
    if gas < 0 && gasPrice > 0 {
      var e: nat := fee * ONE / -gas;
      assert QuoInt(FromInt(fee), gas) == 0 - e;
      QuoNegative(e, gasPrice);
      hide Quo;
    }
  }

  lemma QuoNegative(e: nat, price: nat)
    requires price > 0
    ensures Quo(0 - e, price) <= 0
  {
    var x: nat := e * ONE * ONE;
    assert (0 - e) * ONE * ONE == 0 - x;
    assert TruncDiv(0 - x, price) <= 0;
  }

  lemma ChopReachesOne(x: nat)
    ensures Chop(x) >= ONE <==> x >= ONE * ONE - HALF
  {
  }

  lemma QuoReachesOne(e: nat, gasPrice: nat)
    requires gasPrice > 0
    ensures Quo(e, gasPrice) >= ONE <==> 2 * ONE * (gasPrice - e) <= gasPrice
  {
    QuoNat(e, gasPrice);
    ChopReachesOne(e * ONE * ONE / gasPrice);
    DivLargest(e * ONE * ONE, gasPrice, ONE * ONE - HALF);
    assert (ONE * ONE - HALF) * gasPrice == ONE * ONE * gasPrice - HALF * gasPrice;
  }

  /**
   The exact threshold of full priority, for any fee: the effective price may fall short of the
   gas price by at most half a unit in the 18th place of their quotient.
   */
  lemma FullPriorityIff(fee: nat, gas: nat, gasPrice: nat)
    requires gas > 0 && gasPrice > 0
    ensures GetTxPriority(fee, gas, gasPrice).Priority?
    ensures GetTxPriority(fee, gas, gasPrice).n >= 1_000_000 <==>
            2_000_000_000_000_000_000 * (gasPrice - fee * 1_000_000_000_000_000_000 / gas) <= gasPrice
  {
    var e := Effective(fee, gas);
    PriorityIsClamped(fee, gas, gasPrice);
    QuoReachesOne(e, gasPrice);
    hide Effective, Quo;
    if Quo(e, gasPrice) >= ONE {
      ClampMono(ONE * PRECISION_FACTOR, Quo(e, gasPrice) * PRECISION_FACTOR);
    } else {
      ClampMono(Quo(e, gasPrice) * PRECISION_FACTOR, (ONE - 1) * PRECISION_FACTOR);
    }
  }

  /** Every accepted fee has a priority of at least 10^6, despite truncation and rounding. */
  lemma AcceptedFeeHasFullPriority(fee: nat, gas: nat, gasPrice: nat)
    requires gas > 0 && gasPrice > 0
    requires CheckTxFee(gasPrice, fee, gas) == Accept
    ensures GetTxPriority(fee, gas, gasPrice).Priority?
    ensures GetTxPriority(fee, gas, gasPrice).n >= 1_000_000
  {
    AcceptedIff(gasPrice, fee, gas);
    DivLargest(fee * ONE, gas, gasPrice);
    QuoAtLeastOne(Effective(fee, gas), gasPrice);
    PriorityIsClamped(fee, gas, gasPrice);
    ClampMono(ONE * PRECISION_FACTOR, Quo(Effective(fee, gas), gasPrice) * PRECISION_FACTOR);
  }

  // ---------------------------------------------------------------- conversion

  lemma ConvertedFeeIs(pay: nat, basePrice: nat, minPrice: nat)
    requires minPrice > 0
    ensures Quo(basePrice, minPrice) >= 0 && pay * Quo(basePrice, minPrice) >= 0
    ensures ConvertFee(pay, basePrice, minPrice) == pay * Quo(basePrice, minPrice) / ONE
  {
    QuoNat(basePrice, minPrice);
    var product: nat := pay * Quo(basePrice, minPrice);
    assert pay * ONE * Quo(basePrice, minPrice) == product * ONE;
    ChopExact(product);
  }

  /** The converted fee: pay times the quotient of the two prices rounded to the nearest 18th decimal, without its fraction. */
  lemma ConvertedFeeExact(pay: nat, basePrice: nat, minPrice: nat) returns (q: nat)
    requires minPrice > 0
    ensures Rounds(basePrice * 1_000_000_000_000_000_000_000_000_000_000_000_000 / minPrice, q)
    ensures ConvertFee(pay, basePrice, minPrice) == pay * q / 1_000_000_000_000_000_000
  {
    ConvertedFeeIs(pay, basePrice, minPrice);
    q := Quo(basePrice, minPrice);
    QuoIsNearestEven(basePrice, minPrice, q);
    hide Rounds, Quo, ConvertFee;
  }

  /** The converted fee is within 1 + pay * 10^-18 of pay * base / min (both sides times min * 10^18). */
  lemma ConvertedFeeNear(pay: nat, basePrice: nat, minPrice: nat)
    requires minPrice > 0
    ensures var one := 1_000_000_000_000_000_000;
            var exact, got := pay * basePrice * one, ConvertFee(pay, basePrice, minPrice) * minPrice * one;
            exact - (one + pay) * minPrice <= got <= exact + pay * minPrice
    ensures ConvertFee(pay, basePrice, minPrice) >= 0
  {
    hide Quo, ConvertFee;
    ConvertedFeeIs(pay, basePrice, minPrice);
    QuoNear(basePrice, minPrice);
    var product: nat := pay * Quo(basePrice, minPrice);
    var got := product / ONE;
    Spread(pay, Quo(basePrice, minPrice), minPrice, basePrice);
    MulLe(got * ONE, product, minPrice);
    MulLe(product, got * ONE + ONE, minPrice);
  }

  lemma Spread(pay: nat, factor: nat, minPrice: nat, basePrice: nat)
    requires 0 - minPrice <= factor * minPrice - basePrice * ONE <= minPrice
    ensures pay * basePrice * ONE - pay * minPrice <= pay * factor * minPrice <= pay * basePrice * ONE + pay * minPrice
  {
    var slack := factor * minPrice - basePrice * ONE;
    MulBound(slack, minPrice, pay);
    assert slack * pay == pay * factor * minPrice - pay * basePrice * ONE;
    assert minPrice * pay == pay * minPrice && (0 - minPrice) * pay == 0 - pay * minPrice;
  }

  /** The priority of a fee paid in another denom; a zero price of that denom divides by zero. */
  function ConvertedPriority(pay: nat, basePrice: nat, minPrice: nat, gas: nat): Priority {
    if minPrice == 0 then PriorityPanic
    else
      var fee := ConvertFee(pay, basePrice, minPrice);
      if fee < 0 then PriorityPanic else GetTxPriority(fee, gas, basePrice)
  }

  /** The least fee in the base denom with full priority, rounded up; half a unit in the 18th place is forgiven. */
  function FullFee(basePrice: nat, gas: nat): nat {
    ((basePrice - basePrice / (2 * ONE)) * gas + ONE - 1) / ONE
  }

  lemma HalfUnit(basePrice: nat, e: nat)
    ensures 2 * ONE * (basePrice - e) <= basePrice <==> basePrice - basePrice / (2 * ONE) <= e
  {
    DivBound(basePrice, 2 * ONE);
    var q := basePrice / (2 * ONE);
    if basePrice - q <= e { assert 2 * ONE * (basePrice - e) <= 2 * ONE * q; }
    if basePrice - q > e { assert 2 * ONE * (basePrice - e) >= 2 * ONE * (q + 1); }
  }

  lemma CeilingAtMost(x: nat, n: nat)
    ensures (x + ONE - 1) / ONE <= n <==> x <= n * ONE
  {
  }

  lemma FullFeeIff(fee: nat, gas: nat, basePrice: nat)
    requires gas > 0 && basePrice > 0
    ensures GetTxPriority(fee, gas, basePrice).Priority?
    ensures GetTxPriority(fee, gas, basePrice).n >= 1_000_000 <==> FullFee(basePrice, gas) <= fee
  {
    var t := basePrice - basePrice / (2 * ONE);
    FullPriorityIff(fee, gas, basePrice);
    HalfUnit(basePrice, Effective(fee, gas));
    DivLargest(fee * ONE, gas, t);
    CeilingAtMost(t * gas, fee);
    hide GetTxPriority;
  }

  /**
   A fee in another denom has full priority exactly when pay times the rounded quotient of the
   prices reaches the least full fee.  While the base price is below 2, that is exactly when
   the converted fee would have been accepted in the base denom; it does not follow from the
   acceptance of the fee in its own denom.
   */
  lemma ConvertedFullPriorityIff(pay: nat, basePrice: nat, minPrice: nat, gas: nat)
    requires gas > 0 && basePrice > 0 && minPrice > 0
    ensures var r := ConvertedPriority(pay, basePrice, minPrice, gas);
            && r.Priority?
            && (r.n >= 1_000_000 <==> pay * Quo(basePrice, minPrice) >= FullFee(basePrice, gas) * ONE)
            && (basePrice < 2 * ONE ==>
                  (r.n >= 1_000_000 <==> CheckTxFee(basePrice, ConvertFee(pay, basePrice, minPrice), gas) == Accept))
  {
    ConvertedFeeIs(pay, basePrice, minPrice);
    var fee: nat := ConvertFee(pay, basePrice, minPrice);
    FullFeeIff(fee, gas, basePrice);
    AcceptedIff(basePrice, fee, gas);
    DivLargest(pay * Quo(basePrice, minPrice), ONE, FullFee(basePrice, gas));
    if basePrice < 2 * ONE { CeilingAtMost(basePrice * gas, fee); }
    hide GetTxPriority, Quo, ConvertFee, CheckTxFee;
  }

  /** Acceptance in the paid denom is not enough: 1 unit at prices 1 and 0.01 converts to 0 and gets priority 0. */
  lemma AcceptedConvertedFeeCanHaveNoPriority()
    ensures CheckTxFee(ONE, 1, 1) == Accept
    ensures ConvertFee(1, ONE / 100, ONE) == 0
    ensures GetTxPriority(ConvertFee(1, ONE / 100, ONE), 1, ONE / 100) == Priority(0)
  {
    AcceptedIff(ONE, 1, 1);
    assert Quo(ONE / 100, ONE) == ONE / 100;
  }
}
