/**
 The fee offered for a transaction (gasprice/gasprice.go:51-92) and the gas limit it is
 priced for (internal/chain/gasfee.go:43-69). The arithmetic is on int64 itself: where a
 plain operator is used, verifying the body shows that the step does not overflow; the
 steps that may wrap are written with WrapAdd, WrapSub and Wrap64.
 */
module GasPrice {
  import opened Prelude

  /** amount ugnot buy gas units of gas. */
  datatype Price = Price(gas: int64, amount: int64, denom: string)

  datatype PriceError = NonPositiveGas | NonPositiveMargin | ForeignDenomination

  predicate HasPrice(p: Price) { p.gas > 0 && p.amount > 0 }

  /** The first overflow guard, as the source tests it. */
  predicate CeilingOverflows(p: Price, gasWanted: int64)
    requires HasPrice(p) && gasWanted > 0
  {
    p.amount > (MAX_INT64 - (p.gas - 1)) / gasWanted
  }

  /** ceil(gasWanted * amount / gas) over the integers. */
  function MinFee(p: Price, gasWanted: int): int
    requires HasPrice(p)
  {
    (gasWanted * p.amount as int + p.gas as int - 1) / p.gas as int
  }

  lemma GuardIsExact(p: Price, gasWanted: int64)
    requires HasPrice(p) && gasWanted > 0
    ensures CeilingOverflows(p, gasWanted) <==>
            gasWanted as int * p.amount as int + p.gas as int - 1 > MAX_INT64 as int
  {
    DivisionBound(MAX_INT64 as int - (p.gas as int - 1), gasWanted as int, p.amount as int);
  }

  lemma DivisionBound(room: int, d: int, a: int)
    requires room >= 0 && d > 0
    ensures a <= room / d <==> d * a <= room
  {
    var q := room / d;
    assert room == d * q + room % d;
    if a <= q {
      assert d * a <= d * q;
    } else {
      assert d * a >= d * (q + 1) == d * q + d;
    }
  }

  /** A fallback to the floor because the int64 arithmetic would overflow. */
  predicate FallsBack(p: Price, gasWanted: int64, marginNum: int64)
    requires HasPrice(p) && gasWanted > 0 && marginNum > 0
  {
    CeilingOverflows(p, gasWanted) || MinFee(p, gasWanted as int) > MAX_INT64 as int / marginNum as int
  }

  function WrapAdd(a: int64, b: int64): int64 { Wrap64(a as int + b as int) }

  function WrapSub(a: int64, b: int64): int64 { Wrap64(a as int - b as int) }

  /** The one step that may leave int64 is undone by the next. */
  lemma CeilingSumWrapsBack(product: int, gas: int64)
    requires product >= 0 && gas > 0 && product + gas as int - 1 <= MAX_INT64 as int
    ensures WrapSub(WrapAdd(product as int64, gas), 1) as int == product + gas as int - 1
    ensures WrapAdd(product as int64, gas) as int != product + gas as int <==> product + gas as int - 1 == MAX_INT64 as int
  {
  }

  /**
   The guards do not keep every step in range: at this price the sum before the minus one
   is one past the largest int64. The fee is still the exact one.
   */
  lemma CeilingSumCanOverflow()
    ensures var p := Price(1, MAX_INT64, "ugnot");
            && !CeilingOverflows(p, 1)
            && (1 * p.amount as int) + p.gas as int > MAX_INT64 as int
            && Compute(p, 1, 0, 1, 1) == Ok(MAX_INT64)
  {
    assert MinFee(Price(1, MAX_INT64, "ugnot"), 1) == MAX_INT64 as int;
  }

  /** The unmargined fee, computed on int64. */
  function Ceiling(p: Price, gasWanted: int64): (minFee: int64)
    requires HasPrice(p) && gasWanted > 0 && !CeilingOverflows(p, gasWanted)
    ensures minFee as int == MinFee(p, gasWanted as int) >= 0
  {
    GuardIsExact(p, gasWanted);
    ProductNonnegative(gasWanted as int, p.amount as int);
    CeilingSumWrapsBack(gasWanted as int * p.amount as int, p.gas);
    QuotientBetween(gasWanted as int * p.amount as int + p.gas as int - 1, p.gas as int);
    WrapSub(WrapAdd(gasWanted * p.amount, p.gas), 1) / p.gas
  }

  function WithMargin(minFee: int64, num: int64, den: int64): (fee: int64)
    requires minFee >= 0 && num > 0 && den > 0 && minFee <= MAX_INT64 / num
    ensures fee as int == minFee as int * num as int / den as int
  {
    DivisionBound(MAX_INT64 as int, num as int, minFee as int);
    ProductNonnegative(minFee as int, num as int);
    QuotientBetween(minFee as int * num as int, den as int);
    minFee * num / den
  }

  function Compute(p: Price, gasWanted: int64, floor: int64, marginNum: int64, marginDen: int64): (r: Result<int64, PriceError>)
    ensures r.Err? <==> gasWanted <= 0 || marginNum <= 0 || marginDen <= 0
                        || (HasPrice(p) && p.denom != "ugnot")
    ensures r.Ok? ==> r.value >= floor
    ensures r.Ok? && (!HasPrice(p) || FallsBack(p, gasWanted, marginNum)) ==> r.value == floor
    ensures r.Ok? && HasPrice(p) && !FallsBack(p, gasWanted, marginNum) ==>
              r.value as int == Max(floor as int, MinFee(p, gasWanted as int) * marginNum as int / marginDen as int)
  {
    if gasWanted <= 0 then Err(NonPositiveGas)
    else if marginNum <= 0 || marginDen <= 0 then Err(NonPositiveMargin)
    else if p.gas <= 0 || p.amount <= 0 then Ok(floor)
    else if p.denom != "ugnot" then Err(ForeignDenomination)
    else if CeilingOverflows(p, gasWanted) then Ok(floor)
    else
      var minFee := Ceiling(p, gasWanted);
      if minFee > MAX_INT64 / marginNum then Ok(floor)
      else
        var withMargin := WithMargin(minFee, marginNum, marginDen);
        if withMargin < floor then Ok(floor) else Ok(withMargin)
  }

  lemma ProductNonnegative(a: int, b: int)
    requires a >= 0 && b >= 0
    ensures a * b >= 0
  {
  }

  lemma ProductMonotone(a: int, b: int, c: int)
    requires a <= b && c >= 0
    ensures a * c <= b * c
  {
  }

  lemma QuotientBetween(x: int, d: int)
    requires x >= 0 && d > 0
    ensures 0 <= x / d <= x
  {
    DivisionBound(x, d, 0);
    DivisionBound(x, d, x + 1);
    ProductMonotone(1, d, x + 1);
  }

  /** The unmargined fee is the least integer the chain's check accepts for the gas reserved. */
  lemma MinFeeIsLeast(p: Price, gasWanted: int, fee: int)
    requires HasPrice(p) && gasWanted > 0
    ensures fee * p.gas as int >= gasWanted * p.amount as int <==> fee >= MinFee(p, gasWanted)
  {
    var g, x := p.gas as int, gasWanted * p.amount as int;
    var q := (x + g - 1) / g;
    assert x + g - 1 == g * q + (x + g - 1) % g;
    if fee >= q {
      assert fee * g >= q * g;
    } else {
      assert fee * g <= (q - 1) * g == q * g - g;
    }
  }

  lemma MarginKeepsMinimum(minFee: int, num: int, den: int)
    requires minFee >= 0 && num >= den > 0
    ensures minFee * num / den >= minFee
  {
    assert minFee * num >= minFee * den;
    DivisionBound(minFee * num, den, minFee);
    ProductNonnegative(minFee, num);
  }

  /**
   The offered fee passes the chain's check fee/gasWanted >= amount/gas exactly when no
   overflow fallback was taken, or the floor happens to cover the price by itself.
   */
  lemma FeeMeetsChainMinimumIff(p: Price, gasWanted: int64, floor: int64, num: int64, den: int64)
    requires HasPrice(p) && p.denom == "ugnot" && gasWanted > 0 && num >= den > 0
    ensures Compute(p, gasWanted, floor, num, den).value as int * p.gas as int >= gasWanted as int * p.amount as int
            <==> !FallsBack(p, gasWanted, num) || floor as int >= MinFee(p, gasWanted as int)
  {
    var fee := Compute(p, gasWanted, floor, num, den).value;
    MinFeeIsLeast(p, gasWanted as int, fee as int);
    if !FallsBack(p, gasWanted, num) {
      ProductNonnegative(gasWanted as int, p.amount as int);
      var m := MinFee(p, gasWanted as int);
      assert m >= 0;
      MarginKeepsMinimum(m, num as int, den as int);
    }
  }

  /** A price no real chain reports: the floor is offered and the chain would refuse it. */
  lemma FallbackCanUnderpay()
    ensures var p := Price(1, MAX_INT64, "ugnot");
            && Compute(p, 10_000_000, 10_000, 2, 1) == Ok(10_000)
            && 10_000 * p.gas as int < 10_000_000 * p.amount as int
  {
  }

  lemma MinFeeMonotone(p: Price, w1: int, w2: int)
    requires HasPrice(p) && 0 < w1 <= w2
    ensures 0 <= MinFee(p, w1) <= MinFee(p, w2)
  {
    MinFeeIsLeast(p, w1, MinFee(p, w2));
    MinFeeIsLeast(p, w2, MinFee(p, w2));
    ProductMonotone(w1, w2, p.amount as int);
    ProductNonnegative(w1, p.amount as int);
  }

  lemma FallbackMonotone(p: Price, w1: int64, w2: int64, num: int64)
    requires HasPrice(p) && 0 < w1 <= w2 && num > 0 && FallsBack(p, w1, num)
    ensures FallsBack(p, w2, num)
  {
    GuardIsExact(p, w1);
    GuardIsExact(p, w2);
    MinFeeMonotone(p, w1 as int, w2 as int);
    ProductMonotone(w1 as int, w2 as int, p.amount as int);
  }

  lemma QuotientMonotone(x: int, y: int, d: int)
    requires 0 <= x <= y && d > 0
    ensures x / d <= y / d
  {
    DivisionBound(x, d, x / d);
    DivisionBound(y, d, x / d);
  }

  lemma MarginMonotone(m1: int, m2: int, num: int, den: int)
    requires 0 <= m1 <= m2 && num > 0 && den > 0
    ensures m1 * num / den <= m2 * num / den
  {
    ProductNonnegative(m1, num);
    ProductMonotone(m1, m2, num);
    QuotientMonotone(m1 * num, m2 * num, den);
  }

  /** More gas never costs less, except where the larger limit alone falls back to a floor that undercuts the other. */
  lemma FeeMonotoneIff(p: Price, w1: int64, w2: int64, floor: int64, num: int64, den: int64)
    requires (HasPrice(p) ==> p.denom == "ugnot") && 0 < w1 <= w2 && num > 0 && den > 0
    ensures var (f1, f2) := (Compute(p, w1, floor, num, den).value, Compute(p, w2, floor, num, den).value);
            f1 <= f2 <==>
            !(HasPrice(p) && FallsBack(p, w2, num) && !FallsBack(p, w1, num)
              && MinFee(p, w1 as int) * num as int / den as int > floor as int)
  {
    if HasPrice(p) {
      MinFeeMonotone(p, w1 as int, w2 as int);
      if FallsBack(p, w1, num) {
        FallbackMonotone(p, w1, w2, num);
      }
      MarginMonotone(MinFee(p, w1 as int), MinFee(p, w2 as int), num as int, den as int);
    }
  }

  /** Raising the gas can lower the fee: here one unit more falls back to the floor. */
  lemma MoreGasCanCostLess()
    ensures var p := Price(1, 461_168_601_842_738, "ugnot");
            && Compute(p, 10_000, 10, 2, 1) == Ok(9_223_372_036_854_760_000)
            && Compute(p, 10_001, 10, 2, 1) == Ok(10)
  {
    var p := Price(1, 461_168_601_842_738, "ugnot");
    assert MinFee(p, 10_000) == 4_611_686_018_427_380_000;
    assert MinFee(p, 10_001) == 4_612_147_187_029_222_738;
  }

  // ---- The gas limit a measured transaction is sent with

  const DEFAULT_GAS_WANTED: int64 := 10_000_000
  const GAS_ESTIMATE_CEILING: int64 := 1_000_000_000
  const DEFAULT_GAS_FEE_UGNOT: int64 := DEFAULT_GAS_WANTED / 1000

  /** Go's division by two, which truncates toward zero. */
  function Halved(x: int64): int64 {
    if x >= 0 then x / 2 else if x == -0x8000_0000_0000_0000 then -0x4000_0000_0000_0000 else -((-x) / 2)
  }

  /** For every int64 the result is a usable limit; for a real measurement it covers it. */
  function GasWantedFor(measured: int64): (want: int64)
    ensures DEFAULT_GAS_WANTED <= want <= GAS_ESTIMATE_CEILING
    ensures 0 <= measured <= GAS_ESTIMATE_CEILING ==> measured <= want
  {
    var want := Halved(Wrap64(measured as int * 3));
    if want < DEFAULT_GAS_WANTED then DEFAULT_GAS_WANTED
    else if want > GAS_ESTIMATE_CEILING then GAS_ESTIMATE_CEILING
    else want
  }

  lemma GasWantedMonotone(m1: int64, m2: int64)
    requires 0 <= m1 <= m2 <= GAS_ESTIMATE_CEILING
    ensures GasWantedFor(m1) <= GasWantedFor(m2)
  {
  }

  /** The fee a broadcast offers at a chain price. */
  function CurrentGasFee(p: Price, gasWanted: int64): Result<int64, PriceError> {
    Compute(p, gasWanted, DEFAULT_GAS_FEE_UGNOT, 2, 1)
  }

  /**
   Outside the overflow fallbacks, the fee priced for a measured transaction passes the
   chain's check for the gas it reserves, and never falls as the measurement grows.
   */
  lemma FeeForMeasuredGas(p: Price, m1: int64, m2: int64)
    requires HasPrice(p) && p.denom == "ugnot" && 0 <= m1 <= m2 <= GAS_ESTIMATE_CEILING
    ensures !FallsBack(p, GasWantedFor(m2), 2) ==>
              var (f1, f2) := (CurrentGasFee(p, GasWantedFor(m1)).value, CurrentGasFee(p, GasWantedFor(m2)).value);
              && DEFAULT_GAS_FEE_UGNOT <= f1 <= f2
              && f1 as int * p.gas as int >= GasWantedFor(m1) as int * p.amount as int
  {
    GasWantedMonotone(m1, m2);
    var (w1, w2) := (GasWantedFor(m1), GasWantedFor(m2));
    FeeMonotoneIff(p, w1, w2, DEFAULT_GAS_FEE_UGNOT, 2, 1);
    FeeMeetsChainMinimumIff(p, w1, DEFAULT_GAS_FEE_UGNOT, 2, 1);
    if FallsBack(p, w1, 2) {
      FallbackMonotone(p, w1, w2, 2);
    }
  }

  // ---- In plain terms

  lemma LeastIsMinFee(p: Price, gasWanted: int, m: int)
    requires p.gas > 0 && p.amount > 0 && gasWanted > 0
    requires (m - 1) * p.gas as int < gasWanted * p.amount as int <= m * p.gas as int
    ensures m == MinFee(p, gasWanted)
  {
    MinFeeIsLeast(p, gasWanted, m);
    MinFeeIsLeast(p, gasWanted, m - 1);
  }

  /**
   With a price of at least one ugnot for some gas: m is the least fee at it, and the offer
   is m with the margin, no less than the floor, or the floor where int64 cannot hold the
   steps. Without such a price it is the floor.
   */
  lemma OfferIs(p: Price, gasWanted: int64, floor: int64, num: int64, den: int64, m: int)
    requires gasWanted > 0 && num > 0 && den > 0 && p.denom == "ugnot"
    ensures p.gas <= 0 || p.amount <= 0 ==> Compute(p, gasWanted, floor, num, den) == Ok(floor)
    ensures p.gas >= 1 && p.amount >= 1
            && (m - 1) * p.gas as int < gasWanted as int * p.amount as int <= m * p.gas as int ==>
              var fits := gasWanted as int * p.amount as int + p.gas as int - 1 <= 0x7fff_ffff_ffff_ffff && m <= 0x7fff_ffff_ffff_ffff / num as int;
              var fee := Compute(p, gasWanted, floor, num, den);
              && fee.Ok?
              && (!fits ==> fee.value == floor)
              && (fits ==> fee.value as int == if m * num as int / den as int < floor as int then floor as int else m * num as int / den as int)
  {
    if p.gas >= 1 && p.amount >= 1 && (m - 1) * p.gas as int < gasWanted as int * p.amount as int <= m * p.gas as int {
      LeastIsMinFee(p, gasWanted as int, m);
      GuardIsExact(p, gasWanted);
    }
  }

  /** Which error, and when. */
  lemma ComputeErrorsAre(p: Price, gasWanted: int64, floor: int64, num: int64, den: int64)
    ensures var r := Compute(p, gasWanted, floor, num, den);
            && (r == Err(NonPositiveGas) <==> gasWanted <= 0)
            && (r == Err(NonPositiveMargin) <==> gasWanted > 0 && (num <= 0 || den <= 0))
            && (r == Err(ForeignDenomination) <==> gasWanted > 0 && num > 0 && den > 0 && p.gas >= 1 && p.amount >= 1 && p.denom != "ugnot")
  {
  }

  /** Half as much again as was measured, rounded down, between ten million and a billion. */
  lemma GasWantedIs(measured: int64)
    requires 0 <= measured <= 1_000_000_000
    ensures var (want, half) := (GasWantedFor(measured) as int, measured as int + measured as int / 2);
            want == if half < 10_000_000 then 10_000_000 else if half > 1_000_000_000 then 1_000_000_000 else half
  {
  }

  /** The offer for a transaction: a doubled margin and a floor of 10,000 ugnot. */
  lemma CurrentGasFeeIs(p: Price, gasWanted: int64)
    ensures CurrentGasFee(p, gasWanted) == Compute(p, gasWanted, 10_000, 2, 1)
  {
  }
}
