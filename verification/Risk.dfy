/** Collateral value, loan-to-value and the margin bands shared by every lending contract. */
module Risk {
  import opened Prelude

  datatype PriceStatus = Ok | Degraded | Halted

  /** What a price guard answers: the value to use and how far it stands behind it. */
  datatype Quote = Quote(value: int, status: PriceStatus)

  datatype MarginState = Healthy | Warning | MarginCall | Liquidation {
    /** The states that open a margin call. */
    predicate AtCall() { MarginCall? || Liquidation? }

    function Rank(): nat {
      match this case Healthy => 0 case Warning => 1 case MarginCall => 2 case Liquidation => 3
    }
  }

  datatype Thresholds = Thresholds(warningBps: nat, callBps: nat, liquidationBps: nat) {
    predicate Valid() {
      0 < warningBps <= callBps <= liquidationBps <= 10_000
    }
  }

  /** `units * price * (1 - haircut)`, rounded down twice; a haircut above 100% panics. */
  function CollateralValue(units: int, price: int, haircutBps: nat): Result<int> {
    if haircutBps > BPS then Revert else
    Done(Quot(Quot(units * price, PRICE_SCALE) * (BPS - haircutBps), BPS))
  }

  function LtvBps(debt: int, collateral: int): nat {
    if debt <= 0 then 0
    else if collateral <= 0 then U32_MAX
    else Min(Quot(debt * BPS, collateral), U32_MAX)
  }

  function Classify(ltv: nat, t: Thresholds): MarginState {
    if ltv >= t.liquidationBps then Liquidation
    else if ltv >= t.callBps then MarginCall
    else if ltv >= t.warningBps then Warning
    else Healthy
  }

  /** The margin state of a debt against a collateral value. */
  function Judge(debt: int, collateral: int, t: Thresholds): MarginState {
    Classify(LtvBps(debt, collateral), t)
  }

  /** Reaching a band of `b` basis points is the exact inequality `debt * 10000 >= b * collateral`:
      neither the rounding of the ratio nor its 32-bit clamp moves a position across a threshold. */
  lemma LtvReaches(debt: int, collateral: int, b: nat)
    requires debt > 0 && 0 < b <= 10_000
    ensures LtvBps(debt, collateral) >= b <==> debt * BPS >= b * collateral
  {
    if collateral > 0 {
      QuotAtLeast(debt * BPS, collateral, b);
    } else {
      assert b * collateral <= 0;
    }
  }

  /** A position is healthy exactly when nothing is owed or the debt is strictly below the warning
      fraction of a positive collateral value. */
  lemma HealthyExactly(debt: int, collateral: int, t: Thresholds)
    requires t.Valid()
    ensures Judge(debt, collateral, t).Healthy? <==>
            debt <= 0 || (collateral > 0 && debt * BPS < t.warningBps * collateral)
  {
    if debt > 0 && collateral > 0 {
      LtvReaches(debt, collateral, t.warningBps);
    }
  }

  /** The collateral a margin call aims for: with this much the position sits on the threshold. */
  function CallTarget(exposure: int, t: Thresholds): int
    requires t.callBps > 0
  {
    Quot(exposure * BPS, t.callBps)
  }

  /** A call is open exactly up to and including the target. */
  lemma CallOpenUpToTarget(exposure: int, collateral: int, t: Thresholds)
    requires exposure > 0 && t.Valid()
    ensures Judge(exposure, collateral, t).AtCall() <==> collateral <= CallTarget(exposure, t)
  {
    LtvReaches(exposure, collateral, t.callBps);
    QuotAtLeast(exposure * BPS, t.callBps, collateral);
    assert t.callBps * collateral == collateral * t.callBps;
  }

  /** More collateral never worsens the margin state. */
  lemma MoreCollateralNeverWorse(debt: int, c: int, c': int, t: Thresholds)
    requires c <= c' && t.Valid()
    ensures Judge(debt, c', t).Rank() <= Judge(debt, c, t).Rank()
  {
    ReachesLessOften(debt, c, c', t.liquidationBps);
    ReachesLessOften(debt, c, c', t.callBps);
    ReachesLessOften(debt, c, c', t.warningBps);
  }

  lemma ReachesLessOften(debt: int, c: int, c': int, b: nat)
    requires c <= c' && 0 < b <= 10_000
    ensures LtvBps(debt, c') >= b ==> LtvBps(debt, c) >= b
  {
    if debt > 0 {
      assert b * c <= b * c';
      LtvReaches(debt, c, b);
      LtvReaches(debt, c', b);
    }
  }

  /** More units never lower the collateral value at a non-negative price. */
  lemma MoreUnitsWorthMore(units: int, units': int, price: int, haircutBps: nat)
    requires 0 <= units <= units' && price >= 0 && haircutBps <= BPS
    ensures CollateralValue(units, price, haircutBps).value <= CollateralValue(units', price, haircutBps).value
  {
    MulMono(units, units', price);
    QuotMono(units * price, units' * price, PRICE_SCALE);
    var g, g' := Quot(units * price, PRICE_SCALE), Quot(units' * price, PRICE_SCALE);
    MulMono(g, g', BPS - haircutBps);
    QuotMono(g * (BPS - haircutBps), g' * (BPS - haircutBps), BPS);
  }

  lemma QuotMono(a: int, b: int, c: int)
    requires 0 <= a <= b && c > 0
    ensures Quot(a, c) <= Quot(b, c)
  {
    QuotAtLeast(b, c, Quot(a, c));
  }
}
