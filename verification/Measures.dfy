/** What the figures of the lending contracts mean, in plain arithmetic: interest, collateral value and margin
    bands, each as the inequality it has to meet. The rules of the entry points are stated in these terms. */
module Measures {
  import opened Prelude
  import opened Risk

  /** `q` is `a / b` truncated toward zero. */
  predicate Truncates(a: int, b: int, q: int) {
    if a >= 0 then q >= 0 && q * b <= a < (q + 1) * b
    else q <= 0 && (q - 1) * b < a <= q * b
  }

  lemma TruncatesOnce(a: int, b: int, q: int, q': int)
    requires b > 0 && Truncates(a, b, q) && Truncates(a, b, q')
    ensures q == q'
  {
    if q < q' {
      MulMono(q + 1, q', b);
    } else if q' < q {
      MulMono(q' + 1, q, b);
    }
  }

  /** Simple interest at `rateBps` basis points a year, cut to a whole stroop. */
  predicate IsInterest(i: int, cash: int, rateBps: nat, elapsed: nat) {
    i >= 0 && i * 315_360_000_000 <= cash * rateBps * elapsed < (i + 1) * 315_360_000_000
  }

  lemma InterestOnce(i: int, i': int, cash: int, rateBps: nat, elapsed: nat)
    requires IsInterest(i, cash, rateBps, elapsed) && IsInterest(i', cash, rateBps, elapsed)
    ensures i == i'
  {
  }

  /** Cutting by the seconds of a year and then by the basis points cuts once by both. */
  lemma YearlyInterest(cash: int, rateBps: nat, elapsed: nat)
    requires cash >= 0
    ensures IsInterest(Quot(Quot(cash * rateBps * elapsed, SECONDS_PER_YEAR), BPS), cash, rateBps, elapsed)
  {
    assert cash * rateBps >= 0;
    assert cash * rateBps * elapsed >= 0;
    QuotQuot(cash * rateBps * elapsed, SECONDS_PER_YEAR, BPS);
  }

  /** `value` is what `units` are worth at `price`, in whole stroops, less the haircut, in whole stroops again. */
  ghost predicate IsValue(value: int, units: int, price: int, haircutBps: nat) {
    haircutBps <= 10_000 && exists gross :: IsNetOf(value, gross, units, price, haircutBps)
  }

  predicate IsNetOf(value: int, gross: int, units: int, price: int, haircutBps: nat)
    requires haircutBps <= 10_000
  {
    Truncates(units * price, 10_000_000, gross) && Truncates(gross * (10_000 - haircutBps), 10_000, value)
  }

  /** Collateral has a value exactly when the haircut is at most all of it, and the value is that one. */
  lemma ValueExact(units: int, price: int, haircutBps: nat)
    ensures CollateralValue(units, price, haircutBps).Done? <==> haircutBps <= 10_000
    ensures CollateralValue(units, price, haircutBps).Done? ==>
              IsValue(CollateralValue(units, price, haircutBps).value, units, price, haircutBps)
  {
    if haircutBps <= 10_000 {
      var gross := Quot(units * price, PRICE_SCALE);
      assert IsNetOf(CollateralValue(units, price, haircutBps).value, gross, units, price, haircutBps);
    }
  }

  lemma ValueOnce(value: int, value': int, units: int, price: int, haircutBps: nat)
    requires IsValue(value, units, price, haircutBps) && IsValue(value', units, price, haircutBps)
    ensures value == value'
  {
    var gross :| IsNetOf(value, gross, units, price, haircutBps);
    var gross' :| IsNetOf(value', gross', units, price, haircutBps);
    TruncatesOnce(units * price, 10_000_000, gross, gross');
    TruncatesOnce(gross * (10_000 - haircutBps), 10_000, value, value');
  }

  lemma NetFloors(value: int, gross: int, amount: int, kept: int)
    requires 0 <= kept <= 10_000 && gross >= 0 && value >= 0
    requires gross * 10_000_000 <= amount < (gross + 1) * 10_000_000
    requires value * 10_000 <= gross * kept < (value + 1) * 10_000
    ensures value * 100_000_000_000 <= amount * kept
    ensures amount * kept < (value + 1) * 100_000_000_000 + kept * 10_000_000
  {
    MulMono(gross * 10_000_000, amount, kept);
    MulMono(amount, (gross + 1) * 10_000_000, kept);
    assert gross * 10_000_000 * kept == gross * kept * 10_000_000;
    assert (gross + 1) * 10_000_000 * kept == gross * kept * 10_000_000 + kept * 10_000_000;
  }

  /** The two cuts never overvalue, and lose less than one stroop and one price step of what is kept. */
  lemma ValueBounds(value: int, units: int, price: int, haircutBps: nat)
    requires IsValue(value, units, price, haircutBps) && units >= 0 && price >= 0
    ensures value >= 0 && value * 100_000_000_000 <= units * price * (10_000 - haircutBps)
    ensures units * price * (10_000 - haircutBps) < (value + 1) * 100_000_000_000 + (10_000 - haircutBps) * 10_000_000
  {
    var gross :| IsNetOf(value, gross, units, price, haircutBps);
    MulMono(0, units, price);
    MulMono(0, gross, 10_000 - haircutBps);
    NetFloors(value, gross, units * price, 10_000 - haircutBps);
  }

  /** A debt reaches a band of `bps` of the collateral's value. */
  predicate Reaches(debt: int, value: int, bps: nat) {
    debt > 0 && debt * 10_000 >= bps * value
  }

  /** Each margin state is a pair of exact inequalities. */
  lemma JudgeExact(debt: int, value: int, t: Thresholds)
    requires t.Valid()
    ensures var state := Judge(debt, value, t);
            && (state.Liquidation? <==> Reaches(debt, value, t.liquidationBps))
            && (state.AtCall() <==> Reaches(debt, value, t.callBps))
            && (state.Healthy? <==> !Reaches(debt, value, t.warningBps))
            && (state.Warning? <==> Reaches(debt, value, t.warningBps) && !Reaches(debt, value, t.callBps))
  {
    if debt > 0 {
      LtvReaches(debt, value, t.warningBps);
      LtvReaches(debt, value, t.callBps);
      LtvReaches(debt, value, t.liquidationBps);
    }
  }

  /** Thresholds are accepted exactly when they are positive, in order and at most all of the value. */
  lemma ThresholdsExact(t: Thresholds)
    ensures t.Valid() <==> 1 <= t.warningBps && t.warningBps <= t.callBps && t.callBps <= t.liquidationBps && t.liquidationBps <= 10_000
  {
  }
}
