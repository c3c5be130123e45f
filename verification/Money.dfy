/** Conversion between USD and Rwandan francs (src/common/money/money-format.util.ts). */
module Money {
  import opened Prelude

  function UsdToRwf(amountUsd: real, rate: real): int {
    Round(amountUsd * rate)
  }

  /** USD with two decimals; a rate that is not positive converts to 0. */
  function RwfToUsd(amountRwf: real, rate: real): real {
    if rate <= 0.0 then 0.0 else Round(amountRwf / rate * 100.0) as real / 100.0
  }

  /** A whole number of cents, as an amount in USD. */
  function Cents(c: int): real {
    c as real / 100.0
  }

  function ThereAndBack(c: int, rate: real): real {
    RwfToUsd(UsdToRwf(Cents(c), rate) as real, rate)
  }

  // ----- exact recovery -----

  lemma {:induction false} DivMul(a: real, b: real)
    requires b > 0.0
    ensures a / b * b == a
  {
  }

  /** Rounding an amount that is within a half of the integer c, strictly, gives c. */
  lemma {:induction false} RoundToNearest(x: real, c: int)
    requires -0.5 < x - c as real < 0.5
    ensures Round(x) == c
  {
    RoundIsNear(x);
  }

  lemma {:induction false} RecoveredFromHundredUp(c: int, rate: real)
    requires rate >= 100.0
    ensures ThereAndBack(c, rate) == Cents(c)
  {
    var exact := Cents(c) * rate;
    RoundIsNear(exact);
    if rate == 100.0 {
      RoundToNearest(exact, c);
    }
    ConvertsBack(Round(exact) as real, rate, c, Round(exact) as real - exact);
  }

  lemma {:induction false} ConvertsBack(rwf: real, rate: real, c: int, e: real)
    requires rate >= 100.0 && rwf == Cents(c) * rate + e
    requires -0.5 < e <= 0.5 && (rate == 100.0 ==> e == 0.0)
    ensures RwfToUsd(rwf, rate) == Cents(c)
  {
    QuotientIsNear(rwf, rate, c, e);
    RoundToNearest(rwf / rate * 100.0, c);
  }

  lemma {:induction false} QuotientIsNear(rwf: real, rate: real, c: int, e: real)
    requires rate >= 100.0 && rwf == Cents(c) * rate + e
    requires -0.5 < e <= 0.5 && (rate == 100.0 ==> e == 0.0)
    ensures -0.5 < rwf / rate * 100.0 - c as real < 0.5
  {
    var d := e * 100.0 / rate;
    DivMul(e * 100.0, rate);
    assert d * rate == e * 100.0;
    Shrinks(d, rate, e);
    DivMul(rwf, rate);
    assert (rwf / rate * 100.0 - c as real) * rate == e * 100.0;
    Cancel(rwf / rate * 100.0 - c as real, d, rate);
  }

  lemma {:induction false} Cancel(a: real, b: real, k: real)
    requires k > 0.0 && a * k == b * k
    ensures a == b
  {
    assert (a - b) * k == 0.0;
  }

  lemma {:induction false} Shrinks(d: real, rate: real, e: real)
    requires rate >= 100.0 && -0.5 < e <= 0.5 && (rate == 100.0 ==> e == 0.0) && d * rate == e * 100.0
    ensures -0.5 < d < 0.5
  {
    assert d >= 0.5 ==> d * rate >= 0.5 * rate;
    assert d <= -0.5 ==> (-d) * rate >= 0.5 * rate;
  }

  /** Below 100 francs a dollar a franc is worth more than a cent, so recovering every amount
      up to c would need at least c francs where there are fewer. */
  lemma {:induction false} RecoveryNeedsAsManyFrancs(c: nat, rate: real)
    requires rate > 0.0
    requires forall k: int :: ThereAndBack(k, rate) == Cents(k)
    ensures UsdToRwf(Cents(c), rate) >= c
  {
    if c == 0 {
      assert Cents(0) * rate == 0.0;
    } else {
      RecoveryNeedsAsManyFrancs(c - 1, rate);
      var below, here := UsdToRwf(Cents(c - 1), rate), UsdToRwf(Cents(c), rate);
      assert Cents(c - 1) * rate <= Cents(c) * rate;
      assert below <= here;
      assert Cents(c - 1) != Cents(c);
      assert ThereAndBack(c - 1, rate) == Cents(c - 1) && ThereAndBack(c, rate) == Cents(c);
      assert below != here;
    }
  }

  lemma {:induction false} NotRecoveredBelowHundred(rate: real)
    requires rate < 100.0
    ensures exists c: int :: ThereAndBack(c, rate) != Cents(c)
  {
    if rate <= 0.0 {
      assert ThereAndBack(1, rate) != Cents(1);
    } else {
      var c := FrancsRunOut(rate);
      if forall k: int :: ThereAndBack(k, rate) == Cents(k) {
        RecoveryNeedsAsManyFrancs(c, rate);
      }
    }
  }

  lemma {:induction false} FrancsRunOut(rate: real) returns (c: nat)
    requires 0.0 < rate < 100.0
    ensures UsdToRwf(Cents(c), rate) < c
  {
    var gap := 1.0 - rate / 100.0;
    DivMul(1.0, gap);
    c := (1.0 / gap).Floor + 1;
    assert c as real * gap >= 1.0 / gap * gap;
    assert Cents(c) * rate == c as real - c as real * gap;
    RoundIsNear(Cents(c) * rate);
  }

  /** Every whole-cent amount survives the trip to francs and back exactly when the rate is
      at least 100. */
  lemma {:induction false} CentsRecoveredIff(rate: real)
    ensures (forall c: int :: ThereAndBack(c, rate) == Cents(c)) <==> rate >= 100.0
  {
    if rate >= 100.0 {
      forall c: int ensures ThereAndBack(c, rate) == Cents(c) {
        RecoveredFromHundredUp(c, rate);
      }
    } else {
      NotRecoveredBelowHundred(rate);
    }
  }

  /** The other direction loses at most half a cent's worth of francs plus half a franc. */
  lemma {:induction false} FrancDrift(amount: real, rate: real)
    requires rate > 0.0
    ensures var back := UsdToRwf(RwfToUsd(amount, rate), rate) as real;
      amount - 0.005 * rate - 0.5 <= back <= amount + 0.005 * rate + 0.5
  {
    var usd := RwfToUsd(amount, rate);
    RoundIsNear(amount / rate * 100.0);
    var d := usd - amount / rate;
    Distribute(amount / rate, d, rate);
    DivMul(amount, rate);
    ScaledBound(d, rate);
    RoundedDrift(usd * rate, amount, d * rate, 0.005 * rate);
  }

  lemma {:induction false} RoundedDrift(x: real, amount: real, p: real, bound: real)
    requires x == amount + p && -bound <= p <= bound
    ensures amount - bound - 0.5 <= Round(x) as real <= amount + bound + 0.5
  {
    RoundIsNear(x);
  }

  lemma {:induction false} Distribute(a: real, b: real, k: real)
    ensures (a + b) * k == a * k + b * k
  {
  }

  lemma {:induction false} ScaledBound(d: real, rate: real)
    requires rate > 0.0 && -0.005 <= d <= 0.005
    ensures -(0.005 * rate) <= d * rate <= 0.005 * rate
  {
    assert (0.005 - d) * rate >= 0.0 && (d + 0.005) * rate >= 0.0;
  }
}
