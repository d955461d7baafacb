/** Fee arithmetic: basis points of an amount, rounded down, and the drift of an unbounded fee rate. */
module Fees {
  import opened Types

  /** Go's int64(bps): the upper half of the uint64 range turns negative. */
  function AsInt64(n: uint64): int {
    if n < 0x8000_0000_0000_0000 then n else n - 0x1_0000_0000_0000_0000
  }

  /** big.Int.Div is Euclidean division, as Dafny's is. */
  function CalculateFee(amount: int, bps: uint64): int {
    if bps == 0 then 0 else amount * AsInt64(bps) / 10000
  }

  function Sum(values: seq<int>): int {
    if |values| == 0 then 0 else Sum(values[..|values| - 1]) + values[|values| - 1]
  }

  function SumOfFees(values: seq<int>, bps: uint64): int {
    if |values| == 0 then 0
    else SumOfFees(values[..|values| - 1], bps) + CalculateFee(values[|values| - 1], bps)
  }

  lemma FeeOfTwo(v: int, w: int, bps: uint64)
    ensures CalculateFee(v, bps) + CalculateFee(w, bps) <= CalculateFee(v + w, bps)
         <= CalculateFee(v, bps) + CalculateFee(w, bps) + 1
  {
  }

  /** Splitting a payment into k parts never raises the fee and saves at most k - 1 wei. */
  lemma {:induction false} SplittingFees(values: seq<int>, bps: uint64)
    requires |values| >= 1
    ensures CalculateFee(Sum(values), bps) - (|values| - 1) <= SumOfFees(values, bps) <= CalculateFee(Sum(values), bps)
  {
    var k := |values| - 1;
    if k == 0 {
      assert Sum(values[..k]) == 0 && SumOfFees(values[..k], bps) == 0;
    } else {
      SplittingFees(values[..k], bps);
      FeeOfTwo(Sum(values[..k]), values[k], bps);
    }
  }

  lemma MulMonotone(a: int, b: int, c: int)
    requires a <= b && 0 <= c
    ensures a * c <= b * c
  {
  }

  /** The fee grows with the amount and with the rate, for rates that int64 does not turn negative. */
  lemma FeeIsMonotone(v: int, w: int, low: uint64, high: uint64)
    requires 0 <= v <= w
    requires low <= high < 0x8000_0000_0000_0000
    ensures 0 <= CalculateFee(v, low) <= CalculateFee(w, high)
  {
  }

  /** On whole coins the division is exact. */
  lemma FeeOnCoinsIsExact(units: int, bps: uint64)
    ensures CalculateFee(units * WEI, bps) == units * AsInt64(bps) * 100_000_000_000_000
  {
  }

  /** On whole coins splitting changes nothing. */
  lemma {:induction false} SplittingCoins(units: seq<int>, bps: uint64)
    ensures SumOfFees(seq(|units|, i requires 0 <= i < |units| => units[i] * WEI), bps)
         == CalculateFee(Sum(units) * WEI, bps)
  {
    var wei := seq(|units|, i requires 0 <= i < |units| => units[i] * WEI);
    var k := |units| - 1;
    if k >= 0 {
      var init := units[..k];
      assert wei[..k] == seq(|init|, i requires 0 <= i < |init| => init[i] * WEI);
      SplittingCoins(init, bps);
      FeeOnCoinsIsExact(Sum(init), bps);
      FeeOnCoinsIsExact(units[k], bps);
      FeeOnCoinsIsExact(Sum(units), bps);
      var b := AsInt64(bps);
      assert (Sum(init) + units[k]) * b == Sum(init) * b + units[k] * b;
    } else {
      FeeOnCoinsIsExact(0, bps);
    }
  }

  /** What one native send of whole coins adds to the GORR total: nothing for a rate of 0% to 100%. */
  function SendDrift(units: int, bps: uint64): int {
    var b := AsInt64(bps);
    if b > 10000 then units * (b - 10000) * 100_000_000_000_000
    else if b < 0 then units * (-b) * 100_000_000_000_000
    else 0
  }

  /** The credits a send makes, net to the receiver and fee to the treasury, each dropped when negative. */
  function Credited(amount: int, fee: int): int {
    (if amount - fee >= 0 then amount - fee else 0) + (if fee > 0 then fee else 0)
  }

  lemma SendDriftIsExact(units: int, bps: uint64)
    requires units >= 0
    ensures Credited(units * WEI, CalculateFee(units * WEI, bps)) == units * WEI + SendDrift(units, bps)
  {
    var b := AsInt64(bps);
    FeeOnCoinsIsExact(units, bps);
    assert units * (b - 10000) == units * b - units * 10000;
    assert units * (-b) == -(units * b);
    if b > 10000 {
      MulMonotone(0, units, b - 10000);
    } else if b < 0 {
      MulMonotone(0, units, -b);
    } else {
      MulMonotone(0, units, b);
      MulMonotone(0, units, 10000 - b);
    }
  }

  lemma SendDriftZero(units: int, bps: uint64)
    requires units >= 0
    ensures SendDrift(units, bps) == 0 <==> units == 0 || 0 <= AsInt64(bps) <= 10000
    ensures SendDrift(units, bps) >= 0
  {
  }
}
