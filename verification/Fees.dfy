/** The A-share fee schedule: commission with a floor, stamp duty on sells, transfer fee. */
module Fees {
  import opened Wrappers
  import opened Market
  import Totals

  datatype FeeBreakdown = FeeBreakdown(commission: NonNeg, stampDuty: NonNeg, transferFee: NonNeg) {
    function Total(): NonNeg {
      commission + stampDuty + transferFee
    }
  }

  function Max(a: real, b: real): real {
    if a < b then b else a
  }

  lemma Scale(a: real, b: real, c: real)
    requires a <= b && 0.0 <= c
    ensures a * c <= b * c
  {
  }

  lemma Cancel(a: real, x: real, y: real)
    requires 0.0 < a && a * x <= a * y
    ensures x <= y
  {
  }

  lemma MaxPlusMonotone(a: real, b: real, floor: real, x: real, y: real)
    requires a <= b && 0.0 <= x <= y
    ensures floor <= Max(a, floor) + x <= Max(b, floor) + y
  {
  }

  lemma MonotoneArithmetic(rate: real, floor: real, variable: real, small: real, large: real)
    requires 0.0 < small <= large && 0.0 <= rate && 0.0 <= variable
    ensures floor <= Max(small * rate, floor) + small * variable
    ensures Max(small * rate, floor) + small * variable <= Max(large * rate, floor) + large * variable
  {
    Scale(small, large, rate);
    Scale(small, large, variable);
    Scale(0.0, small, variable);
    MaxPlusMonotone(small * rate, large * rate, floor, small * variable, large * variable);
  }

  lemma CoverageArithmetic(rate: real, floor: real, variable: real, small: real, large: real)
    requires 0.0 < small <= large && 0.0 <= floor
    requires Max(small * rate, floor) + small * variable <= small
    ensures Max(large * rate, floor) + large * variable <= large
  {
    var slack := 1.0 - variable;
    assert small * slack == small - small * variable;
    assert large * slack == large - large * variable;
    var proportional, rest := small * rate, small * slack;
    assert proportional <= rest;
    Cancel(small, rate, slack);
    Cancel(small, 0.0, slack);
    Scale(rate, slack, large);
    Scale(small, large, slack);
  }

  datatype AshareFeeModel = AshareFeeModel(
    commissionRate: NonNeg, minimumCommission: NonNeg,
    sellStampDutyRate: NonNeg, transferFeeRate: NonNeg)
  {
    function Calculate(side: Side, notional: real): Result<FeeBreakdown, BacktestError> {
      if notional <= 0.0 then
        Err(NonPositiveNotional)
      else
        var commission := Max(notional * commissionRate, minimumCommission);
        var stamp := if side == Sell then notional * sellStampDutyRate else 0.0;
        var transfer := notional * transferFeeRate;
        Ok(FeeBreakdown(commission, stamp, transfer))
    }

    /** The fee of a positive notional. */
    function Charge(side: Side, notional: Price): (fee: NonNeg)
      ensures Calculate(side, notional).Ok? && fee == Calculate(side, notional).value.Total()
    {
      Calculate(side, notional).value.Total()
    }

    /** A larger trade never pays a smaller fee, and the commission floor is always paid. */
    lemma ChargeMonotone(side: Side, small: Price, large: Price)
      requires small <= large
      ensures minimumCommission <= Charge(side, small) <= Charge(side, large)
    {
      ChargeForm(side, small);
      ChargeForm(side, large);
      MonotoneArithmetic(commissionRate, minimumCommission, VariableRate(side), small, large);
    }

    /** Once a notional covers its own fee, every larger notional does. */
    lemma CoverageUpwardClosed(side: Side, small: Price, large: Price)
      requires small <= large
      requires Charge(side, small) <= small
      ensures Charge(side, large) <= large
    {
      ChargeForm(side, small);
      ChargeForm(side, large);
      CoverageArithmetic(commissionRate, minimumCommission, VariableRate(side), small, large);
    }

    function VariableRate(side: Side): NonNeg {
      (if side == Sell then sellStampDutyRate else 0.0) + transferFeeRate
    }

    lemma ChargeForm(side: Side, notional: Price)
      ensures Charge(side, notional)
           == Max(notional * commissionRate, minimumCommission) + notional * VariableRate(side)
    {
      Totals.Distribute(notional, if side == Sell then sellStampDutyRate else 0.0, transferFeeRate);
    }
  }
}
