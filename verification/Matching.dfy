/** The two open matchers: the cost-free baseline and the rule-aware A-share matcher. */
module Matching {
  import opened Wrappers
  import opened Market
  import opened Orders
  import opened Fees

  datatype MatchInput = MatchInput(
    order: BacktestOrder, bar: DailyBar, occurredAt: Time, fillId: Uuid,
    maximum: Option<int>, cash: Option<real>, status: Option<SecurityStatus>)

  type MatchOutcome = Result<Option<Fill>, BacktestError>
  type Matcher = MatchInput -> MatchOutcome

  lemma WorthMonotone(price: real, dearer: real, small: int, large: int)
    requires 0.0 <= price <= dearer && 0 <= small <= large
    ensures Worth(price, small) <= Worth(dearer, large)
  {
    Scale(price, dearer, small as real);
    Scale(small as real, large as real, dearer);
  }

  /** The rounded-down quotient of an amount and a price bounds exactly what the amount buys. */
  lemma FloorOfQuotient(amount: real, price: Price, quantity: int)
    ensures quantity <= (amount / price).Floor <==> Worth(price, quantity) <= amount
  {
    var quotient := amount / price;
    assert quotient * price == amount;
    if quantity as real <= quotient {
      Scale(quantity as real, quotient, price);
    } else if price * quantity as real <= amount {
      assert price * quotient == amount;
      Cancel(price, quantity as real, quotient);
    }
  }

  function NextOpenMatch(i: MatchInput): MatchOutcome {
    if i.bar.symbol != i.order.symbol then Err(SymbolMismatch)
    else if i.occurredAt <= i.order.submittedAt then Err(NotAfterSubmission)
    else if i.maximum.Some? && i.maximum.value < 0 then Err(NegativeMaximum)
    else
      var quantity := Least(i.order.Remaining(), i.maximum);
      if quantity == 0 then Ok(None)
      else Ok(Some(Fill(i.fillId, i.order.orderId, i.order.symbol, i.order.side,
                        quantity, i.bar.open, 0.0, i.occurredAt)))
  }

  function Least(quantity: int, maximum: Option<int>): int {
    if maximum.Some? && maximum.value < quantity then maximum.value else quantity
  }

  /** The baseline fills the greatest size within the order and the maximum, at the open and without a fee,
      and nothing exactly when no size is. */
  lemma NextOpenFill(i: MatchInput)
    requires i.bar.symbol == i.order.symbol && i.order.submittedAt < i.occurredAt
    requires i.maximum.Some? ==> 0 <= i.maximum.value
    ensures NextOpenMatch(i).Ok?
    ensures NextOpenMatch(i).value.None? <==>
      i.order.filled == i.order.quantity || (i.maximum.Some? && i.maximum.value == 0)
    ensures NextOpenMatch(i).value.Some? ==>
      var fill := NextOpenMatch(i).value.value;
      && i.order.filled + fill.quantity <= i.order.quantity
      && (i.maximum.Some? ==> fill.quantity <= i.maximum.value)
      && (i.order.filled + fill.quantity == i.order.quantity || (i.maximum.Some? && fill.quantity == i.maximum.value))
      && fill.price == i.bar.open && fill.fee == 0.0 && fill.occurredAt == i.occurredAt
      && fill.symbol == i.order.symbol && fill.side == i.order.side
      && fill.fillId == i.fillId && fill.orderId == i.order.orderId
  {
  }

  /** It refuses another symbol's bar, a time no later than the submission and a negative maximum, in this order. */
  lemma NextOpenRefuses(i: MatchInput)
    ensures NextOpenMatch(i) == Err(SymbolMismatch) <==> i.bar.symbol != i.order.symbol
    ensures NextOpenMatch(i) == Err(NotAfterSubmission) <==>
      i.bar.symbol == i.order.symbol && !(i.order.submittedAt < i.occurredAt)
    ensures NextOpenMatch(i) == Err(NegativeMaximum) <==>
      && i.bar.symbol == i.order.symbol && i.order.submittedAt < i.occurredAt
      && i.maximum.Some? && i.maximum.value < 0
  {
  }

  datatype RuleFields = RuleFields(
    lotSize: Pos, maxVolumeParticipation: real, slippageBps: NonNeg, requireSecurityStatus: bool)

  type AshareExecutionRules = r: RuleFields | 0.0 < r.maxVolumeParticipation <= 1.0
    witness RuleFields(100, 0.1, 5.0, true)

  lemma VolumeCapNonNeg(volume: NonNeg, participation: real)
    requires 0.0 < participation
    ensures 0 <= (volume * participation).Floor
  {
    Scale(0.0, volume, participation);
  }

  lemma WholeLots(quantity: int, lot: Pos)
    ensures quantity / lot * lot <= quantity
    ensures (quantity / lot * lot) % lot == 0
    ensures 0 <= quantity ==> 0 <= quantity / lot * lot
  {
    var lots := quantity / lot;
    assert lots * lot + quantity % lot == quantity;
    MultipleHasNoRemainder(lots, lot);
    if 0 <= quantity {
      QuotientMonotone(0, quantity, lot);
      ProductMonotone(0, lots, lot);
    }
  }

  lemma MultipleHasNoRemainder(lots: int, lot: Pos)
    ensures (lots * lot) % lot == 0 && lots * lot / lot == lots
  {
    var product := lots * lot;
    assert product == product / lot * lot + product % lot;
    var rest := product % lot;
    assert (lots - product / lot) * lot == rest;
    if 1 <= lots - product / lot {
      ProductMonotone(1, lots - product / lot, lot);
    } else if lots - product / lot <= -1 {
      ProductMonotone(lots - product / lot, -1, lot);
    }
  }

  lemma ProductMonotone(a: int, b: int, lot: Pos)
    requires a <= b
    ensures a * lot <= b * lot
  {
  }

  lemma QuotientMonotone(a: int, b: int, lot: Pos)
    requires a <= b
    ensures a / lot <= b / lot
  {
    if b / lot < a / lot {
      ProductMonotone(b / lot + 1, a / lot, lot);
    }
  }

  /** No multiple of the lot lies between `quantity` rounded down and `quantity`. */
  lemma WholeLotsGreatest(quantity: int, candidate: int, lot: Pos)
    requires candidate % lot == 0 && candidate <= quantity
    ensures candidate <= quantity / lot * lot
  {
    QuotientMonotone(candidate, quantity, lot);
    ProductMonotone(candidate / lot, quantity / lot, lot);
  }

  lemma LotsBelow(quantity: int, candidate: int, lot: Pos)
    requires candidate % lot == 0
    ensures candidate <= quantity <==> candidate <= quantity / lot * lot
  {
    WholeLots(quantity, lot);
    if candidate <= quantity {
      WholeLotsGreatest(quantity, candidate, lot);
    }
  }

  lemma FloorBound(x: real, q: int)
    ensures q <= x.Floor <==> q as real <= x
  {
  }

  lemma NextMultipleDown(candidate: int, quantity: int, lot: Pos)
    requires candidate % lot == 0 && quantity % lot == 0 && candidate < quantity
    ensures candidate <= quantity - lot && (quantity - lot) % lot == 0
  {
    assert candidate == candidate / lot * lot && quantity == quantity / lot * lot;
    QuotientMonotone(candidate, quantity, lot);
    ProductMonotone(candidate / lot, quantity / lot - 1, lot);
    MultipleHasNoRemainder(quantity / lot - 1, lot);
  }

  datatype AshareOpenMatcher = AshareOpenMatcher(rules: AshareExecutionRules, fees: AshareFeeModel) {

    predicate Blocked(i: MatchInput) {
      i.status.Some? &&
      (i.status.value.suspended
       || (i.order.side == Buy && i.status.value.limit == LimitUp)
       || (i.order.side == Sell && i.status.value.limit == LimitDown))
    }

    /** No rule about the security's status holds the order back. */
    predicate StatusPermits(i: MatchInput) {
      (rules.requireSecurityStatus ==> i.status.Some?) && !Blocked(i)
    }

    function ExecutionPrice(side: Side, open: Price): real {
      var slip := rules.slippageBps / 10000.0;
      open * (if side == Buy then 1.0 + slip else 1.0 - slip)
    }

    /** Cash taken by buying `quantity` at `price`. */
    function Cost(price: Price, quantity: Pos): real {
      WorthPositive(price, quantity);
      Worth(price, quantity) + fees.Charge(Buy, Worth(price, quantity))
    }

    /** The first of `requested`, `requested - lot`, ... that the cash covers, else zero. */
    function Affordable(requested: int, price: Price, cash: real): int {
      if requested <= 0 then 0
      else if Cost(price, requested) <= cash then requested
      else Affordable(requested - rules.lotSize, price, cash)
    }

    function VolumeCap(bar: DailyBar): int {
      (bar.volume * rules.maxVolumeParticipation).Floor
    }

    /** Remaining, maximum and volume cap, rounded down to whole lots. */
    function CappedLots(i: MatchInput): int {
      var quantity := Least(i.order.Remaining(), i.maximum);
      Least(quantity, Some(VolumeCap(i.bar))) / rules.lotSize * rules.lotSize
    }

    lemma CappedLotsNonNeg(i: MatchInput)
      requires i.maximum.Some? ==> 0 <= i.maximum.value
      ensures 0 <= CappedLots(i)
    {
      VolumeCapNonNeg(i.bar.volume, rules.maxVolumeParticipation);
      WholeLots(Least(Least(i.order.Remaining(), i.maximum), Some(VolumeCap(i.bar))), rules.lotSize);
    }

    lemma {:induction false} AffordableRange(requested: int, price: Price, cash: real)
      ensures 0 <= Affordable(requested, price, cash)
      ensures 0 <= requested ==> Affordable(requested, price, cash) <= requested
    {
      if 0 < requested && Cost(price, requested) > cash {
        AffordableRange(requested - rules.lotSize, price, cash);
      }
    }

    function Match(i: MatchInput): MatchOutcome {
      if i.bar.symbol != i.order.symbol then Err(SymbolMismatch)
      else if i.status.Some? && i.status.value.symbol != i.order.symbol then Err(SymbolMismatch)
      else if i.occurredAt <= i.order.submittedAt then Err(NotAfterSubmission)
      else if rules.requireSecurityStatus && i.status.None? then Ok(None)
      else if Blocked(i) then Ok(None)
      else if i.maximum.Some? && i.maximum.value < 0 then Err(NegativeMaximum)
      else
        var lots := CappedLots(i);
        if lots == 0 then Ok(None)
        else
          var price := ExecutionPrice(i.order.side, i.bar.open);
          if price <= 0.0 then Err(NonPositivePrice)
          else
            CappedLotsNonNeg(i);
            var quantity :=
              if i.order.side == Buy && i.cash.Some? then
                AffordableRange(lots, price, i.cash.value);
                Affordable(lots, price, i.cash.value)
              else lots;
            if quantity == 0 then Ok(None)
            else
              var breakdown :- fees.Calculate(i.order.side, Worth(price, quantity));
              Ok(Some(Fill(i.fillId, i.order.orderId, i.order.symbol, i.order.side,
                           quantity, price, breakdown.Total(), i.occurredAt)))
    }

    /** The matcher as the engine holds it. */
    function AsMatcher(): Matcher {
      (i: MatchInput) => Match(i)
    }

    method AffordableQuantity(requested: int, price: Price, cash: real) returns (quantity: int)
      ensures quantity == Affordable(requested, price, cash)
    {
      quantity := requested;
      while quantity > 0
        invariant Affordable(quantity, price, cash) == Affordable(requested, price, cash)
      {
        WorthPositive(price, quantity);
        var notional := Worth(price, quantity);
        var fee := fees.Calculate(Buy, notional);
        if notional + fee.value.Total() <= cash {
          return;
        }
        quantity := quantity - rules.lotSize;
      }
      quantity := 0;
    }

    method MatchOrder(i: MatchInput) returns (r: MatchOutcome)
      ensures r == Match(i)
    {
      if i.bar.symbol != i.order.symbol || (i.status.Some? && i.status.value.symbol != i.order.symbol) {
        return Err(SymbolMismatch);
      }
      if i.occurredAt <= i.order.submittedAt {
        return Err(NotAfterSubmission);
      }
      if (rules.requireSecurityStatus && i.status.None?) || Blocked(i) {
        return Ok(None);
      }
      var quantity := i.order.Remaining();
      if i.maximum.Some? {
        if i.maximum.value < 0 {
          return Err(NegativeMaximum);
        }
        quantity := Least(quantity, i.maximum);
      }
      quantity := Least(quantity, Some(VolumeCap(i.bar)));
      quantity := quantity / rules.lotSize * rules.lotSize;
      if quantity == 0 {
        return Ok(None);
      }
      CappedLotsNonNeg(i);
      var price := ExecutionPrice(i.order.side, i.bar.open);
      if price <= 0.0 {
        return Err(NonPositivePrice);
      }
      if i.order.side == Buy && i.cash.Some? {
        AffordableRange(quantity, price, i.cash.value);
        quantity := AffordableQuantity(quantity, price, i.cash.value);
        if quantity == 0 {
          return Ok(None);
        }
      }
      var fee := fees.Calculate(i.order.side, Worth(price, quantity));
      if fee.Err? {
        return Err(fee.error);
      }
      return Ok(Some(Fill(i.fillId, i.order.orderId, i.order.symbol, i.order.side,
                          quantity, price, fee.value.Total(), i.occurredAt)));
    }

    /** Buying more always costs more, so every smaller lot of an affordable one is affordable. */
    lemma CostMonotone(price: Price, small: Pos, large: Pos)
      requires small <= large
      ensures Worth(price, small) <= Cost(price, small) <= Cost(price, large)
    {
      WorthPositive(price, small);
      WorthPositive(price, large);
      WorthMonotone(price, price, small, large);
      fees.ChargeMonotone(Buy, Worth(price, small), Worth(price, large));
    }

    lemma {:induction false} AffordableGreatest(requested: int, price: Price, cash: real)
      requires 0 <= requested && requested % rules.lotSize == 0
      ensures var r := Affordable(requested, price, cash);
        && r % rules.lotSize == 0
        && (0 < r ==> Cost(price, r) <= cash)
        && forall q: Pos :: q <= requested && q % rules.lotSize == 0 && Cost(price, q) <= cash ==> q <= r
      decreases requested
    {
      if 0 < requested && Cost(price, requested) > cash {
        var lot := rules.lotSize;
        NextMultipleDown(0, requested, lot);
        AffordableGreatest(requested - lot, price, cash);
        forall q: Pos | q <= requested && q % lot == 0 && Cost(price, q) <= cash
          ensures q <= Affordable(requested, price, cash)
        {
          NextMultipleDown(q, requested, lot);
        }
      }
    }

    /** The order may trade now at this bar: every refusal that does not depend on size is off. */
    predicate Permitted(i: MatchInput) {
      && i.bar.symbol == i.order.symbol
      && (i.status.Some? ==> i.status.value.symbol == i.order.symbol)
      && i.order.submittedAt < i.occurredAt
      && StatusPermits(i)
      && (i.maximum.Some? ==> 0 <= i.maximum.value)
      && 0.0 < ExecutionPrice(i.order.side, i.bar.open)
    }

    predicate WithinCaps(i: MatchInput, q: Pos) {
      && q % rules.lotSize == 0
      && q <= i.order.Remaining()
      && (i.maximum.Some? ==> q <= i.maximum.value)
      && q as real <= i.bar.volume * rules.maxVolumeParticipation
    }

    /** A size every limit allows. */
    predicate Feasible(i: MatchInput, q: Pos)
      requires Permitted(i)
    {
      && WithinCaps(i, q)
      && (i.order.side == Buy && i.cash.Some? ==>
           Cost(ExecutionPrice(Buy, i.bar.open), q) <= i.cash.value)
    }

    lemma CappedLotsMeaning(i: MatchInput, q: Pos)
      requires Permitted(i)
      ensures WithinCaps(i, q) <==> q % rules.lotSize == 0 && q <= CappedLots(i)
      ensures CappedLots(i) % rules.lotSize == 0
    {
      var bound := Least(Least(i.order.Remaining(), i.maximum), Some(VolumeCap(i.bar)));
      WholeLots(bound, rules.lotSize);
      FloorBound(i.bar.volume * rules.maxVolumeParticipation, q);
      if q % rules.lotSize == 0 {
        LotsBelow(bound, q, rules.lotSize);
      }
    }

    /** When the market permits trading, the matcher fills the greatest feasible size at the
        slipped open with the scheduled fee, and fills nothing exactly when no size is feasible. */
    lemma OptimalFill(i: MatchInput)
      requires Permitted(i)
      ensures Match(i).Ok?
      ensures Match(i).value.None? <==> forall q: Pos :: !Feasible(i, q)
      ensures Match(i).value.Some? ==>
        var fill := Match(i).value.value;
        && Feasible(i, fill.quantity)
        && (forall q: Pos :: Feasible(i, q) ==> q <= fill.quantity)
        && fill.price == ExecutionPrice(i.order.side, i.bar.open)
        && 0.0 < fill.Notional() && fill.fee == fees.Charge(i.order.side, fill.Notional())
        && fill.fillId == i.fillId && fill.orderId == i.order.orderId && fill.occurredAt == i.occurredAt
        && fill.symbol == i.order.symbol && fill.side == i.order.side
    {
      var lots, price := CappedLots(i), ExecutionPrice(i.order.side, i.bar.open);
      CappedLotsNonNeg(i);
      forall q: Pos
        ensures WithinCaps(i, q) <==> q % rules.lotSize == 0 && q <= lots
      {
        CappedLotsMeaning(i, q);
      }
      CappedLotsMeaning(i, 1);
      if lots != 0 && i.order.side == Buy && i.cash.Some? {
        AffordableRange(lots, price, i.cash.value);
        AffordableGreatest(lots, price, i.cash.value);
      }
      if Match(i).Ok? && Match(i).value.Some? {
        var fill := Match(i).value.value;
        WorthPositive(price, fill.quantity);
        assert Feasible(i, fill.quantity);
      }
    }

    /** Exactly these statuses hold back an order that could fill: none where one is required, a suspension,
        a limit-up on a buy, and a limit-down on a sell. */
    lemma StatusDecides(i: MatchInput, q: Pos)
      requires i.bar.symbol == i.order.symbol && i.order.submittedAt < i.occurredAt
      requires i.status.Some? ==> i.status.value.symbol == i.order.symbol
      requires (i.maximum.Some? ==> 0 <= i.maximum.value) && 0.0 < ExecutionPrice(i.order.side, i.bar.open)
      requires WithinCaps(i, q)
      requires i.order.side == Buy && i.cash.Some? ==> Cost(ExecutionPrice(Buy, i.bar.open), q) <= i.cash.value
      ensures Match(i).Ok?
      ensures Match(i).value.None? <==>
        match i.status
        case None => rules.requireSecurityStatus
        case Some(status) =>
          || status.suspended
          || (i.order.side == Buy && status.limit == LimitUp)
          || (i.order.side == Sell && status.limit == LimitDown)
    {
      if Permitted(i) {
        OptimalFill(i);
        assert Feasible(i, q);
      }
    }

    /** Whatever else holds, no fill comes of such a status. */
    lemma FilledWasTradable(i: MatchInput)
      requires Match(i).Ok? && Match(i).value.Some?
      ensures i.status.None? ==> !rules.requireSecurityStatus
      ensures i.status.Some? ==>
        && !i.status.value.suspended
        && (i.order.side == Buy ==> i.status.value.limit != LimitUp)
        && (i.order.side == Sell ==> i.status.value.limit != LimitDown)
    {
    }

    lemma FilledPermitted(i: MatchInput)
      requires Match(i).Ok? && Match(i).value.Some?
      ensures Permitted(i)
    {
    }

    lemma FilledFacts(i: MatchInput)
      requires Match(i).Ok? && Match(i).value.Some?
      ensures i.bar.symbol == i.order.symbol
      ensures var fill := Match(i).value.value;
        && WithinCaps(i, fill.quantity) && fill.price == ExecutionPrice(i.order.side, i.bar.open)
        && 0.0 < fill.Notional() && fill.fee == fees.Charge(i.order.side, fill.Notional())
        && fill.symbol == i.order.symbol && fill.side == i.order.side && fill.occurredAt == i.occurredAt
    {
      FilledPermitted(i);
      OptimalFill(i);
      assert Feasible(i, Match(i).value.value.quantity);
    }

    /** It refuses another symbol's bar or status and a time no later than the submission, whatever the status says. */
    lemma MatchRefuses(i: MatchInput)
      ensures Match(i) == Err(SymbolMismatch) <==>
        i.bar.symbol != i.order.symbol || (i.status.Some? && i.status.value.symbol != i.order.symbol)
      ensures Match(i) == Err(NotAfterSubmission) <==>
        && i.bar.symbol == i.order.symbol && (i.status.Some? ==> i.status.value.symbol == i.order.symbol)
        && !(i.order.submittedAt < i.occurredAt)
    {
      CalculateErrors(i);
    }

    lemma CalculateErrors(i: MatchInput)
      ensures forall notional: real :: fees.Calculate(i.order.side, notional).Err? ==>
        fees.Calculate(i.order.side, notional).error == NonPositiveNotional
    {
    }

    lemma BuyNeverCheaper(open: Price)
      ensures open <= ExecutionPrice(Buy, open)
    {
      Scale(1.0, 1.0 + rules.slippageBps / 10000.0, open);
    }

    lemma AffordableWithinPreCap(open: Price, q: Pos, cash: real)
      requires 0.0 < ExecutionPrice(Buy, open)
      requires Cost(ExecutionPrice(Buy, open), q) <= cash
      ensures q <= (cash / open).Floor
    {
      var price := ExecutionPrice(Buy, open);
      BuyNeverCheaper(open);
      WorthMonotone(open, price, q, q);
      CostMonotone(price, q, q);
      FloorOfQuotient(cash, open, q);
    }

    ghost function PreCapped(i: MatchInput): MatchInput
      requires i.cash.Some?
    {
      i.(maximum := Some((i.cash.value / i.bar.open).Floor))
    }

    lemma PreCapKeepsFeasible(i: MatchInput, q: Pos)
      requires Permitted(i) && i.order.side == Buy && i.maximum.None?
      requires i.cash.Some? && Permitted(PreCapped(i))
      ensures Feasible(PreCapped(i), q) <==> Feasible(i, q)
    {
      if Feasible(i, q) {
        AffordableWithinPreCap(i.bar.open, q, i.cash.value);
      }
    }

    /** The engine's pre-cap of a buy at floor(cash / open) never removes an affordable lot. */
    lemma PreCapRedundant(i: MatchInput)
      requires Permitted(i) && i.order.side == Buy && i.maximum.None?
      requires i.cash.Some? && 0.0 <= i.cash.value
      ensures Match(PreCapped(i)) == Match(i)
    {
      var capped := PreCapped(i);
      FloorOfQuotient(i.cash.value, i.bar.open, 0);
      forall q: Pos
        ensures Feasible(capped, q) <==> Feasible(i, q)
      {
        PreCapKeepsFeasible(i, q);
      }
      OptimalFill(i);
      OptimalFill(capped);
    }
  }
}
