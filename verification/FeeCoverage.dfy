/** Which A-share matchers can never overdraw the cash, whatever the cash, strategy and market. */
module FeeCoverage {
  import opened Wrappers
  import opened Market
  import opened Orders
  import opened Fees
  import opened Matching
  import opened Backtest
  import opened Folding
  import opened RunSafety
  import opened AshareSafety
  import opened SingleOrder
  import opened SessionVolume
  import opened Overdraft
  import Totals

  /** No sell can cost more than it brings in: no price for sells is left, or fees are proportional and
      no more than the whole. */
  predicate SellsPayTheirFees(m: AshareOpenMatcher) {
    || 10000.0 <= m.rules.slippageBps
    || (m.fees.minimumCommission == 0.0 && FullRate(m) <= 1.0)
  }

  /** In every run over valid sessions, cash is never negative, not even between two turns. */
  ghost predicate NeverOverdraws(m: AshareOpenMatcher) {
    forall cash: NonNeg, strategy: Strategy, sessions: seq<MarketSession> ::
      ValidSessions(sessions) ==> NeverOverdrawn(cash, m.AsMatcher(), strategy, sessions, |sessions|)
  }

  /** Commission, stamp duty and transfer fee of a sell, as a share of its notional. */
  function FullRate(m: AshareOpenMatcher): NonNeg {
    m.fees.commissionRate + m.fees.VariableRate(Sell)
  }

  // Fees that sells can pay.

  lemma ProportionalFee(m: AshareOpenMatcher, notional: Price)
    ensures m.fees.minimumCommission == 0.0 ==>
      m.fees.Charge(Sell, notional) == notional * FullRate(m)
    ensures notional * FullRate(m) <= m.fees.Charge(Sell, notional)
    ensures m.fees.minimumCommission <= m.fees.Charge(Sell, notional)
  {
    m.fees.ChargeForm(Sell, notional);
    m.fees.ChargeMonotone(Sell, notional, notional);
    Totals.Distribute(notional, m.fees.commissionRate, m.fees.VariableRate(Sell));
    Scale(0.0, m.fees.commissionRate, notional);
  }

  lemma ProportionalCovers(m: AshareOpenMatcher, bar: DailyBar)
    requires m.rules.slippageBps < 10000.0 && SellsPayTheirFees(m)
    ensures LotCoversSellFee(m, bar)
  {
    var price := m.ExecutionPrice(Sell, bar.open);
    SellPrice(m, bar.open);
    WorthPositive(price, m.rules.lotSize);
    var notional := Worth(price, m.rules.lotSize);
    ProportionalFee(m, notional);
    Scale(FullRate(m), 1.0, notional);
  }

  lemma {:induction false} NoSellsCovered(m: AshareOpenMatcher, session: MarketSession, orders: seq<BacktestOrder>,
      run: Run)
    requires 10000.0 <= m.rules.slippageBps
    ensures FeesCovered(m.AsMatcher(), session, orders, run)
    decreases |orders|
  {
    if orders != [] {
      NoSellCovered(m, session, orders[0], run);
      var next := FillOne(m.AsMatcher(), session, orders[0], run);
      if next.Ok? {
        NoSellsCovered(m, session, orders[1..], next.value);
      }
    }
  }

  lemma NoSellCovered(m: AshareOpenMatcher, session: MarketSession, order: BacktestOrder, run: Run)
    requires 10000.0 <= m.rules.slippageBps
    ensures FeeCovered(m.AsMatcher(), session, order, run)
  {
    if Quoted(session, order) {
      var i := TurnInput(session, order, run);
      assert m.AsMatcher()(i) == m.Match(i);
      if m.Match(i).Ok? && m.Match(i).value.Some? {
        MatchWithinCap(m, i);
        m.FilledPermitted(i);
        m.OptimalFill(i);
      }
    }
  }

  lemma NoSellsAlwaysCovered(cash: NonNeg, m: AshareOpenMatcher, strategy: Strategy, sessions: seq<MarketSession>,
      n: nat)
    requires n <= |sessions| && 10000.0 <= m.rules.slippageBps
    ensures AlwaysCovered(cash, m.AsMatcher(), strategy, sessions, n)
  {
    var step, first := SessionFold(m.AsMatcher(), strategy), FirstRun(cash);
    forall k | 0 <= k < n && Fold(step, first, sessions, k).Ok?
      ensures Covered(m.AsMatcher(), sessions)(k, Fold(step, first, sessions, k).value)
    {
      var run := Fold(step, first, sessions, k).value;
      NoSellsCovered(m, sessions[k], run.book.Eligible(sessions[k].openAt), Started(sessions[k], run));
    }
  }

  lemma PayingNeverOverdraws(cash: NonNeg, m: AshareOpenMatcher, strategy: Strategy, sessions: seq<MarketSession>)
    requires SellsPayTheirFees(m) && ValidSessions(sessions)
    ensures NeverOverdrawn(cash, m.AsMatcher(), strategy, sessions, |sessions|)
  {
    if 10000.0 <= m.rules.slippageBps {
      NoSellsAlwaysCovered(cash, m, strategy, sessions, |sessions|);
    } else {
      forall k, bar | 0 <= k < |sessions| && bar in sessions[k].bars
        ensures LotCoversSellFee(m, bar)
      {
        ProportionalCovers(m, bar);
      }
      LotsCoverFees(cash, m, strategy, sessions, |sessions|);
    }
    AshareCoverage(cash, m, strategy, sessions, |sessions|);
  }

  // Fees that some sell cannot pay.

  /** Selling one lot costs more than it brings in. */
  ghost predicate Unpaid(m: AshareOpenMatcher, open: Price) {
    && 0.0 < m.ExecutionPrice(Sell, open)
    && var notional := Worth(m.ExecutionPrice(Sell, open), m.rules.lotSize);
       0.0 < notional && notional < m.fees.Charge(Sell, notional)
  }

  lemma LotSold(m: AshareOpenMatcher, open: Price)
    requires m.rules.slippageBps < 10000.0
    ensures 0.0 < m.ExecutionPrice(Sell, open)
    ensures 0.0 < Worth(m.ExecutionPrice(Sell, open), m.rules.lotSize) <= Worth(open, m.rules.lotSize)
  {
    SellPrice(m, open);
    SellNeverDearer(m, open);
    WorthPositive(m.ExecutionPrice(Sell, open), m.rules.lotSize);
    WorthMonotone(m.ExecutionPrice(Sell, open), open, m.rules.lotSize, m.rules.lotSize);
  }

  lemma FloorUnpaid(m: AshareOpenMatcher)
    requires m.rules.slippageBps < 10000.0 && 0.0 < m.fees.minimumCommission
    ensures Unpaid(m, HalfShare(m.fees.minimumCommission, m.rules.lotSize))
  {
    var open := HalfShare(m.fees.minimumCommission, m.rules.lotSize);
    LotSold(m, open);
    ProportionalFee(m, Worth(m.ExecutionPrice(Sell, open), m.rules.lotSize));
  }

  lemma RatesUnpaid(m: AshareOpenMatcher, open: Price)
    requires m.rules.slippageBps < 10000.0 && 1.0 < FullRate(m)
    ensures Unpaid(m, open)
  {
    LotSold(m, open);
    RateExceeds(m, Worth(m.ExecutionPrice(Sell, open), m.rules.lotSize));
  }

  lemma RateExceeds(m: AshareOpenMatcher, notional: Price)
    requires 1.0 < FullRate(m)
    ensures notional < m.fees.Charge(Sell, notional)
  {
    var rate := FullRate(m);
    ProportionalFee(m, notional);
    StrictScale(rate, notional);
    assert notional < notional * rate <= m.fees.Charge(Sell, notional);
  }

  /** Otherwise there is a price at which the fee of one lot exceeds what it brings in. */
  lemma UnpaidFee(m: AshareOpenMatcher) returns (open: Price)
    requires !SellsPayTheirFees(m)
    ensures Unpaid(m, open)
  {
    if 0.0 < m.fees.minimumCommission {
      open := HalfShare(m.fees.minimumCommission, m.rules.lotSize);
      FloorUnpaid(m);
    } else {
      open := 1.0;
      RatesUnpaid(m, open);
    }
  }

  lemma StrictScale(rate: real, amount: Price)
    requires 1.0 < rate
    ensures amount < amount * rate
  {
    assert 0.0 < amount * (rate - 1.0);
  }

  lemma SellNeverDearer(m: AshareOpenMatcher, open: Price)
    ensures m.ExecutionPrice(Sell, open) <= open
  {
    Scale(1.0 - m.rules.slippageBps / 10000.0, 1.0, open);
  }

  /** A price at which the quantity is worth half the amount. */
  function HalfShare(amount: Price, quantity: Pos): (price: Price)
    ensures Worth(price, quantity) == amount / 2.0
  {
    var price := amount / 2.0 / quantity as real;
    assert price * quantity as real == amount / 2.0;
    PositiveQuotient(amount / 2.0, quantity as real);
    price
  }

  lemma PositiveQuotient(a: real, d: real)
    requires 0.0 < a && 0.0 < d
    ensures 0.0 < a / d
  {
  }

  /** One lot bought with exactly the cash it takes, and sold again. */
  function LotScript(m: AshareOpenMatcher, open: Price): Script {
    var bar := DailyBar(7, open, open, LotVolume(m));
    var cash := Script(m, 0.0, bar, m.rules.lotSize).Spent();
    m.BuyNeverCheaper(open);
    m.CostMonotone(m.ExecutionPrice(Buy, open), m.rules.lotSize, m.rules.lotSize);
    WorthPositive(m.ExecutionPrice(Buy, open), m.rules.lotSize);
    Script(m, cash, bar, m.rules.lotSize)
  }

  lemma LotScriptOverdraws(m: AshareOpenMatcher, open: Price)
    requires Unpaid(m, open)
    ensures LotScript(m, open).Tradable() && LotScript(m, open).CashLeft() < 0.0
  {
    var s := LotScript(m, open);
    LotVolumeCap(m, s.bar);
    assert s.Spent() == s.cash;
  }

  /** The open of the day that sells leaves the cash negative. */
  lemma SellOverdraws(s: Script, run: Run, order: BacktestOrder)
    requires s.Tradable() && s.CashLeft() < 0.0
      && Before(s, run, 2, s.cash - s.Spent(), s.quantity, order, s.Request(1))
    ensures !OpenKeepsCash(s.Opening(), s.Day(2), run)
  {
    var fill := SellFills(s, order, run);
    DayTrades(s, run, 2, s.cash - s.Spent(), s.quantity, order, s.Request(1), fill);
    OnlyEligible(run, order, 4);
    OneTurn(s.Opening(), s.Day(2), order, run);
    var next := FillOne(s.Opening(), s.Day(2), order, Started(s.Day(2), run));
    assert !CashKept(s.Opening(), s.Day(2), [order][1..], next.value);
  }

  lemma ScriptOverdraws(s: Script)
    requires s.Tradable() && s.CashLeft() < 0.0
    ensures ValidSessions(s.Days()) && !NeverOverdrawn(s.cash, s.Opening(), s.Churn(), s.Days(), |s.Days()|)
  {
    DaysValid(s);
    var run, order := HoldingState(s);
    SellOverdraws(s, run, order);
    assert s.Days()[2] == s.Day(2);
    assert !KeepsCash(s.Opening(), s.Days())(2, run);
    assert Fold(SessionFold(s.Opening(), s.Churn()), FirstRun(s.cash), s.Days(), 2) == Ok(run);
  }

  /** Cash is never negative, for every initial cash, strategy and market, exactly when the matcher's fees
      have no floor and add up to at most the whole (or no sell ever fills). */
  lemma NeverOverdrawsExactly(m: AshareOpenMatcher)
    ensures NeverOverdraws(m) <==> SellsPayTheirFees(m)
  {
    if SellsPayTheirFees(m) {
      forall cash: NonNeg, strategy: Strategy, sessions: seq<MarketSession> | ValidSessions(sessions)
        ensures NeverOverdrawn(cash, m.AsMatcher(), strategy, sessions, |sessions|)
      {
        PayingNeverOverdraws(cash, m, strategy, sessions);
      }
    } else {
      var open := UnpaidFee(m);
      LotScriptOverdraws(m, open);
      ScriptOverdraws(LotScript(m, open));
    }
  }
}
