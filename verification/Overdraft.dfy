/** Four days that buy, sell the next day and buy again, and what the sell's fee does to the cash. */
module Overdraft {
  import opened Wrappers
  import opened Market
  import opened Orders
  import opened Fees
  import opened Matching
  import opened Backtest
  import opened RunSafety
  import opened AshareSafety
  import opened SingleOrder

  datatype Script = Script(m: AshareOpenMatcher, cash: NonNeg, bar: DailyBar, quantity: Pos) {

    function Request(d: nat): OrderRequest {
      OrderRequest(bar.symbol, if d == 1 then Sell else Buy, quantity)
    }

    /** Every day shows the same bar, and the symbol trades freely. */
    function Day(d: nat): MarketSession {
      MarketSession(d, 2 * d, 2 * d + 1, [bar], [SecurityStatus(bar.symbol, false, NoLimit)])
    }

    function Days(): seq<MarketSession> {
      [Day(0), Day(1), Day(2), Day(3)]
    }

    /** Buys, sells the next day, and buys again. */
    function Churn(): Strategy {
      (seen: seq<StrategyContext>) => [if |seen| == 2 then Request(1) else Request(0)]
    }

    function Opening(): Matcher {
      m.AsMatcher()
    }

    /** What the buy takes, fee included. */
    function Spent(): real {
      m.BuyNeverCheaper(bar.open);
      m.Cost(m.ExecutionPrice(Buy, bar.open), quantity)
    }

    /** What the sell brings in after its fee. */
    function Proceeds(): real
      requires 0.0 < m.ExecutionPrice(Sell, bar.open)
    {
      var price := m.ExecutionPrice(Sell, bar.open);
      WorthPositive(price, quantity);
      Worth(price, quantity) - m.fees.Charge(Sell, Worth(price, quantity))
    }

    /** Both trades can fill whole. */
    predicate Tradable() {
      && quantity % m.rules.lotSize == 0 && quantity as real <= bar.volume * m.rules.maxVolumeParticipation
      && 0.0 < m.ExecutionPrice(Sell, bar.open) && Spent() <= cash
    }

    /** The cash once both trades are done. */
    function CashLeft(): real
      requires Tradable()
    {
      cash - Spent() + Proceeds()
    }
  }

  lemma DaysValid(s: Script)
    ensures ValidateSessions(s.Days()) == Ok(()) && ValidSessions(s.Days())
  {
    assert FollowsAt(s.Days(), 0) && FollowsAt(s.Days(), 1) && FollowsAt(s.Days(), 2);
  }

  lemma BarsQuoted(s: Script, d: nat)
    ensures BarBySymbol(s.Day(d).bars) == map[s.bar.symbol := s.bar]
    ensures StatusBySymbol(s.Day(d).statuses) == map[s.bar.symbol := s.Day(d).statuses[0]]
  {
    assert s.Day(d).bars[..0] == [] && s.Day(d).statuses[..0] == [];
  }

  /** An order of the run, as submitted before the day opens. */
  ghost predicate Submitted(order: BacktestOrder, request: OrderRequest, d: nat) {
    && order.symbol == request.symbol && order.side == request.side && order.quantity == request.quantity
    && order.filled == 0 && order.submittedAt < 2 * d
  }

  lemma TurnOf(s: Script, order: BacktestOrder, run: Run, d: nat)
    requires order.symbol == s.bar.symbol
    ensures Quoted(s.Day(d), order)
    ensures var i := TurnInput(s.Day(d), order, run);
      && i.order == order && i.bar == s.bar && i.status == Some(s.Day(d).statuses[0])
      && i.cash == Some(run.ledger.cash) && i.occurredAt == 2 * d
      && i.maximum == Some(MaximumExecutable(order, s.bar.open, run.ledger))
  {
    BarsQuoted(s, d);
  }

  /** Whole orders that are feasible fill whole. */
  lemma WholeFill(m: AshareOpenMatcher, i: MatchInput) returns (fill: Fill)
    requires m.Permitted(i) && i.order.filled == 0 && m.Feasible(i, i.order.quantity)
    ensures m.Match(i) == Ok(Some(fill)) && fill.quantity == i.order.quantity
    ensures fill.side == i.order.side && fill.symbol == i.order.symbol
    ensures fill.price == m.ExecutionPrice(i.order.side, i.bar.open)
    ensures 0.0 < fill.Notional() && fill.fee == m.fees.Charge(fill.side, fill.Notional())
  {
    m.OptimalFill(i);
    fill := m.Match(i).value.value;
  }

  lemma BuyFills(s: Script, order: BacktestOrder, run: Run) returns (fill: Fill)
    requires s.Tradable() && Submitted(order, s.Request(0), 1) && run.ledger.cash == s.cash
    ensures Quoted(s.Day(1), order) && s.m.Match(TurnInput(s.Day(1), order, run)) == Ok(Some(fill))
    ensures fill.quantity == s.quantity && fill.side == Buy && fill.symbol == s.bar.symbol
    ensures fill.Notional() + fill.fee == s.Spent()
  {
    TurnOf(s, order, run, 1);
    s.m.BuyNeverCheaper(s.bar.open);
    s.m.AffordableWithinPreCap(s.bar.open, s.quantity, s.cash);
    fill := WholeFill(s.m, TurnInput(s.Day(1), order, run));
  }

  lemma SellFills(s: Script, order: BacktestOrder, run: Run) returns (fill: Fill)
    requires s.Tradable() && Submitted(order, s.Request(1), 2)
      && run.ledger.PositionOf(s.bar.symbol).quantity == s.quantity
    ensures Quoted(s.Day(2), order) && s.m.Match(TurnInput(s.Day(2), order, run)) == Ok(Some(fill))
    ensures fill.quantity == s.quantity && fill.side == Sell && fill.symbol == s.bar.symbol
    ensures fill.Notional() - fill.fee == s.Proceeds()
  {
    TurnOf(s, order, run, 2);
    fill := WholeFill(s.m, TurnInput(s.Day(2), order, run));
  }

  /** Before the d-th day: what is held, and the one order still working. */
  ghost predicate Before(s: Script, run: Run, d: nat, cash: real, quantity: int, order: BacktestOrder,
      request: OrderRequest) {
    && Sane(s.cash, run, 2 * d - 1) && |run.contexts| == d && OnlyWorking(run, order) && Submitted(order, request, d)
    && run.ledger.cash == cash && run.ledger.positions.Keys <= {s.bar.symbol}
    && run.ledger.PositionOf(s.bar.symbol).quantity == quantity
  }

  lemma DayEnds(s: Script, run: Run, d: nat) returns (order: BacktestOrder)
    requires Sane(s.cash, run, 2 * d) && |run.contexts| == d && Idle(run) && run.ledger.positions.Keys <= {s.bar.symbol}
    ensures var last := CloseStep(s.Churn(), s.Day(d), run);
      && last.Ok?
      && Before(s, last.value, d + 1, run.ledger.cash, run.ledger.PositionOf(s.bar.symbol).quantity, order,
        s.Request(d))
  {
    BarsQuoted(s, d);
    order := CloseSubmits(s.cash, s.Churn(), s.Day(d), run, s.Request(d));
  }

  lemma FirstDay(s: Script) returns (order: BacktestOrder)
    ensures var last := SessionStep(s.Opening(), s.Churn(), s.Day(0), FirstRun(s.cash));
      last.Ok? && Before(s, last.value, 1, s.cash, 0, order, s.Request(0))
  {
    FirstOpen(s.cash, s.Opening(), s.Day(0));
    FirstSane(s.cash, s.Day(0));
    order := DayEnds(s, Started(s.Day(0), FirstRun(s.cash)), 0);
  }

  function CashAfter(cash: real, fill: Fill): real {
    if fill.side == Buy then cash - (fill.Notional() + fill.fee) else cash + (fill.Notional() - fill.fee)
  }

  function QuantityAfter(quantity: int, fill: Fill): int {
    if fill.side == Buy then quantity + fill.quantity else quantity - fill.quantity
  }

  /** The open of a day on which the working order fills whole. */
  lemma DayTrades(s: Script, run: Run, d: nat, cash: real, quantity: int, order: BacktestOrder, request: OrderRequest,
      fill: Fill)
    requires Before(s, run, d, cash, quantity, order, request) && request.symbol == s.bar.symbol
    requires Quoted(s.Day(d), order) && s.m.Match(TurnInput(s.Day(d), order, run)) == Ok(Some(fill))
    requires fill.quantity == request.quantity && fill.symbol == s.bar.symbol && fill.side == request.side
    ensures var last := OpenStep(s.Opening(), s.Day(d), run);
      && last.Ok? && Sane(s.cash, last.value, 2 * d) && |last.value.contexts| == d && Idle(last.value)
      && last.value.ledger.positions.Keys <= {s.bar.symbol} && last.value.ledger.cash == CashAfter(cash, fill)
      && last.value.ledger.PositionOf(s.bar.symbol).quantity == QuantityAfter(quantity, fill)
  {
    LaterSane(s.cash, run, 2 * d - 1, 2 * d);
    TurnExact(s.cash, s.m, s.Day(d), order, run);
    RefusalExact(s.m, TurnInput(s.Day(d), order, run));
    OpenFills(s.cash, s.Opening(), s.Day(d), order, run, fill);
  }

  lemma DayPasses(s: Script, run: Run, d: nat, cash: real, quantity: int, order: BacktestOrder, request: OrderRequest,
      fill: Fill)
    returns (next: BacktestOrder)
    requires Before(s, run, d, cash, quantity, order, request) && request.symbol == s.bar.symbol
    requires Quoted(s.Day(d), order) && s.m.Match(TurnInput(s.Day(d), order, run)) == Ok(Some(fill))
    requires fill.quantity == request.quantity && fill.symbol == s.bar.symbol && fill.side == request.side
    ensures var last := SessionStep(s.Opening(), s.Churn(), s.Day(d), run);
      last.Ok? && Before(s, last.value, d + 1, CashAfter(cash, fill), QuantityAfter(quantity, fill), next, s.Request(d))
  {
    DayTrades(s, run, d, cash, quantity, order, request, fill);
    next := DayEnds(s, OpenStep(s.Opening(), s.Day(d), run).value, d);
  }

  lemma BuyDay(s: Script, run: Run, order: BacktestOrder) returns (next: BacktestOrder)
    requires s.Tradable() && Before(s, run, 1, s.cash, 0, order, s.Request(0))
    ensures var last := SessionStep(s.Opening(), s.Churn(), s.Day(1), run);
      last.Ok? && Before(s, last.value, 2, s.cash - s.Spent(), s.quantity, next, s.Request(1))
  {
    var fill := BuyFills(s, order, run);
    next := DayPasses(s, run, 1, s.cash, 0, order, s.Request(0), fill);
    assert CashAfter(s.cash, fill) == s.cash - s.Spent() && QuantityAfter(0, fill) == s.quantity && 1 + 1 == 2;
  }

  lemma SellDay(s: Script, run: Run, order: BacktestOrder) returns (next: BacktestOrder)
    requires s.Tradable() && Before(s, run, 2, s.cash - s.Spent(), s.quantity, order, s.Request(1))
    ensures var last := SessionStep(s.Opening(), s.Churn(), s.Day(2), run);
      last.Ok? && Before(s, last.value, 3, s.CashLeft(), 0, next, s.Request(2))
  {
    var fill := SellFills(s, order, run);
    next := DayPasses(s, run, 2, s.cash - s.Spent(), s.quantity, order, s.Request(1), fill);
    assert CashAfter(s.cash - s.Spent(), fill) == s.CashLeft() && QuantityAfter(s.quantity, fill) == 0 && 2 + 1 == 3;
  }

  /** The last buy finds cash negative. */
  lemma LastDay(s: Script, run: Run, order: BacktestOrder)
    requires s.Tradable() && s.CashLeft() < 0.0 && Before(s, run, 3, s.CashLeft(), 0, order, s.Request(2))
    ensures SessionStep(s.Opening(), s.Churn(), s.Day(3), run) == Err(NegativeMaximum)
  {
    var started := Started(s.Day(3), run);
    OnlyEligible(run, order, 6);
    OneTurn(s.Opening(), s.Day(3), order, run);
    TurnOf(s, order, started, 3);
    NegativeCashRaises(s.m, s.Day(3), order, started);
  }

  lemma DaysNext(s: Script, d: nat, run: Run)
    requires d < 4 && After(s.cash, s.Opening(), s.Churn(), s.Days(), d) == Ok(run)
    ensures After(s.cash, s.Opening(), s.Churn(), s.Days(), d + 1) == SessionStep(s.Opening(), s.Churn(), s.Day(d), run)
  {
    AfterNext(s.cash, s.Opening(), s.Churn(), s.Days(), d);
    assert s.Days()[d] == s.Day(d);
  }

  /** The states before the second and the third day after the first buy was submitted. */
  lemma HoldingState(s: Script) returns (run: Run, order: BacktestOrder)
    requires s.Tradable()
    ensures After(s.cash, s.Opening(), s.Churn(), s.Days(), 2) == Ok(run)
    ensures Before(s, run, 2, s.cash - s.Spent(), s.quantity, order, s.Request(1))
  {
    var none := FirstRun(s.cash);
    var buy := FirstDay(s);
    DaysNext(s, 0, none);
    var waiting := SessionStep(s.Opening(), s.Churn(), s.Day(0), none).value;
    order := BuyDay(s, waiting, buy);
    DaysNext(s, 1, waiting);
    run := SessionStep(s.Opening(), s.Churn(), s.Day(1), waiting).value;
  }

  /** A sell that leaves negative cash makes the run raise at the next buy, over four valid sessions in
      which every held symbol is quoted. */
  lemma OverdraftRaises(s: Script)
    requires s.Tradable() && s.CashLeft() < 0.0
    ensures ValidSessions(s.Days()) && Outcome(s.cash, s.Opening(), s.Churn(), s.Days()) == Err(NegativeMaximum)
  {
    DaysValid(s);
    var holding, sell := HoldingState(s);
    var again := SellDay(s, holding, sell);
    DaysNext(s, 2, holding);
    var overdrawn := SessionStep(s.Opening(), s.Churn(), s.Day(2), holding).value;
    LastDay(s, overdrawn, again);
    DaysNext(s, 3, overdrawn);
  }

  /** The default rules and fees; a hundred shares at a hundredth, bought with cash 7. */
  const PENNY_STOCK := Script(
    AshareOpenMatcher(RuleFields(100, 0.1, 5.0, true), AshareFeeModel(0.0003, 5.0, 0.0005, 0.00001)),
    7.0, DailyBar(7, 0.01, 0.01, 1000000.0), 100)

  /** With the defaults, the minimum commission of the sell takes more than the cash left. */
  lemma DefaultsOverdraw()
    ensures PENNY_STOCK.Tradable() && PENNY_STOCK.CashLeft() == -3.00151975
    ensures Outcome(7.0, PENNY_STOCK.Opening(), PENNY_STOCK.Churn(), PENNY_STOCK.Days()) == Err(NegativeMaximum)
  {
    var s := PENNY_STOCK;
    assert s.m.ExecutionPrice(Buy, 0.01) == 0.010005 && Worth(0.010005, 100) == 1.0005;
    assert s.m.ExecutionPrice(Sell, 0.01) == 0.009995 && Worth(0.009995, 100) == 0.9995;
    assert s.Spent() == 6.000510005 && s.Proceeds() == -4.001009745;
    OverdraftRaises(s);
  }
}
