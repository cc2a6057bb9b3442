/** The volume participation cap holds for each order; for the total a session trades in a symbol it holds
    on every market exactly when at most one order can fill. */
module SessionVolume {
  import opened Wrappers
  import opened Market
  import opened Orders
  import opened Ledger
  import opened Matching
  import opened Backtest
  import opened StoreAgreement
  import opened RunSafety
  import opened AshareSafety

  /** The quantity the fills trade in a symbol. */
  function Traded(fills: seq<Fill>, symbol: Symbol): int {
    if fills == [] then 0
    else
      var last := fills[|fills| - 1];
      Traded(fills[..|fills| - 1], symbol) + if last.symbol == symbol then last.quantity as int else 0
  }

  lemma TradedAppend(fills: seq<Fill>, fill: Fill, symbol: Symbol)
    ensures Traded(fills + [fill], symbol) == Traded(fills, symbol) + if fill.symbol == symbol
      then fill.quantity as int else 0
  {
    assert (fills + [fill])[..|fills|] == fills;
  }

  /** An order in the symbol that some market would fill: a lot is left, and slippage leaves it a price. */
  predicate CanFill(m: AshareOpenMatcher, order: BacktestOrder, symbol: Symbol) {
    order.symbol == symbol && m.rules.lotSize <= order.Remaining()
      && (order.side == Sell ==> m.rules.slippageBps < 10000.0)
  }

  function Candidate(m: AshareOpenMatcher, symbol: Symbol): BacktestOrder -> bool {
    (order: BacktestOrder) => CanFill(m, order, symbol)
  }

  function Count(can: BacktestOrder -> bool, orders: seq<BacktestOrder>): nat {
    if orders == [] then 0 else (if can(orders[0]) then 1 else 0) + Count(can, orders[1..])
  }

  /** How many of the orders can fill. */
  function Fillable(m: AshareOpenMatcher, orders: seq<BacktestOrder>, symbol: Symbol): nat {
    Count(Candidate(m, symbol), orders)
  }

  /** A fill is in its order's symbol; in this symbol it is within the cap and its order is a candidate. */
  ghost predicate BoundedAt(i: MatchInput, outcome: MatchOutcome, symbol: Symbol, cap: nat,
      can: BacktestOrder -> bool) {
    outcome.Ok? && outcome.value.Some? ==>
      && outcome.value.value.symbol == i.order.symbol
      && (i.order.symbol == symbol ==> can(i.order) && outcome.value.value.quantity <= cap)
  }

  ghost predicate BoundedTurn(
    matcher: Matcher, session: MarketSession, order: BacktestOrder, run: Run, symbol: Symbol, cap: nat,
    can: BacktestOrder -> bool)
  {
    Quoted(session, order) ==>
      BoundedAt(TurnInput(session, order, run), matcher(TurnInput(session, order, run)), symbol, cap, can)
  }

  lemma RecordAppends(fill: Fill, run: Run)
    requires Record(fill, run).Ok?
    ensures Record(fill, run).value.ledger.fills == run.ledger.fills + [fill]
  {
  }

  lemma TurnTrades(
    matcher: Matcher, session: MarketSession, order: BacktestOrder, run: Run, symbol: Symbol, cap: nat,
    can: BacktestOrder -> bool)
    requires BoundedTurn(matcher, session, order, run, symbol, cap, can)
    requires FillOne(matcher, session, order, run).Ok?
    ensures Traded(FillOne(matcher, session, order, run).value.ledger.fills, symbol)
      <= Traded(run.ledger.fills, symbol) + if can(order) then cap else 0
  {
    if Quoted(session, order) {
      var outcome := matcher(TurnInput(session, order, run));
      if outcome.value.Some? {
        RecordAppends(outcome.value.value, run.(fillSequence := run.fillSequence + 1));
        TradedAppend(run.ledger.fills, outcome.value.value, symbol);
      }
    }
  }

  lemma CountShares(can: BacktestOrder -> bool, orders: seq<BacktestOrder>, share: nat)
    requires orders != []
    ensures Count(can, orders) * share == (if can(orders[0]) then share else 0) + Count(can, orders[1..]) * share
  {
    OneMoreShare(Count(can, orders[1..]), share);
  }

  lemma OneMoreShare(n: nat, share: nat)
    ensures (1 + n) * share == share + n * share
  {
  }

  /** The turns trade at most the cap once for each candidate. */
  lemma {:induction false} TurnsTrade(
    matcher: Matcher, session: MarketSession, orders: seq<BacktestOrder>, run: Run, symbol: Symbol, cap: nat,
    can: BacktestOrder -> bool)
    requires forall order, at: Run :: BoundedTurn(matcher, session, order, at, symbol, cap, can)
    requires FillAll(matcher, session, orders, run).Ok?
    ensures Traded(FillAll(matcher, session, orders, run).value.ledger.fills, symbol)
      <= Traded(run.ledger.fills, symbol) + Count(can, orders) * cap
    decreases |orders|
  {
    if orders != [] {
      TurnTrades(matcher, session, orders[0], run, symbol, cap, can);
      TurnsTrade(matcher, session, orders[1..], FillOne(matcher, session, orders[0], run).value, symbol, cap, can);
      CountShares(can, orders, cap);
    }
  }

  lemma CapBound(m: AshareOpenMatcher, bar: DailyBar, quantity: Pos)
    requires quantity as real <= bar.volume * m.rules.maxVolumeParticipation
    ensures quantity <= m.VolumeCap(bar)
  {
    FloorBound(bar.volume * m.rules.maxVolumeParticipation, quantity);
  }

  lemma LotLeft(m: AshareOpenMatcher, i: MatchInput, quantity: Pos)
    requires m.WithinCaps(i, quantity)
    ensures m.rules.lotSize <= quantity <= i.order.Remaining() && quantity <= m.VolumeCap(i.bar)
  {
    LotIsLeast(quantity, m.rules.lotSize);
    CapBound(m, i.bar, quantity);
  }

  lemma PriceLeft(m: AshareOpenMatcher, i: MatchInput)
    requires m.Permitted(i)
    ensures i.order.side == Sell ==> m.rules.slippageBps < 10000.0
  {
    SellPrice(m, i.bar.open);
  }

  lemma MatchWithinCap(m: AshareOpenMatcher, i: MatchInput)
    requires m.Match(i).Ok? && m.Match(i).value.Some?
    ensures i.bar.symbol == i.order.symbol && CanFill(m, i.order, i.order.symbol)
    ensures m.Match(i).value.value.symbol == i.order.symbol && m.Match(i).value.value.quantity <= m.VolumeCap(i.bar)
  {
    m.FilledPermitted(i);
    PriceLeft(m, i);
    m.OptimalFill(i);
    LotLeft(m, i, m.Match(i).value.value.quantity);
  }

  lemma TurnBounded(m: AshareOpenMatcher, session: MarketSession, order: BacktestOrder, run: Run, symbol: Symbol,
      cap: nat)
    requires symbol in BarBySymbol(session.bars) && cap == m.VolumeCap(BarBySymbol(session.bars)[symbol])
    ensures BoundedTurn(m.AsMatcher(), session, order, run, symbol, cap, Candidate(m, symbol))
  {
    if Quoted(session, order) {
      var i := TurnInput(session, order, run);
      assert m.AsMatcher()(i) == m.Match(i);
      if m.Match(i).Ok? && m.Match(i).value.Some? {
        MatchWithinCap(m, i);
      }
    }
  }

  /** Within the cap: what the turns trade in the symbol, if they raise nothing. */
  ghost predicate TradesWithin(
    m: AshareOpenMatcher, session: MarketSession, orders: seq<BacktestOrder>, run: Run, symbol: Symbol, limit: int)
  {
    var last := FillAll(m.AsMatcher(), session, orders, run);
    last.Ok? ==> Traded(last.value.ledger.fills, symbol) - Traded(run.ledger.fills, symbol) <= limit
  }

  /** A state at whose open the book lists exactly these orders. */
  ghost predicate Lists(run: Run, orders: seq<BacktestOrder>, at: Time) {
    run.book.Valid() && run.book.Eligible(at) == orders && 0.0 <= run.ledger.cash
  }

  /** The open, if it raises nothing, trades at most the session's volume cap in the symbol. */
  ghost predicate OpenWithinCap(m: AshareOpenMatcher, session: MarketSession, run: Run, symbol: Symbol)
    requires symbol in BarBySymbol(session.bars)
  {
    var last := OpenStep(m.AsMatcher(), session, run);
    last.Ok? ==>
      Traded(last.value.ledger.fills, symbol) - Traded(run.ledger.fills, symbol)
        <= m.VolumeCap(BarBySymbol(session.bars)[symbol])
  }

  /** Whatever the market, cash and holdings, an open with these orders trades at most the volume cap. */
  ghost predicate AlwaysWithinCap(m: AshareOpenMatcher, orders: seq<BacktestOrder>, at: Time, symbol: Symbol) {
    forall session: MarketSession, run: Run ::
      session.Valid() && session.openAt == at && symbol in BarBySymbol(session.bars) && Lists(run, orders, at) ==>
        OpenWithinCap(m, session, run, symbol)
  }

  lemma CapNonNegative(m: AshareOpenMatcher, bar: DailyBar)
    ensures 0 <= m.VolumeCap(bar)
  {
    VolumeCapNonNeg(bar.volume, m.rules.maxVolumeParticipation);
  }

  /** In any session the orders trade at most the cap once for each order that can fill. */
  lemma TradesPerCandidate(m: AshareOpenMatcher, session: MarketSession, orders: seq<BacktestOrder>, run: Run,
      symbol: Symbol)
    requires symbol in BarBySymbol(session.bars)
    ensures 0 <= m.VolumeCap(BarBySymbol(session.bars)[symbol])
    ensures TradesWithin(m, session, orders, run, symbol,
                         Fillable(m, orders, symbol) * m.VolumeCap(BarBySymbol(session.bars)[symbol]))
  {
    var bar := BarBySymbol(session.bars)[symbol];
    CapNonNegative(m, bar);
    var cap, can := m.VolumeCap(bar), Candidate(m, symbol);
    forall order, now: Run
      ensures BoundedTurn(m.AsMatcher(), session, order, now, symbol, cap, can)
    {
      TurnBounded(m, session, order, now, symbol, cap);
    }
    if FillAll(m.AsMatcher(), session, orders, run).Ok? {
      TurnsTrade(m.AsMatcher(), session, orders, run, symbol, cap, can);
    }
  }

  // A market on which every order that can fill trades a lot, and the cap is one lot.

  function LotVolume(m: AshareOpenMatcher): NonNeg {
    QuotientNonNeg(m.rules.lotSize as real, m.rules.maxVolumeParticipation);
    m.rules.lotSize as real / m.rules.maxVolumeParticipation
  }

  lemma LotVolumeCap(m: AshareOpenMatcher, bar: DailyBar)
    requires bar.volume == LotVolume(m)
    ensures bar.volume * m.rules.maxVolumeParticipation == m.rules.lotSize as real
    ensures m.VolumeCap(bar) == m.rules.lotSize
  {
    QuotientNonNeg(m.rules.lotSize as real, m.rules.maxVolumeParticipation);
  }

  function LotMarket(m: AshareOpenMatcher, symbol: Symbol, at: Time): MarketSession {
    var limit := if m.rules.slippageBps < 10000.0 then NoLimit else LimitDown;
    MarketSession(0, at, at + 1, [DailyBar(symbol, 1.0, 1.0, LotVolume(m))], [SecurityStatus(symbol, false, limit)])
  }

  lemma LotMarketQuotes(m: AshareOpenMatcher, symbol: Symbol, at: Time)
    ensures var session := LotMarket(m, symbol, at);
      && BarBySymbol(session.bars) == map[symbol := session.bars[0]]
      && StatusBySymbol(session.statuses) == map[symbol := session.statuses[0]]
      && m.VolumeCap(session.bars[0]) == m.rules.lotSize
  {
    var session := LotMarket(m, symbol, at);
    assert session.bars[..0] == [] && session.statuses[..0] == [];
    LotVolumeCap(m, session.bars[0]);
  }

  /** Enough cash for one lot bought or one lot's sell fee. */
  function LotCash(m: AshareOpenMatcher): NonNeg {
    m.BuyNeverCheaper(1.0);
    var buy := m.Cost(m.ExecutionPrice(Buy, 1.0), m.rules.lotSize);
    var sell := m.ExecutionPrice(Sell, 1.0);
    if 0.0 < sell then
      WorthPositive(sell, m.rules.lotSize);
      WorthPositive(m.ExecutionPrice(Buy, 1.0), m.rules.lotSize);
      buy + m.fees.Charge(Sell, Worth(sell, m.rules.lotSize))
    else
      WorthPositive(m.ExecutionPrice(Buy, 1.0), m.rules.lotSize);
      buy
  }

  /** What an order is matched against on that market, with cash for a lot and a lot to sell. */
  ghost predicate LotInput(m: AshareOpenMatcher, i: MatchInput, symbol: Symbol, at: Time) {
    && Posed(i) && i.order.symbol == symbol && i.bar == LotMarket(m, symbol, at).bars[0]
    && i.status == Some(LotMarket(m, symbol, at).statuses[0])
    && LotCash(m) <= i.cash.value && (i.order.side == Sell ==> m.rules.lotSize <= i.maximum.value)
  }

  lemma LotPosed(m: AshareOpenMatcher, order: BacktestOrder, run: Run, symbol: Symbol, at: Time)
    requires Current(order, run, at) && order.symbol == symbol
    requires LotCash(m) <= run.ledger.cash
    requires order.side == Sell ==> m.rules.lotSize <= run.ledger.PositionOf(symbol).quantity
    ensures Quoted(LotMarket(m, symbol, at), order)
    ensures LotInput(m, TurnInput(LotMarket(m, symbol, at), order, run), symbol, at)
  {
    LotMarketQuotes(m, symbol, at);
    TurnPosed(LotMarket(m, symbol, at), order, run);
  }

  lemma LotRespected(m: AshareOpenMatcher, i: MatchInput, symbol: Symbol, at: Time)
    requires LotInput(m, i, symbol, at)
    ensures Respectful(i, m.Match(i))
  {
    RefusalExact(m, i);
  }

  lemma LotPrices(m: AshareOpenMatcher)
    ensures 0.0 < m.ExecutionPrice(Buy, 1.0) && 0.0 < Worth(m.ExecutionPrice(Buy, 1.0), m.rules.lotSize)
    ensures m.Cost(m.ExecutionPrice(Buy, 1.0), m.rules.lotSize) <= LotCash(m)
    ensures var sell := m.ExecutionPrice(Sell, 1.0);
      0.0 < sell ==>
        0.0 < Worth(sell, m.rules.lotSize) && m.fees.Charge(Sell, Worth(sell, m.rules.lotSize)) <= LotCash(m)
  {
    m.BuyNeverCheaper(1.0);
    WorthPositive(m.ExecutionPrice(Buy, 1.0), m.rules.lotSize);
    if 0.0 < m.ExecutionPrice(Sell, 1.0) {
      WorthPositive(m.ExecutionPrice(Sell, 1.0), m.rules.lotSize);
    }
  }

  lemma LotPermitted(m: AshareOpenMatcher, i: MatchInput, symbol: Symbol, at: Time)
    requires LotInput(m, i, symbol, at) && CanFill(m, i.order, symbol)
    ensures m.Permitted(i)
  {
    LotPrices(m);
    SellPrice(m, 1.0);
    FloorOfQuotient(i.cash.value, 1.0, 0);
  }

  lemma LotFeasible(m: AshareOpenMatcher, i: MatchInput, symbol: Symbol, at: Time)
    requires LotInput(m, i, symbol, at) && CanFill(m, i.order, symbol)
    ensures m.Permitted(i) && m.Feasible(i, m.rules.lotSize)
  {
    LotPermitted(m, i, symbol, at);
    LotPrices(m);
    LotVolumeCap(m, i.bar);
    m.AffordableWithinPreCap(1.0, m.rules.lotSize, i.cash.value);
  }

  /** Every order of the symbol that can fill trades exactly one lot, for no more cash than set aside. */
  lemma LotMatched(m: AshareOpenMatcher, i: MatchInput, symbol: Symbol, at: Time)
    requires LotInput(m, i, symbol, at) && CanFill(m, i.order, symbol)
    ensures m.Match(i).Ok? && m.Match(i).value.Some?
    ensures var fill := m.Match(i).value.value;
      && fill.quantity == m.rules.lotSize && fill.side == i.order.side && fill.symbol == symbol
      && (fill.side == Buy ==> fill.Notional() + fill.fee <= LotCash(m))
      && (fill.side == Sell ==> fill.fee <= fill.Notional() + LotCash(m))
  {
    LotFeasible(m, i, symbol, at);
    m.OptimalFill(i);
    MatchWithinCap(m, i);
    LotVolumeCap(m, i.bar);
    LotPrices(m);
  }

  lemma LotUnmatched(m: AshareOpenMatcher, i: MatchInput, symbol: Symbol, at: Time)
    requires LotInput(m, i, symbol, at) && !CanFill(m, i.order, symbol)
    ensures m.Match(i) == Ok(None)
  {
    LotRespected(m, i, symbol, at);
    if m.Match(i).value.Some? {
      MatchWithinCap(m, i);
    }
  }

  /** Cash suffices for n lots either way and, if any are for sale, so does the position. */
  ghost predicate Stocked(m: AshareOpenMatcher, run: Run, symbol: Symbol, n: nat, sells: bool) {
    Worth(LotCash(m), n) <= run.ledger.cash && (sells ==> n * m.rules.lotSize <= run.ledger.PositionOf(symbol).quantity)
  }

  ghost predicate HasSell(orders: seq<BacktestOrder>) {
    exists i :: 0 <= i < |orders| && orders[i].side == Sell
  }

  lemma StockedLess(cash: NonNeg, lot: Pos, n: nat)
    ensures Worth(cash, n + 1) == cash + Worth(cash, n) && 0.0 <= Worth(cash, n)
    ensures (n + 1) * lot == lot + n * lot && 0 <= n * lot
  {
  }

  /** What the fill of a turn changes. */
  lemma TurnRecords(matcher: Matcher, session: MarketSession, order: BacktestOrder, run: Run)
    requires Ready(run, session.openAt) && Current(order, run, session.openAt)
    requires Quoted(session, order) && TurnRespectful(matcher, session, order, run)
    ensures FillOne(matcher, session, order, run).Ok?
    ensures var next, outcome := FillOne(matcher, session, order, run).value,
      matcher(TurnInput(session, order, run)).value;
      && Ready(next, session.openAt)
      && (outcome.None? ==> next.ledger == run.ledger)
      && (outcome.Some? ==> run.ledger.ApplyFill(outcome.value) == Ok(next.ledger))
  {
    var i := TurnInput(session, order, run);
    if matcher(i).value.Some? {
      RecordAccepted(i, matcher(i).value.value, run.(fillSequence := run.fillSequence + 1));
    }
  }

  lemma LotSpends(m: AshareOpenMatcher, run: Run, fill: Fill, after: Ledger, n: nat, sells: bool)
    requires Stocked(m, run, fill.symbol, n + 1, sells) && run.ledger.ApplyFill(fill) == Ok(after)
    requires fill.quantity == m.rules.lotSize
    requires fill.side == Buy ==> fill.Notional() + fill.fee <= LotCash(m)
    requires fill.side == Sell ==> fill.fee <= fill.Notional() + LotCash(m)
    ensures Worth(LotCash(m), n) <= after.cash
    ensures sells ==> n * m.rules.lotSize <= after.PositionOf(fill.symbol).quantity
    ensures Traded(after.fills, fill.symbol) == Traded(run.ledger.fills, fill.symbol) + m.rules.lotSize
  {
    StockedLess(LotCash(m), m.rules.lotSize, n);
    TradedAppend(run.ledger.fills, fill, fill.symbol);
  }

  /** One turn on that market: an order that can fill trades a lot, any other nothing. */
  lemma LotTurn(m: AshareOpenMatcher, order: BacktestOrder, run: Run, symbol: Symbol, at: Time, n: nat, sells: bool)
    requires Current(order, run, at) && Ready(run, at) && Stocked(m, run, symbol, n + 1, sells)
    requires order.side == Sell ==> sells
    ensures TurnRespectful(m.AsMatcher(), LotMarket(m, symbol, at), order, run)
    ensures var last := FillOne(m.AsMatcher(), LotMarket(m, symbol, at), order, run);
      && last.Ok? && Ready(last.value, at) && Stocked(m, last.value, symbol, n, sells)
      && Traded(last.value.ledger.fills, symbol)
         == Traded(run.ledger.fills, symbol) + if CanFill(m, order, symbol) then m.rules.lotSize else 0
  {
    var session := LotMarket(m, symbol, at);
    LotMarketQuotes(m, symbol, at);
    StockedLess(LotCash(m), m.rules.lotSize, n);
    if order.symbol == symbol {
      LotPosed(m, order, run, symbol, at);
      var i := TurnInput(session, order, run);
      assert m.AsMatcher()(i) == m.Match(i);
      LotRespected(m, i, symbol, at);
      TurnRecords(m.AsMatcher(), session, order, run);
      if CanFill(m, order, symbol) {
        LotMatched(m, i, symbol, at);
        LotSpends(m, run, m.Match(i).value.value, FillOne(m.AsMatcher(), session, order, run).value.ledger, n, sells);
      } else {
        LotUnmatched(m, i, symbol, at);
      }
    }
  }

  /** The orders are waiting on that market and stocked for. */
  ghost predicate LotQueue(m: AshareOpenMatcher, orders: seq<BacktestOrder>, run: Run, symbol: Symbol, at: Time) {
    Waiting(orders, run, at) && Ready(run, at) && Stocked(m, run, symbol, |orders|, HasSell(orders))
  }

  lemma LotQueueNext(m: AshareOpenMatcher, orders: seq<BacktestOrder>, run: Run, symbol: Symbol, at: Time)
    requires orders != [] && LotQueue(m, orders, run, symbol, at)
    ensures var last := FillOne(m.AsMatcher(), LotMarket(m, symbol, at), orders[0], run);
      && last.Ok? && LotQueue(m, orders[1..], last.value, symbol, at)
      && Traded(last.value.ledger.fills, symbol)
         == Traded(run.ledger.fills, symbol) + if CanFill(m, orders[0], symbol) then m.rules.lotSize else 0
  {
    assert Current(orders[0], run, at);
    LotTurn(m, orders[0], run, symbol, at, |orders| - 1, HasSell(orders));
    assert HasSell(orders[1..]) ==> HasSell(orders);
    StillWaiting(m.AsMatcher(), LotMarket(m, symbol, at), orders, run);
  }

  lemma {:induction false} LotsTraded(m: AshareOpenMatcher, orders: seq<BacktestOrder>, run: Run, symbol: Symbol,
      at: Time)
    requires LotQueue(m, orders, run, symbol, at)
    ensures var last := FillAll(m.AsMatcher(), LotMarket(m, symbol, at), orders, run);
      && last.Ok?
      && Traded(last.value.ledger.fills, symbol)
         == Traded(run.ledger.fills, symbol) + Fillable(m, orders, symbol) * m.rules.lotSize
    decreases |orders|
  {
    if orders != [] {
      LotQueueNext(m, orders, run, symbol, at);
      LotsTraded(m, orders[1..], FillOne(m.AsMatcher(), LotMarket(m, symbol, at), orders[0], run).value, symbol, at);
      CountShares(Candidate(m, symbol), orders, m.rules.lotSize);
    }
  }

  /** Orders as an order book lists them at an open: working, submitted before, each once. */
  ghost predicate Listed(orders: seq<BacktestOrder>, at: Time) {
    && (forall i :: 0 <= i < |orders| ==> orders[i].Active() && orders[i].submittedAt < at)
    && forall i, j :: 0 <= i < j < |orders| ==> orders[i].orderId != orders[j].orderId
  }

  /** A book that lists the orders. */
  ghost function BookOf(orders: seq<BacktestOrder>, at: Time): Book
    requires Listed(orders, at)
  {
    Book(seq(|orders|, i requires 0 <= i < |orders| => orders[i].orderId),
         map i | 0 <= i < |orders| :: orders[i].orderId := orders[i], {})
  }

  /** The book's i-th entry is the i-th order. */
  ghost predicate EntryIs(book: Book, orders: seq<BacktestOrder>, i: nat)
    requires i < |orders|
  {
    && i < |book.ids| && book.ids[i] == orders[i].orderId
    && orders[i].orderId in book.orders && book.orders[orders[i].orderId] == orders[i]
  }

  lemma BookFinds(orders: seq<BacktestOrder>, at: Time)
    requires Listed(orders, at)
    ensures BookOf(orders, at).Valid()
    ensures forall i :: 0 <= i < |orders| ==> EntryIs(BookOf(orders, at), orders, i)
  {
    var book := BookOf(orders, at);
    forall i | 0 <= i < |orders|
      ensures EntryIs(book, orders, i)
    {
      assert book.ids[i] == orders[i].orderId;
    }
    forall id
      ensures id in book.ids <==> id in book.orders
    {
      if id in book.ids {
        var i :| 0 <= i < |book.ids| && book.ids[i] == id;
        assert EntryIs(book, orders, i);
      }
      if id in book.orders {
        var i :| 0 <= i < |orders| && orders[i].orderId == id;
        assert book.ids[i] == id;
      }
    }
  }

  lemma {:induction false} BookLists(book: Book, orders: seq<BacktestOrder>, at: Time, n: nat)
    requires Listed(orders, at) && n <= |orders| == |book.ids|
    requires forall i :: 0 <= i < |orders| ==> EntryIs(book, orders, i)
    ensures book.EligibleAmong(n, at) == orders[..n]
  {
    if n > 0 {
      BookLists(book, orders, at, n - 1);
      assert EntryIs(book, orders, n - 1);
      assert orders[n - 1].Active() && orders[n - 1].submittedAt < at;
    }
  }

  /** A state that holds the orders, with cash and a position for all of them. */
  ghost function StockedRun(m: AshareOpenMatcher, orders: seq<BacktestOrder>, at: Time, symbol: Symbol): Run
    requires Listed(orders, at)
  {
    var cash := Worth(LotCash(m), |orders|);
    StockedLess(LotCash(m), m.rules.lotSize, |orders|);
    Run(BookOf(orders, at),
        Ledger(cash, cash, 0.0, map[symbol := PositionFields(symbol, |orders| * m.rules.lotSize, 0.0)], [], {}, None),
        [], [], [], 0, 0)
  }

  lemma StockedLists(m: AshareOpenMatcher, orders: seq<BacktestOrder>, at: Time, symbol: Symbol)
    requires Listed(orders, at)
    ensures Lists(StockedRun(m, orders, at, symbol), orders, at)
  {
    BookFinds(orders, at);
    BookLists(BookOf(orders, at), orders, at, |orders|);
    StockedLess(LotCash(m), m.rules.lotSize, |orders|);
  }

  lemma StockedQueue(m: AshareOpenMatcher, orders: seq<BacktestOrder>, at: Time, symbol: Symbol)
    requires Listed(orders, at)
    ensures LotQueue(m, orders, Started(LotMarket(m, symbol, at), StockedRun(m, orders, at, symbol)), symbol, at)
  {
    var run := Started(LotMarket(m, symbol, at), StockedRun(m, orders, at, symbol));
    BookFinds(orders, at);
    forall i | 0 <= i < |orders|
      ensures Current(orders[i], run, at)
    {
      assert EntryIs(BookOf(orders, at), orders, i);
    }
  }

  lemma CapExceeded(m: AshareOpenMatcher, orders: seq<BacktestOrder>, at: Time, symbol: Symbol)
    requires Listed(orders, at) && 2 <= Fillable(m, orders, symbol)
    ensures var session, run := LotMarket(m, symbol, at), StockedRun(m, orders, at, symbol);
      && session.Valid() && symbol in BarBySymbol(session.bars) && Lists(run, orders, at)
      && !OpenWithinCap(m, session, run, symbol)
  {
    LotMarketQuotes(m, symbol, at);
    StockedLists(m, orders, at, symbol);
    StockedQueue(m, orders, at, symbol);
    LotsTraded(m, orders, Started(LotMarket(m, symbol, at), StockedRun(m, orders, at, symbol)), symbol, at);
    TwoLots(Fillable(m, orders, symbol), m.rules.lotSize);
  }

  lemma TwoLots(count: nat, lot: Pos)
    requires 2 <= count
    ensures lot < count * lot
  {
    ProductMonotone(2, count, lot);
  }

  /** The cap on one order caps the session exactly when at most one order of the symbol can fill: then the
      orders trade at most the cap on every market; otherwise some market lets them exceed it. */
  lemma CapsSessionExactly(m: AshareOpenMatcher, orders: seq<BacktestOrder>, at: Time, symbol: Symbol)
    requires Listed(orders, at)
    ensures AlwaysWithinCap(m, orders, at, symbol) <==> Fillable(m, orders, symbol) <= 1
  {
    if Fillable(m, orders, symbol) <= 1 {
      forall session: MarketSession, run: Run |
        session.openAt == at && symbol in BarBySymbol(session.bars) && Lists(run, orders, at)
        ensures OpenWithinCap(m, session, run, symbol)
      {
        TradesPerCandidate(m, session, orders, Started(session, run), symbol);
      }
    } else {
      CapExceeded(m, orders, at, symbol);
      assert LotMarket(m, symbol, at).openAt == at;
    }
  }

  // The same in a run.

  /** Two days of that market. */
  function TwoDays(m: AshareOpenMatcher, symbol: Symbol): seq<MarketSession> {
    [LotMarket(m, symbol, 0).(tradeDate := -1), LotMarket(m, symbol, 2)]
  }

  /** At every close buys a lot of the symbol in each of two orders. */
  function BuysTwice(m: AshareOpenMatcher, symbol: Symbol): Strategy {
    (seen: seq<StrategyContext>) => [OrderRequest(symbol, Buy, m.rules.lotSize),
      OrderRequest(symbol, Buy, m.rules.lotSize)]
  }

  function TwoLotCash(m: AshareOpenMatcher): NonNeg {
    StockedLess(LotCash(m), m.rules.lotSize, 2);
    Worth(LotCash(m), 2)
  }

  function BuyOfLot(m: AshareOpenMatcher, symbol: Symbol, n: nat): BacktestOrder {
    NewOrder(Uuid(OrderId, n), OrderRequest(symbol, Buy, m.rules.lotSize), 1)
  }

  ghost predicate TwoOpen(m: AshareOpenMatcher, symbol: Symbol, run: Run) {
    var one, two := BuyOfLot(m, symbol, 1), BuyOfLot(m, symbol, 2);
    run.book == Book([one.orderId, two.orderId], map[one.orderId := one, two.orderId := two], {})
  }

  lemma TwoSubmitted(m: AshareOpenMatcher, symbol: Symbol, run: Run)
    requires run.book == EMPTY_BOOK && run.orderSequence == 0
    ensures var last := SubmitAll(BuysTwice(m, symbol)(run.contexts), 1, run);
      last.Ok? && TwoOpen(m, symbol, last.value)
  {
    var request := OrderRequest(symbol, Buy, m.rules.lotSize);
    var first := SubmitOne(request, 1, run).value;
    assert [request, request][1..] == [request] && [request][1..] == [];
    assert SubmitAll([request], 1, first) == SubmitOne(request, 1, first);
  }

  lemma TwoEligible(m: AshareOpenMatcher, symbol: Symbol, run: Run)
    requires TwoOpen(m, symbol, run)
    ensures run.book.Eligible(2) == [BuyOfLot(m, symbol, 1), BuyOfLot(m, symbol, 2)]
  {
    assert run.book.EligibleAmong(0, 2) == [];
    assert run.book.EligibleAmong(1, 2) == [BuyOfLot(m, symbol, 1)];
  }

  lemma TwoDaysValid(m: AshareOpenMatcher, symbol: Symbol)
    ensures ValidSessions(TwoDays(m, symbol))
  {
    assert FollowsAt(TwoDays(m, symbol), 0);
  }

  lemma FirstDayIs(m: AshareOpenMatcher, symbol: Symbol, cash: NonNeg) returns (closed: Run)
    ensures SessionStep(m.AsMatcher(), BuysTwice(m, symbol), TwoDays(m, symbol)[0], FirstRun(cash))
         == SubmitAll(BuysTwice(m, symbol)(closed.contexts), 1, closed)
    ensures closed.book == EMPTY_BOOK && closed.orderSequence == 0 && closed.ledger == EmptyLedger(cash)
  {
    var session, first := TwoDays(m, symbol)[0], FirstRun(cash);
    var started := Started(session, first);
    assert first.book.Eligible(0) == [];
    assert OpenStep(m.AsMatcher(), session, first) == Ok(started);
    SaneFirst(cash, session);
    CloseStepSane(cash, BuysTwice(m, symbol), session, started);
    closed := Closed(session, started.ledger.Snapshot(1, ClosePrices(session.bars)).value, started);
  }

  lemma SaneFirst(cash: NonNeg, session: MarketSession)
    ensures Sane(cash, Started(session, FirstRun(cash)), session.openAt)
  {
    FirstAgrees(cash);
    var first, started := FirstRun(cash), Started(session, FirstRun(cash));
    assert started.book == first.book && started.ledger == first.ledger && started.orderSequence == first.orderSequence;
  }

  /** After the first day both orders wait and nothing has been bought. */
  lemma FirstDayEnds(m: AshareOpenMatcher, symbol: Symbol, cash: NonNeg) returns (run: Run)
    ensures After(cash, m.AsMatcher(), BuysTwice(m, symbol), TwoDays(m, symbol), 1) == Ok(run)
    ensures TwoOpen(m, symbol, run) && run.ledger == EmptyLedger(cash)
  {
    var closed := FirstDayIs(m, symbol, cash);
    TwoSubmitted(m, symbol, closed);
    SubmitAllKeepsLedger(BuysTwice(m, symbol)(closed.contexts), 1, closed);
    AfterNext(cash, m.AsMatcher(), BuysTwice(m, symbol), TwoDays(m, symbol), 0);
    run := SubmitAll(BuysTwice(m, symbol)(closed.contexts), 1, closed).value;
  }

  lemma CountTwo(can: BacktestOrder -> bool, one: BacktestOrder, two: BacktestOrder)
    requires can(one) && can(two)
    ensures Count(can, [one, two]) == 2
  {
    assert [one, two][1..] == [two] && [two][1..] == [];
    assert Count(can, []) == 0;
    assert Count(can, [two]) == 1;
  }

  lemma TwoQueued(m: AshareOpenMatcher, symbol: Symbol, run: Run)
    requires TwoOpen(m, symbol, run) && run.ledger == EmptyLedger(TwoLotCash(m))
    ensures LotQueue(m, [BuyOfLot(m, symbol, 1), BuyOfLot(m, symbol, 2)], run, symbol, 2)
    ensures Fillable(m, [BuyOfLot(m, symbol, 1), BuyOfLot(m, symbol, 2)], symbol) == 2
  {
    var one, two := BuyOfLot(m, symbol, 1), BuyOfLot(m, symbol, 2);
    CountTwo(Candidate(m, symbol), one, two);
    assert Current(one, run, 2) && Current(two, run, 2);
  }

  /** Whatever the rules and fees, a run can trade twice the cap in one session: two buys of a lot each, in a
      symbol whose cap that day is one lot, both fill whole. */
  lemma RunExceedsCap(m: AshareOpenMatcher, symbol: Symbol)
    ensures ValidSessions(TwoDays(m, symbol)) && symbol in BarBySymbol(TwoDays(m, symbol)[1].bars)
    ensures m.VolumeCap(TwoDays(m, symbol)[1].bars[0]) == m.rules.lotSize
    ensures var before := After(TwoLotCash(m), m.AsMatcher(), BuysTwice(m, symbol), TwoDays(m, symbol), 1);
      && before.Ok?
      && var matched := OpenStep(m.AsMatcher(), TwoDays(m, symbol)[1], before.value);
         matched.Ok? && Traded(matched.value.ledger.fills, symbol) == 2 * m.rules.lotSize
  {
    TwoDaysValid(m, symbol);
    LotMarketQuotes(m, symbol, 2);
    var run := FirstDayEnds(m, symbol, TwoLotCash(m));
    var started := Started(LotMarket(m, symbol, 2), run);
    TwoEligible(m, symbol, run);
    TwoQueued(m, symbol, started);
    LotsTraded(m, [BuyOfLot(m, symbol, 1), BuyOfLot(m, symbol, 2)], started, symbol, 2);
  }
}
