/** The meaning of a backtest: a left fold of "match at the open, decide at the close"
    over the sessions. The event-driven engine is proved to compute exactly this. */
module Backtest {
  import opened Wrappers
  import opened Market
  import opened Orders
  import opened Ledger
  import opened Matching
  import opened Folding

  datatype StrategyContext = StrategyContext(session: MarketSession, portfolio: PortfolioSnapshot)

  /** A strategy decides from the contexts it has seen so far, the current one last. */
  type Strategy = seq<StrategyContext> -> seq<OrderRequest>

  datatype BacktestEvent =
    | SessionOpenEvent(tradeDate: Date, openedAt: Time)
    | SessionCloseEvent(tradeDate: Date, closedAt: Time)
    | FillEvent(fill: Fill)
    | OrderSubmittedEvent(order: BacktestOrder)
  {
    function OccurredAt(): Time {
      match this
      case SessionOpenEvent(_, at) => at
      case SessionCloseEvent(_, at) => at
      case FillEvent(fill) => fill.occurredAt
      case OrderSubmittedEvent(order) => order.submittedAt
    }
  }

  datatype BacktestResult = BacktestResult(
    events: seq<BacktestEvent>, orders: seq<BacktestOrder>, fills: seq<Fill>, equityCurve: seq<PortfolioSnapshot>)

  datatype Run = Run(
    book: Book, ledger: Ledger, events: seq<BacktestEvent>, equity: seq<PortfolioSnapshot>,
    contexts: seq<StrategyContext>, orderSequence: nat, fillSequence: nat)

  type Step = Result<Run, BacktestError>

  function FirstRun(initialCash: NonNeg): Run {
    Run(EMPTY_BOOK, EmptyLedger(initialCash), [], [], [], 0, 0)
  }

  function MaximumExecutable(order: BacktestOrder, price: Price, ledger: Ledger): int {
    if order.side == Sell then ledger.PositionOf(order.symbol).quantity
    else (ledger.cash / price).Floor
  }

  function InputFor(session: MarketSession, order: BacktestOrder, bar: DailyBar, run: Run): MatchInput {
    var statuses := StatusBySymbol(session.statuses);
    MatchInput(order, bar, session.openAt, Uuid(FillId, run.fillSequence + 1),
               Some(MaximumExecutable(order, bar.open, run.ledger)), Some(run.ledger.cash),
               if order.symbol in statuses then Some(statuses[order.symbol]) else None)
  }

  /** A fill enters both stores, or neither and the run stops. */
  function Record(fill: Fill, run: Run): Step {
    var _ :- run.book.ValidateFill(fill);
    var _ :- run.ledger.ValidateFill(fill);
    var book :- run.book.ApplyFill(fill);
    var ledger :- run.ledger.ApplyFill(fill);
    Ok(run.(book := book, ledger := ledger, events := run.events + [FillEvent(fill)]))
  }

  function FillOne(matcher: Matcher, session: MarketSession, order: BacktestOrder, run: Run): Step {
    var bars := BarBySymbol(session.bars);
    if order.symbol !in bars then Ok(run)
    else
      var outcome :- matcher(InputFor(session, order, bars[order.symbol], run));
      var counted := run.(fillSequence := run.fillSequence + 1);
      if outcome.None? then Ok(counted) else Record(outcome.value, counted)
  }

  function FillAll(matcher: Matcher, session: MarketSession, orders: seq<BacktestOrder>, run: Run): Step {
    if orders == [] then Ok(run)
    else
      var next :- FillOne(matcher, session, orders[0], run);
      FillAll(matcher, session, orders[1..], next)
  }

  function Started(session: MarketSession, run: Run): Run {
    run.(events := run.events + [SessionOpenEvent(session.tradeDate, session.openAt)])
  }

  function OpenStep(matcher: Matcher, session: MarketSession, run: Run): Step {
    FillAll(matcher, session, run.book.Eligible(session.openAt), Started(session, run))
  }

  function SubmitOne(request: OrderRequest, at: Time, run: Run): Step {
    var order := NewOrder(Uuid(OrderId, run.orderSequence + 1), request, at);
    var book :- run.book.Submit(order);
    Ok(run.(book := book, events := run.events + [OrderSubmittedEvent(order)],
            orderSequence := run.orderSequence + 1))
  }

  function SubmitAll(requests: seq<OrderRequest>, at: Time, run: Run): Step {
    if requests == [] then Ok(run)
    else
      var next :- SubmitOne(requests[0], at, run);
      SubmitAll(requests[1..], at, next)
  }

  function ClosePrices(bars: seq<DailyBar>): (prices: map<Symbol, real>) {
    map s | s in BarBySymbol(bars) :: BarBySymbol(bars)[s].close
  }

  ghost function CloseStep(strategy: Strategy, session: MarketSession, run: Run): Step {
    var snapshot :- run.ledger.Snapshot(session.closeAt, ClosePrices(session.bars));
    var closed := Closed(session, snapshot, run);
    SubmitAll(strategy(closed.contexts), session.closeAt, closed)
  }

  function Closed(session: MarketSession, snapshot: PortfolioSnapshot, run: Run): Run {
    run.(events := run.events + [SessionCloseEvent(session.tradeDate, session.closeAt)],
         equity := run.equity + [snapshot], contexts := run.contexts + [StrategyContext(session, snapshot)])
  }

  ghost function SessionStep(matcher: Matcher, strategy: Strategy, session: MarketSession, run: Run): Step {
    var started :- OpenStep(matcher, session, run);
    CloseStep(strategy, session, started)
  }

  ghost function SessionFold(matcher: Matcher, strategy: Strategy): FoldStep<MarketSession, Run, BacktestError> {
    (session, run) => SessionStep(matcher, strategy, session, run)
  }

  ghost function OpenFold(matcher: Matcher): FoldStep<MarketSession, Run, BacktestError> {
    (session, run) => OpenStep(matcher, session, run)
  }

  ghost function CloseFold(strategy: Strategy): FoldStep<MarketSession, Run, BacktestError> {
    (session, run) => CloseStep(strategy, session, run)
  }

  lemma SessionComposes(matcher: Matcher, strategy: Strategy)
    ensures Composes(SessionFold(matcher, strategy), OpenFold(matcher), CloseFold(strategy))
  {
  }

  /** The state after the first n sessions. */
  ghost function After(
    initialCash: NonNeg, matcher: Matcher, strategy: Strategy, sessions: seq<MarketSession>, n: nat): Step
    requires n <= |sessions|
  {
    Fold(SessionFold(matcher, strategy), FirstRun(initialCash), sessions, n)
  }

  /** One more session steps from the state before it, or keeps the error. */
  lemma AfterNext(initialCash: NonNeg, matcher: Matcher, strategy: Strategy, sessions: seq<MarketSession>, k: nat)
    requires k < |sessions|
    ensures var before := After(initialCash, matcher, strategy, sessions, k);
      After(initialCash, matcher, strategy, sessions, k + 1)
      == if before.Ok? then SessionStep(matcher, strategy, sessions[k], before.value) else before
  {
  }

  predicate Follows(previous: MarketSession, current: MarketSession) {
    previous.tradeDate < current.tradeDate && previous.closeAt < current.openAt
  }

  predicate Chronological(sessions: seq<MarketSession>) {
    forall i :: 0 <= i < |sessions| - 1 ==> FollowsAt(sessions, i)
  }

  predicate FollowsAt(sessions: seq<MarketSession>, i: nat)
    requires i + 1 < |sessions|
  {
    Follows(sessions[i], sessions[i + 1])
  }

  function ValidateSessions(sessions: seq<MarketSession>): Result<(), BacktestError> {
    if sessions == [] then Err(NoSessions)
    else if !Chronological(sessions) then Err(SessionsNotChronological)
    else Ok(())
  }

  ghost predicate ValidSessions(sessions: seq<MarketSession>) {
    Chronological(sessions) && forall i :: 0 <= i < |sessions| ==> sessions[i].Valid()
  }

  function OrdersOf(book: Book, n: nat): seq<BacktestOrder>
    requires n <= |book.ids|
  {
    if n == 0 then []
    else OrdersOf(book, n - 1) + if book.ids[n - 1] in book.orders then [book.orders[book.ids[n - 1]]] else []
  }

  function ResultOf(run: Run): BacktestResult {
    BacktestResult(run.events, OrdersOf(run.book, |run.book.ids|), run.ledger.fills, run.equity)
  }

  /** What a whole backtest returns. */
  ghost function Outcome(initialCash: NonNeg, matcher: Matcher, strategy: Strategy, sessions: seq<MarketSession>)
    : Result<BacktestResult, BacktestError>
  {
    var _ :- ValidateSessions(sessions);
    Report(After(initialCash, matcher, strategy, sessions, |sessions|))
  }

  function Report(last: Step): Result<BacktestResult, BacktestError> {
    var run :- last;
    Ok(ResultOf(run))
  }

  /** An earlier session closes before a later one opens, and its date is smaller. */
  lemma {:induction false} EarlierCloses(sessions: seq<MarketSession>, i: nat, j: nat)
    requires ValidSessions(sessions) && i < j < |sessions|
    ensures sessions[i].closeAt < sessions[j].openAt && sessions[i].tradeDate < sessions[j].tradeDate
    decreases j
  {
    if i + 1 < j {
      EarlierCloses(sessions, i, j - 1);
      assert sessions[j - 1].Valid();
    }
    assert FollowsAt(sessions, j - 1);
  }
}
