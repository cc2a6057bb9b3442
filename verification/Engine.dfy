/** The event-driven engine: it drains the session queue and updates the order book and the
    ledger in place, and returns exactly the fold over sessions. */
module Engine {
  import opened Wrappers
  import opened Market
  import opened Orders
  import opened Ledger
  import opened Matching
  import opened Backtest
  import opened EventQueue
  import opened Folding

  datatype SessionEvent = Opening(openDate: Date) | Closing(closeDate: Date) {
    function TradeDate(): Date {
      if Opening? then openDate else closeDate
    }
  }

  /** The loop's own variables: what has been logged and how many identifiers were issued. */
  datatype Log = Log(
    events: seq<BacktestEvent>, equity: seq<PortfolioSnapshot>, contexts: seq<StrategyContext>,
    orderSequence: nat, fillSequence: nat)

  ghost function RunOf(book: Book, ledger: Ledger, log: Log): Backtest.Run {
    Backtest.Run(book, ledger, log.events, log.equity, log.contexts, log.orderSequence, log.fillSequence)
  }

  const EMPTY_LOG := Log([], [], [], 0, 0)
  const OPEN_PRIORITY := 10
  const CLOSE_PRIORITY := 40

  /** The k-th event of the schedule: sessions alternate open and close. */
  function Entry(sessions: seq<MarketSession>, k: nat): Scheduled<SessionEvent>
    requires k < 2 * |sessions|
  {
    var session := sessions[k / 2];
    if k % 2 == 0 then Scheduled(session.openAt, OPEN_PRIORITY, k, Opening(session.tradeDate))
    else Scheduled(session.closeAt, CLOSE_PRIORITY, k, Closing(session.tradeDate))
  }

  ghost function Entries(sessions: seq<MarketSession>, from: nat, upTo: nat): seq<Scheduled<SessionEvent>>
    requires from <= upTo <= 2 * |sessions|
  {
    seq(upTo - from, i requires 0 <= i < upTo - from => Entry(sessions, from + i))
  }

  /** The queue holds exactly the schedule from its k-th event on. */
  ghost predicate Pending(sessions: seq<MarketSession>, k: nat, heap: seq<Scheduled<SessionEvent>>) {
    k <= 2 * |sessions| && heap == Entries(sessions, k, 2 * |sessions|)
  }

  lemma PendingEmpty(sessions: seq<MarketSession>, k: nat, heap: seq<Scheduled<SessionEvent>>)
    requires Pending(sessions, k, heap)
    ensures heap == [] <==> k == 2 * |sessions|
  {
    assert |heap| == 2 * |sessions| - k;
  }

  lemma EntriesInOrder(sessions: seq<MarketSession>, a: nat, b: nat)
    requires ValidSessions(sessions) && a < b < 2 * |sessions|
    ensures Before(Entry(sessions, a), Entry(sessions, b))
  {
    var i, j := a / 2, b / 2;
    assert sessions[i].Valid() && sessions[j].Valid();
    if i < j {
      EarlierCloses(sessions, i, j);
    }
  }

  /** Whatever a queue holding the rest of the schedule pops is the next event of the schedule. */
  lemma PopIsNext(sessions: seq<MarketSession>, k: nat, heap: seq<Scheduled<SessionEvent>>, at: nat,
      after: seq<Scheduled<SessionEvent>>)
    requires ValidSessions(sessions) && k < 2 * |sessions|
    requires heap == Entries(sessions, k, 2 * |sessions|)
    requires at < |heap| && after == heap[..at] + heap[at + 1..]
    requires forall i :: 0 <= i < |after| ==> Before(heap[at], after[i])
    ensures heap[at] == Entry(sessions, k)
    ensures after == Entries(sessions, k + 1, 2 * |sessions|)
  {
    if at != 0 {
      assert after[0] == Entry(sessions, k);
      EntriesInOrder(sessions, k, k + at);
    }
  }

  /** The first n sessions by trade date; a later session replaces an earlier one of the same date. */
  function SessionByDate(sessions: seq<MarketSession>, n: nat): map<Date, MarketSession>
    requires n <= |sessions|
  {
    if n == 0 then map[]
    else SessionByDate(sessions, n - 1)[sessions[n - 1].tradeDate := sessions[n - 1]]
  }

  lemma {:induction false} SessionByDateFinds(sessions: seq<MarketSession>, i: nat, n: nat)
    requires ValidSessions(sessions) && i < n <= |sessions|
    ensures sessions[i].tradeDate in SessionByDate(sessions, n)
    ensures SessionByDate(sessions, n)[sessions[i].tradeDate] == sessions[i]
    decreases n
  {
    if i < n - 1 {
      SessionByDateFinds(sessions, i, n - 1);
      EarlierCloses(sessions, i, n - 1);
    }
  }

  class EventDrivenBacktest {
    const initialCash: NonNeg
    const matcher: Matcher

    constructor (initialCash: NonNeg, matcher: Matcher)
      ensures this.initialCash == initialCash && this.matcher == matcher
    {
      this.initialCash, this.matcher := initialCash, matcher;
    }

    method ScheduleSessions(sessions: seq<MarketSession>) returns (queue: EventQueue<SessionEvent>)
      requires ValidSessions(sessions)
      ensures fresh(queue) && queue.Valid() && Pending(sessions, 0, queue.heap)
    {
      queue := new EventQueue();
      for i := 0 to |sessions|
        invariant fresh(queue) && queue.Valid() && queue.lastPoppedAt == None
        invariant queue.nextSequence == 2 * i
        invariant queue.heap == Entries(sessions, 0, 2 * i)
      {
        var opening := queue.Push(Opening(sessions[i].tradeDate), sessions[i].openAt, OPEN_PRIORITY);
        assert opening.value == Entry(sessions, 2 * i);
        var closing := queue.Push(Closing(sessions[i].tradeDate), sessions[i].closeAt, CLOSE_PRIORITY);
        assert closing.value == Entry(sessions, 2 * i + 1);
      }
    }

    /** The matching loop of one open. */
    method MatchAtOpen(session: MarketSession, book: OrderBook, ledger: PortfolioLedger,
                       events: seq<BacktestEvent>, fillSequence: nat, ghost run: Run)
      returns (r: Result<(seq<BacktestEvent>, nat), BacktestError>)
      requires run.book == book.State() && run.ledger == ledger.State()
      requires run.events == events && run.fillSequence == fillSequence
      modifies book, ledger
      ensures r.Ok? ==>
        OpenStep(matcher, session, run)
        == Ok(run.(book := book.State(), ledger := ledger.State(), events := r.value.0, fillSequence := r.value.1))
      ensures r.Err? ==> OpenStep(matcher, session, run) == Err(r.error)
    {
      var events', sequence := events + [SessionOpenEvent(session.tradeDate, session.openAt)], fillSequence;
      var orders := book.EligibleOrders(session.openAt);
      var bars, statuses := BarBySymbol(session.bars), StatusBySymbol(session.statuses);
      for i := 0 to |orders|
        invariant OpenStep(matcher, session, run) == FillAll(matcher, session, orders[i..],
          run.(book := book.State(), ledger := ledger.State(), events := events', fillSequence := sequence))
      {
        var order := orders[i];
        ghost var current :=
          run.(book := book.State(), ledger := ledger.State(), events := events', fillSequence := sequence);
        assert orders[i..][0] == order && orders[i..][1..] == orders[i + 1..];
        if order.symbol !in bars {
          continue;
        }
        var bar := bars[order.symbol];
        var maximum := if order.side == Sell then ledger.PositionOf(order.symbol).quantity
                       else (ledger.cash / bar.open).Floor;
        sequence := sequence + 1;
        var input := MatchInput(order, bar, session.openAt, Uuid(FillId, sequence), Some(maximum), Some(ledger.cash),
          if order.symbol in statuses then Some(statuses[order.symbol]) else None);
        assert input == InputFor(session, order, bar, current);
        var outcome := matcher(input);
        if outcome.Err? {
          return Err(outcome.error);
        }
        if outcome.value.None? {
          continue;
        }
        var recorded := RecordFill(outcome.value.value, book, ledger, current.(fillSequence := sequence));
        if recorded.Err? {
          return Err(recorded.error);
        }
        events' := events' + [FillEvent(outcome.value.value)];
      }
      return Ok((events', sequence));
    }

    method RecordFill(fill: Fill, book: OrderBook, ledger: PortfolioLedger, ghost run: Run)
      returns (r: Result<(), BacktestError>)
      requires run.book == book.State() && run.ledger == ledger.State()
      modifies book, ledger
      ensures r.Ok? ==>
        Record(fill, run)
        == Ok(run.(book := book.State(), ledger := ledger.State(), events := run.events + [FillEvent(fill)]))
      ensures r.Err? ==> Record(fill, run) == Err(r.error)
    {
      var inBook := book.ValidateFill(fill);
      if inBook.Err? {
        return Err(inBook.error);
      }
      var inLedger := ledger.ValidateFill(fill);
      if inLedger.Err? {
        return inLedger;
      }
      var booked := book.ApplyFill(fill);
      r := ledger.ApplyFill(fill);
    }

    /** The submission loop of one close. */
    method SubmitRequests(requests: seq<OrderRequest>, at: Time, book: OrderBook, events: seq<BacktestEvent>,
                          orderSequence: nat, ghost run: Run)
      returns (r: Result<(seq<BacktestEvent>, nat), BacktestError>)
      requires run.book == book.State() && run.events == events && run.orderSequence == orderSequence
      modifies book
      ensures r.Ok? ==>
        SubmitAll(requests, at, run) == Ok(run.(book := book.State(), events := r.value.0, orderSequence := r.value.1))
      ensures r.Err? ==> SubmitAll(requests, at, run) == Err(r.error)
    {
      var events', sequence := events, orderSequence;
      for i := 0 to |requests|
        invariant SubmitAll(requests, at, run) == SubmitAll(requests[i..], at,
          run.(book := book.State(), events := events', orderSequence := sequence))
      {
        assert requests[i..][0] == requests[i] && requests[i..][1..] == requests[i + 1..];
        sequence := sequence + 1;
        var order := NewOrder(Uuid(OrderId, sequence), requests[i], at);
        var submitted := book.Submit(order);
        if submitted.Err? {
          return Err(submitted.error);
        }
        events' := events' + [OrderSubmittedEvent(order)];
      }
      return Ok((events', sequence));
    }

    /** Marking, the strategy's decision, and its submissions at one close. */
    method DecideAtClose(session: MarketSession, strategy: Strategy, book: OrderBook, ledger: PortfolioLedger,
                         log: Log, ghost run: Run)
      returns (r: Result<Log, BacktestError>)
      requires run == RunOf(book.State(), ledger.State(), log)
      modifies book
      ensures r.Ok? ==> CloseStep(strategy, session, run) == Ok(RunOf(book.State(), ledger.State(), r.value))
      ensures r.Err? ==> CloseStep(strategy, session, run) == Err(r.error)
    {
      var marked := ledger.Snapshot(session.closeAt, ClosePrices(session.bars));
      if marked.Err? {
        return Err(marked.error);
      }
      var events := log.events + [SessionCloseEvent(session.tradeDate, session.closeAt)];
      var equity := log.equity + [marked.value];
      var contexts := log.contexts + [StrategyContext(session, marked.value)];
      ghost var closed := run.(events := events, equity := equity, contexts := contexts);
      var submitted := SubmitRequests(strategy(contexts), session.closeAt, book, events, log.orderSequence, closed);
      if submitted.Err? {
        return Err(submitted.error);
      }
      return Ok(Log(submitted.value.0, equity, contexts, submitted.value.1, log.fillSequence));
    }

    static method CheckSessions(sessions: seq<MarketSession>) returns (r: Result<(), BacktestError>)
      ensures r == ValidateSessions(sessions)
    {
      if sessions == [] {
        return Err(NoSessions);
      }
      for i := 0 to |sessions| - 1
        invariant forall j :: 0 <= j < i ==> FollowsAt(sessions, j)
      {
        if !FollowsAt(sessions, i) {
          return Err(SessionsNotChronological);
        }
      }
      return Ok(());
    }

    static method SubmittedOrders(book: OrderBook) returns (r: seq<BacktestOrder>)
      ensures r == OrdersOf(book.State(), |book.State().ids|)
    {
      r := [];
      for n := 0 to |book.ids|
        invariant r == OrdersOf(book.State(), n)
      {
        if book.ids[n] in book.orders {
          r := r + [book.orders[book.ids[n]]];
        }
      }
    }

    method NextEvent(queue: EventQueue<SessionEvent>, sessions: seq<MarketSession>,
                     sessionByDate: map<Date, MarketSession>, ghost k: nat)
      returns (event: SessionEvent, session: MarketSession)
      requires ValidSessions(sessions) && sessionByDate == SessionByDate(sessions, |sessions|)
      requires queue.Valid() && k < 2 * |sessions| && Pending(sessions, k, queue.heap)
      modifies queue
      ensures queue.Valid() && Pending(sessions, k + 1, queue.heap)
      ensures session == sessions[k / 2] && (event.Opening? <==> k % 2 == 0)
    {
      ghost var heap := queue.heap;
      var popped := queue.Pop();
      ghost var at :| 0 <= at < |heap| && popped.value == heap[at] && queue.heap == heap[..at] + heap[at + 1..];
      PopIsNext(sessions, k, heap, at, queue.heap);
      SessionByDateFinds(sessions, k / 2, |sessions|);
      event := popped.value.event;
      session := sessionByDate[event.TradeDate()];
    }

    method HandleNext(sessions: seq<MarketSession>, sessionByDate: map<Date, MarketSession>, strategy: Strategy,
                      queue: EventQueue<SessionEvent>, book: OrderBook, ledger: PortfolioLedger, log: Log,
                      ghost k: nat, ghost run: Run)
      returns (r: Result<Log, BacktestError>)
      requires ValidSessions(sessions) && sessionByDate == SessionByDate(sessions, |sessions|)
      requires queue.Valid() && k < 2 * |sessions| && Pending(sessions, k, queue.heap)
      requires run == RunOf(book.State(), ledger.State(), log)
      modifies queue, book, ledger
      ensures queue.Valid() && Pending(sessions, k + 1, queue.heap)
      ensures var half := Half(OpenFold(matcher), CloseFold(strategy), sessions, k, run);
        if r.Ok? then half == Ok(RunOf(book.State(), ledger.State(), r.value)) else half == Err(r.error)
    {
      var event, session := NextEvent(queue, sessions, sessionByDate, k);
      if event.Opening? {
        var matched := MatchAtOpen(session, book, ledger, log.events, log.fillSequence, run);
        r := if matched.Err? then Err(matched.error)
             else Ok(log.(events := matched.value.0, fillSequence := matched.value.1));
      } else {
        r := DecideAtClose(session, strategy, book, ledger, log, run);
      }
    }

    /** The event loop. */
    method Drain(sessions: seq<MarketSession>, strategy: Strategy, queue: EventQueue<SessionEvent>,
                 book: OrderBook, ledger: PortfolioLedger)
      returns (r: Result<Log, BacktestError>, ghost trace: seq<Run>)
      requires ValidSessions(sessions) && queue.Valid() && Pending(sessions, 0, queue.heap)
      requires RunOf(book.State(), ledger.State(), EMPTY_LOG) == FirstRun(initialCash)
      modifies queue, book, ledger
      ensures IsTrace(OpenFold(matcher), CloseFold(strategy), FirstRun(initialCash), sessions, trace)
      ensures r.Ok? ==>
        |trace| == 2 * |sessions| + 1 && trace[|trace| - 1] == RunOf(book.State(), ledger.State(), r.value)
      ensures r.Err? ==> |trace| <= 2 * |sessions|
      ensures r.Err? ==>
        Half(OpenFold(matcher), CloseFold(strategy), sessions, |trace| - 1, trace[|trace| - 1]) == Err(r.error)
    {
      var sessionByDate := SessionByDate(sessions, |sessions|);
      var log := EMPTY_LOG;
      ghost var open, close, first := OpenFold(matcher), CloseFold(strategy), FirstRun(initialCash);
      trace := [first];
      while queue.heap != []
        invariant IsTrace(open, close, first, sessions, trace)
        invariant trace[|trace| - 1] == RunOf(book.State(), ledger.State(), log)
        invariant queue.Valid() && Pending(sessions, |trace| - 1, queue.heap)
        decreases 2 * |sessions| - |trace|
      {
        ghost var k := |trace| - 1;
        PendingEmpty(sessions, k, queue.heap);
        r := HandleNext(sessions, sessionByDate, strategy, queue, book, ledger, log, k, trace[k]);
        if r.Err? {
          return;
        }
        log := r.value;
        ExtendTrace(open, close, first, sessions, trace, RunOf(book.State(), ledger.State(), log));
        trace := trace + [RunOf(book.State(), ledger.State(), log)];
      }
      PendingEmpty(sessions, |trace| - 1, queue.heap);
      r := Ok(log);
    }

    /** Running the engine on its queue is the left fold over the sessions. */
    method Run(sessions: seq<MarketSession>, strategy: Strategy) returns (r: Result<BacktestResult, BacktestError>)
      requires forall i :: 0 <= i < |sessions| ==> sessions[i].Valid()
      ensures r == Outcome(initialCash, matcher, strategy, sessions)
    {
      var checked := CheckSessions(sessions);
      if checked.Err? {
        return Err(checked.error);
      }
      var queue := ScheduleSessions(sessions);
      var book := new OrderBook();
      var ledger := new PortfolioLedger(initialCash);
      var drained, trace := Drain(sessions, strategy, queue, book, ledger);
      SessionComposes(matcher, strategy);
      TraceDecides(SessionFold(matcher, strategy), OpenFold(matcher), CloseFold(strategy),
        FirstRun(initialCash), sessions, trace);
      if drained.Err? {
        return Err(drained.error);
      }
      var orders := SubmittedOrders(book);
      return Ok(BacktestResult(drained.value.events, orders, ledger.fills, drained.value.equity));
    }
  }
}
