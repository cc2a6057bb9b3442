/** Sessions in which at most one order works: it fills whole at the open, and the close submits the next. */
module SingleOrder {
  import opened Wrappers
  import opened Market
  import opened Orders
  import opened Matching
  import opened Backtest
  import opened StoreAgreement
  import opened RunSafety

  ghost predicate Idle(run: Run) {
    forall id :: id in run.book.orders ==> !run.book.orders[id].Active()
  }

  /** The order is the only one still working. */
  ghost predicate OnlyWorking(run: Run, order: BacktestOrder) {
    && order.orderId in run.book.orders && run.book.orders[order.orderId] == order && order.Active()
    && forall id :: id in run.book.orders && id != order.orderId ==> !run.book.orders[id].Active()
  }

  lemma OnlyEligible(run: Run, order: BacktestOrder, at: Time)
    requires run.book.Valid() && OnlyWorking(run, order) && order.submittedAt < at
    ensures run.book.Eligible(at) == [order]
  {
    var eligible := run.book.Eligible(at);
    EligibleMeaning(run.book, |run.book.ids|, at);
    assert order.orderId in run.book.ids;
    assert order in eligible;
    forall i | 0 <= i < |eligible|
      ensures eligible[i] == order
    {
      assert eligible[i] in eligible;
    }
    assert !(1 < |eligible| && eligible[0].orderId == eligible[1].orderId);
  }

  lemma {:induction false} NoneEligible(run: Run, n: nat, at: Time)
    requires Idle(run) && n <= |run.book.ids|
    ensures run.book.EligibleAmong(n, at) == []
  {
    if n > 0 {
      NoneEligible(run, n - 1, at);
    }
  }

  lemma OneTurn(matcher: Matcher, session: MarketSession, order: BacktestOrder, run: Run)
    requires run.book.Eligible(session.openAt) == [order]
    ensures OpenStep(matcher, session, run) == FillOne(matcher, session, order, Started(session, run))
  {
    var next := FillOne(matcher, session, order, Started(session, run));
    assert [order][1..] == [];
    if next.Ok? {
      assert FillAll(matcher, session, [order][1..], next.value) == next;
    }
  }

  lemma FilledIdle(run: Run, order: BacktestOrder, fill: Fill, next: Run)
    requires run.book.Valid() && OnlyWorking(run, order) && fill.orderId == order.orderId
    requires fill.quantity == order.Remaining() && run.book.ApplyFill(fill) == Ok(next.book)
    ensures Idle(next)
  {
    FillAdvancesOneOrder(run.book, fill);
  }

  lemma TurnRecords(matcher: Matcher, session: MarketSession, order: BacktestOrder, run: Run, fill: Fill)
    requires run.book.Valid() && Quoted(session, order) && FillOne(matcher, session, order, run).Ok?
    requires matcher(TurnInput(session, order, run)) == Ok(Some(fill))
    ensures var next := FillOne(matcher, session, order, run).value;
      && run.book.ApplyFill(fill) == Ok(next.book) && run.ledger.ApplyFill(fill) == Ok(next.ledger)
      && next.contexts == run.contexts
  {
    RecordEffect(fill, run.(fillSequence := run.fillSequence + 1));
  }

  lemma TurnFills(cash: NonNeg, matcher: Matcher, session: MarketSession, order: BacktestOrder, run: Run, fill: Fill)
    requires Sane(cash, run, session.openAt) && OnlyWorking(run, order) && order.submittedAt < session.openAt
    requires Quoted(session, order) && matcher(TurnInput(session, order, run)) == Ok(Some(fill))
    requires TurnRespectful(matcher, session, order, run) && fill.quantity == order.Remaining()
    ensures var last := FillOne(matcher, session, order, run);
      && last.Ok? && Sane(cash, last.value, session.openAt) && Idle(last.value) && last.value.contexts == run.contexts
      && run.ledger.ApplyFill(fill) == Ok(last.value.ledger)
  {
    FillOneSane(cash, matcher, session, order, run);
    TurnRecords(matcher, session, order, run, fill);
    FilledIdle(run, order, fill, FillOne(matcher, session, order, run).value);
  }

  lemma StartedSane(cash: NonNeg, session: MarketSession, run: Run)
    requires Sane(cash, run, session.openAt)
    ensures Sane(cash, Started(session, run), session.openAt)
  {
    StartedAgrees(cash, session, run);
  }

  lemma StartedAgrees(cash: NonNeg, session: MarketSession, run: Run)
    requires Agreement(cash, run)
    ensures Agreement(cash, Started(session, run))
  {
    var started := Started(session, run);
    assert started.book == run.book && started.ledger == run.ledger && started.orderSequence == run.orderSequence;
  }

  lemma StartedTurn(matcher: Matcher, session: MarketSession, order: BacktestOrder, run: Run)
    requires Quoted(session, order) && TurnRespectful(matcher, session, order, run)
    ensures TurnInput(session, order, Started(session, run)) == TurnInput(session, order, run)
    ensures TurnRespectful(matcher, session, order, Started(session, run))
  {
  }

  /** An open that fills its only working order whole leaves nothing working. */
  lemma OpenFills(cash: NonNeg, matcher: Matcher, session: MarketSession, order: BacktestOrder, run: Run, fill: Fill)
    requires Sane(cash, run, session.openAt) && OnlyWorking(run, order) && order.submittedAt < session.openAt
    requires Quoted(session, order) && matcher(TurnInput(session, order, run)) == Ok(Some(fill))
    requires TurnRespectful(matcher, session, order, run) && fill.quantity == order.Remaining()
    ensures var last := OpenStep(matcher, session, run);
      && last.Ok? && Sane(cash, last.value, session.openAt) && Idle(last.value) && last.value.contexts == run.contexts
      && run.ledger.ApplyFill(fill) == Ok(last.value.ledger)
  {
    var started := Started(session, run);
    OnlyEligible(run, order, session.openAt);
    OneTurn(matcher, session, order, run);
    StartedSane(cash, session, run);
    StartedTurn(matcher, session, order, run);
    TurnFills(cash, matcher, session, order, started, fill);
  }

  lemma OneRequest(request: OrderRequest, at: Time, run: Run)
    requires run.book.Valid() && Idle(run) && Uuid(OrderId, run.orderSequence + 1) !in run.book.orders
    ensures var last := SubmitAll([request], at, run);
      && last.Ok? && OnlyWorking(last.value, NewOrder(Uuid(OrderId, run.orderSequence + 1), request, at))
      && last.value.contexts == run.contexts
  {
    assert [request][1..] == [];
    var last := SubmitOne(request, at, run);
    assert SubmitAll([request][1..], at, last.value) == last;
  }

  lemma CloseIs(strategy: Strategy, session: MarketSession, run: Run, request: OrderRequest) returns (closed: Run)
    requires CloseStep(strategy, session, run).Ok?
    requires forall context :: strategy(run.contexts + [context]) == [request]
    ensures CloseStep(strategy, session, run) == SubmitAll([request], session.closeAt, closed)
    ensures closed.book == run.book && closed.orderSequence == run.orderSequence
      && |closed.contexts| == |run.contexts| + 1
  {
    var snapshot := run.ledger.Snapshot(session.closeAt, ClosePrices(session.bars));
    closed := Closed(session, snapshot.value, run);
    assert strategy(closed.contexts) == [request];
  }

  lemma FreshId(cash: NonNeg, run: Run, t: Time)
    requires Sane(cash, run, t)
    ensures run.book.Valid() && Uuid(OrderId, run.orderSequence + 1) !in run.book.orders
  {
  }

  /** A close that marks everything and submits one order leaves that order working. */
  lemma CloseSubmits(cash: NonNeg, strategy: Strategy, session: MarketSession, run: Run, request: OrderRequest)
    returns (order: BacktestOrder)
    requires Sane(cash, run, session.openAt) && session.openAt < session.closeAt && Idle(run)
      && HeldHaveBars(run, session)
    requires forall context :: strategy(run.contexts + [context]) == [request]
    ensures order == NewOrder(Uuid(OrderId, run.orderSequence + 1), request, session.closeAt)
    ensures var last := CloseStep(strategy, session, run);
      && last.Ok? && Sane(cash, last.value, session.closeAt) && OnlyWorking(last.value, order)
      && last.value.ledger == run.ledger && |last.value.contexts| == |run.contexts| + 1
  {
    CloseStepSane(cash, strategy, session, run);
    FreshId(cash, run, session.openAt);
    var closed := CloseIs(strategy, session, run, request);
    OneRequest(request, session.closeAt, closed);
    order := NewOrder(Uuid(OrderId, run.orderSequence + 1), request, session.closeAt);
  }

  lemma LaterSane(cash: NonNeg, run: Run, now: Time, later: Time)
    requires Sane(cash, run, now) && now <= later
    ensures Sane(cash, run, later)
  {
  }

  lemma FirstSane(cash: NonNeg, session: MarketSession)
    ensures Sane(cash, Started(session, FirstRun(cash)), session.openAt)
  {
    FirstAgrees(cash);
    StartedAgrees(cash, session, FirstRun(cash));
  }

  lemma FirstOpen(cash: NonNeg, matcher: Matcher, session: MarketSession)
    ensures OpenStep(matcher, session, FirstRun(cash)) == Ok(Started(session, FirstRun(cash)))
  {
    NoneEligible(FirstRun(cash), 0, session.openAt);
  }
}
