/** At every point of a run the order book and the ledger tell the same story, for any matcher. */
module StoreAgreement {
  import opened Wrappers
  import opened Market
  import opened Orders
  import opened Ledger
  import opened Matching
  import opened Accounting
  import opened Backtest
  import opened Folding

  /** Quantity filled against one order, summed over the fills. */
  function FilledFor(fills: seq<Fill>, id: Uuid): int {
    if fills == [] then 0
    else
      var last := fills[|fills| - 1];
      FilledFor(fills[..|fills| - 1], id) + if last.orderId == id then last.quantity as int else 0
  }

  lemma FilledForAppend(fills: seq<Fill>, fill: Fill, id: Uuid)
    ensures FilledFor(fills + [fill], id)
         == FilledFor(fills, id) + if fill.orderId == id then fill.quantity as int else 0
  {
    assert (fills + [fill])[..|fills|] == fills;
  }

  ghost predicate OrderMatchesFills(order: BacktestOrder, fills: seq<Fill>) {
    && order.filled == FilledFor(fills, order.orderId)
    && order.status == StatusFor(order.filled, order.quantity)
  }

  ghost predicate FillMatchesOrder(fill: Fill, book: Book) {
    && fill.orderId in book.orders
    && book.orders[fill.orderId].symbol == fill.symbol
    && book.orders[fill.orderId].side == fill.side
    && book.orders[fill.orderId].submittedAt < fill.occurredAt
  }

  ghost predicate Agreement(initialCash: NonNeg, run: Run) {
    && run.book.Valid()
    && run.book.fillIds == run.ledger.fillIds
    && (forall id :: id in run.book.orders ==> OrderMatchesFills(run.book.orders[id], run.ledger.fills))
    && (forall f :: f in run.ledger.fills ==> FillMatchesOrder(f, run.book))
    && (forall id :: id in run.book.orders ==> id.kind == OrderId && id.sequence <= run.orderSequence)
    && Explained(run.ledger, initialCash, run.ledger.fills)
    && Rebuild(initialCash, run.ledger.fills) == Ok(run.ledger)
  }

  lemma FirstAgrees(initialCash: NonNeg)
    ensures Agreement(initialCash, FirstRun(initialCash))
  {
    AccountingIdentity(initialCash, []);
  }

  /** What a recorded fill does to the two stores. */
  lemma RecordEffect(fill: Fill, run: Run)
    requires run.book.Valid() && Record(fill, run).Ok?
    ensures var next := Record(fill, run).value;
      && run.book.ApplyFill(fill) == Ok(next.book)
      && run.ledger.ApplyFill(fill) == Ok(next.ledger)
      && next.orderSequence == run.orderSequence
      && FillMatchesOrder(fill, run.book)
      && next.ledger.fills == run.ledger.fills + [fill]
      && next.ledger.fillIds == run.ledger.fillIds + {fill.fillId}
  {
  }

  /** Everything but the filled quantity and the status of an order is fixed at submission. */
  ghost predicate SameIdentity(a: BacktestOrder, b: BacktestOrder) {
    a.orderId == b.orderId && a.symbol == b.symbol && a.side == b.side && a.submittedAt == b.submittedAt
  }

  lemma BookKeepsIdentity(book: Book, fill: Fill)
    requires book.Valid() && book.ApplyFill(fill).Ok?
    ensures var next := book.ApplyFill(fill).value;
      && next.orders.Keys == book.orders.Keys
      && forall id :: id in book.orders ==> SameIdentity(book.orders[id], next.orders[id])
  {
  }

  lemma RecordKeepsOrders(initialCash: NonNeg, fill: Fill, run: Run)
    requires Agreement(initialCash, run) && Record(fill, run).Ok?
    ensures var next := Record(fill, run).value;
      && next.book.Valid()
      && next.book.fillIds == run.book.fillIds + {fill.fillId}
      && next.book.orders.Keys == run.book.orders.Keys
      && (forall id :: id in run.book.orders ==> SameIdentity(run.book.orders[id], next.book.orders[id]))
      && (forall id :: id in next.book.orders ==>
           OrderMatchesFills(next.book.orders[id], run.ledger.fills + [fill]))
  {
    RecordEffect(fill, run);
    FillAdvancesOneOrder(run.book, fill);
    BookKeepsIdentity(run.book, fill);
    var next := Record(fill, run).value;
    forall id | id in next.book.orders
      ensures OrderMatchesFills(next.book.orders[id], run.ledger.fills + [fill])
    {
      FilledForAppend(run.ledger.fills, fill, id);
      assert OrderMatchesFills(run.book.orders[id], run.ledger.fills);
    }
  }

  lemma RecordAgrees(initialCash: NonNeg, fill: Fill, run: Run)
    requires Agreement(initialCash, run) && Record(fill, run).Ok?
    ensures Agreement(initialCash, Record(fill, run).value)
  {
    var next := Record(fill, run).value;
    RecordEffect(fill, run);
    RecordKeepsOrders(initialCash, fill, run);
    FillKeepsExplained(run.ledger, initialCash, run.ledger.fills, fill);
    assert next.ledger.fills[..|next.ledger.fills| - 1] == run.ledger.fills;
    forall f | f in next.ledger.fills
      ensures FillMatchesOrder(f, next.book)
    {
      assert FillMatchesOrder(f, run.book);
    }
  }

  lemma FillOneAgrees(initialCash: NonNeg, matcher: Matcher, session: MarketSession, order: BacktestOrder, run: Run)
    requires Agreement(initialCash, run) && FillOne(matcher, session, order, run).Ok?
    ensures Agreement(initialCash, FillOne(matcher, session, order, run).value)
  {
    var counted := run.(fillSequence := run.fillSequence + 1);
    var next := FillOne(matcher, session, order, run).value;
    if next != run && next != counted {
      var bar := BarBySymbol(session.bars)[order.symbol];
      RecordAgrees(initialCash, matcher(InputFor(session, order, bar, run)).value.value, counted);
    }
  }

  lemma {:induction false} FillAllAgrees(
    initialCash: NonNeg, matcher: Matcher, session: MarketSession, orders: seq<BacktestOrder>, run: Run)
    requires Agreement(initialCash, run) && FillAll(matcher, session, orders, run).Ok?
    ensures Agreement(initialCash, FillAll(matcher, session, orders, run).value)
    decreases |orders|
  {
    if orders != [] {
      FillOneAgrees(initialCash, matcher, session, orders[0], run);
      FillAllAgrees(initialCash, matcher, session, orders[1..], FillOne(matcher, session, orders[0], run).value);
    }
  }

  /** A submission never collides with an earlier identifier. */
  lemma SubmitOneAgrees(initialCash: NonNeg, request: OrderRequest, at: Time, run: Run)
    requires Agreement(initialCash, run)
    ensures SubmitOne(request, at, run).Ok?
    ensures Agreement(initialCash, SubmitOne(request, at, run).value)
  {
    var id := Uuid(OrderId, run.orderSequence + 1);
    assert id !in run.book.orders;
    var next := SubmitOne(request, at, run).value;
    assert next.book.Valid();
    assert OrderMatchesFills(next.book.orders[id], run.ledger.fills) by {
      NoFillsYet(run.ledger.fills, run.book, id);
    }
    forall f | f in run.ledger.fills
      ensures FillMatchesOrder(f, next.book)
    {
      assert FillMatchesOrder(f, run.book);
    }
  }

  lemma {:induction false} NoFillsYet(fills: seq<Fill>, book: Book, id: Uuid)
    requires id !in book.orders && forall f :: f in fills ==> FillMatchesOrder(f, book)
    ensures FilledFor(fills, id) == 0
  {
    if fills != [] {
      assert FillMatchesOrder(fills[|fills| - 1], book);
      NoFillsYet(fills[..|fills| - 1], book, id);
    }
  }

  lemma {:induction false} SubmitAllAgrees(initialCash: NonNeg, requests: seq<OrderRequest>, at: Time, run: Run)
    requires Agreement(initialCash, run)
    ensures SubmitAll(requests, at, run).Ok?
    ensures Agreement(initialCash, SubmitAll(requests, at, run).value)
    decreases |requests|
  {
    if requests != [] {
      SubmitOneAgrees(initialCash, requests[0], at, run);
      SubmitAllAgrees(initialCash, requests[1..], at, SubmitOne(requests[0], at, run).value);
    }
  }

  lemma OpenStepAgrees(initialCash: NonNeg, matcher: Matcher, session: MarketSession, run: Run)
    requires Agreement(initialCash, run) && OpenStep(matcher, session, run).Ok?
    ensures Agreement(initialCash, OpenStep(matcher, session, run).value)
  {
    FillAllAgrees(initialCash, matcher, session, run.book.Eligible(session.openAt), Started(session, run));
  }

  lemma CloseStepAgrees(initialCash: NonNeg, strategy: Strategy, session: MarketSession, run: Run)
    requires Agreement(initialCash, run)
    ensures var closed := CloseStep(strategy, session, run);
      if run.ledger.Snapshot(session.closeAt, ClosePrices(session.bars)).Ok?
      then closed.Ok? && Agreement(initialCash, closed.value) && closed.value.ledger == run.ledger
      else closed.Err?
  {
    var marked := run.ledger.Snapshot(session.closeAt, ClosePrices(session.bars));
    if marked.Ok? {
      var closed := Closed(session, marked.value, run);
      SubmitAllAgrees(initialCash, strategy(closed.contexts), session.closeAt, closed);
      SubmitAllKeepsLedger(strategy(closed.contexts), session.closeAt, closed);
    }
  }

  lemma {:induction false} SubmitAllKeepsLedger(requests: seq<OrderRequest>, at: Time, run: Run)
    ensures var last := SubmitAll(requests, at, run); last.Ok? ==> last.value.ledger == run.ledger
    decreases |requests|
  {
    if requests != [] && SubmitOne(requests[0], at, run).Ok? {
      SubmitAllKeepsLedger(requests[1..], at, SubmitOne(requests[0], at, run).value);
    }
  }

  /** After any number of sessions of any run that has not raised: every order's filled quantity
      is the sum of the ledger fills carrying its id and its status says so, every fill carries
      its order's symbol and side and comes strictly after its submission, both stores hold the
      same fill ids, positions are buys less sells, and the ledger is the replay of its fills. */
  lemma StoresAgree(
    initialCash: NonNeg, matcher: Matcher, strategy: Strategy, sessions: seq<MarketSession>, n: nat)
    requires n <= |sessions| && After(initialCash, matcher, strategy, sessions, n).Ok?
    ensures Agreement(initialCash, After(initialCash, matcher, strategy, sessions, n).value)
  {
    var step := SessionFold(matcher, strategy);
    FirstAgrees(initialCash);
    forall k, run | 0 <= k < n && Agreement(initialCash, run) && step(sessions[k], run).Ok?
      ensures Agreement(initialCash, step(sessions[k], run).value)
    {
      SessionAgrees(initialCash, matcher, strategy, sessions[k], run);
    }
    FoldInvariant(step, FirstRun(initialCash), sessions, (k, run) => Agreement(initialCash, run), n);
  }

  lemma SessionAgrees(initialCash: NonNeg, matcher: Matcher, strategy: Strategy, session: MarketSession, run: Run)
    requires Agreement(initialCash, run) && SessionStep(matcher, strategy, session, run).Ok?
    ensures Agreement(initialCash, SessionStep(matcher, strategy, session, run).value)
  {
    OpenStepAgrees(initialCash, matcher, session, run);
    CloseStepAgrees(initialCash, strategy, session, OpenStep(matcher, session, run).value);
  }
}
