/** What a run records: every close is marked with the bars' close prices, and every fill was made at an open at
    the price, size and fee of a security that could trade. */
module RunRecords {
  import opened Wrappers
  import opened Market
  import opened Orders
  import opened Ledger
  import opened Totals
  import opened Matching
  import opened Accounting
  import opened Backtest
  import opened RunSafety
  import opened StoreAgreement
  import Ordering

  // Bars and statuses by membership.

  lemma {:induction false} BarFound(bars: seq<DailyBar>, bar: DailyBar)
    requires forall i, j :: 0 <= i < j < |bars| ==> bars[i].symbol != bars[j].symbol
    requires bar in bars
    ensures bar.symbol in BarBySymbol(bars) && BarBySymbol(bars)[bar.symbol] == bar
  {
    var init, last := bars[..|bars| - 1], bars[|bars| - 1];
    assert bars == init + [last];
    if bar != last {
      BarFound(init, bar);
      var i :| 0 <= i < |init| && init[i] == bar;
      assert bars[i].symbol != bars[|bars| - 1].symbol;
    }
  }

  lemma {:induction false} StatusFound(statuses: seq<SecurityStatus>, status: SecurityStatus)
    requires forall i, j :: 0 <= i < j < |statuses| ==> statuses[i].symbol != statuses[j].symbol
    requires status in statuses
    ensures status.symbol in StatusBySymbol(statuses) && StatusBySymbol(statuses)[status.symbol] == status
  {
    var init, last := statuses[..|statuses| - 1], statuses[|statuses| - 1];
    assert statuses == init + [last];
    if status != last {
      StatusFound(init, status);
      var i :| 0 <= i < |init| && init[i] == status;
      assert statuses[i].symbol != statuses[|statuses| - 1].symbol;
    }
  }

  // What a session leaves alone and what it appends.

  lemma FillOneKeeps(matcher: Matcher, session: MarketSession, order: BacktestOrder, run: Run)
    requires FillOne(matcher, session, order, run).Ok?
    ensures var next := FillOne(matcher, session, order, run).value;
      next.equity == run.equity && next.contexts == run.contexts
  {
  }

  lemma {:induction false} FillAllKeeps(matcher: Matcher, session: MarketSession, orders: seq<BacktestOrder>, run: Run)
    requires FillAll(matcher, session, orders, run).Ok?
    ensures var next := FillAll(matcher, session, orders, run).value;
      next.equity == run.equity && next.contexts == run.contexts
    decreases |orders|
  {
    if orders != [] {
      FillOneKeeps(matcher, session, orders[0], run);
      FillAllKeeps(matcher, session, orders[1..], FillOne(matcher, session, orders[0], run).value);
    }
  }

  lemma {:induction false} SubmitAllKeepsRecords(requests: seq<OrderRequest>, at: Time, run: Run)
    requires SubmitAll(requests, at, run).Ok?
    ensures var next := SubmitAll(requests, at, run).value;
      next.equity == run.equity && next.contexts == run.contexts
    decreases |requests|
  {
    if requests != [] {
      SubmitAllKeepsRecords(requests[1..], at, SubmitOne(requests[0], at, run).value);
    }
  }

  lemma CloseAppends(strategy: Strategy, session: MarketSession, run: Run)
    requires CloseStep(strategy, session, run).Ok?
    ensures var next, marked := CloseStep(strategy, session, run).value,
        run.ledger.Snapshot(session.closeAt, ClosePrices(session.bars));
      && marked.Ok? && next.ledger == run.ledger && next.equity == run.equity + [marked.value]
      && next.contexts == run.contexts + [StrategyContext(session, marked.value)]
  {
    var marked := run.ledger.Snapshot(session.closeAt, ClosePrices(session.bars));
    var closed := Closed(session, marked.value, run);
    SubmitAllKeepsRecords(strategy(closed.contexts), session.closeAt, closed);
    SubmitAllKeepsLedger(strategy(closed.contexts), session.closeAt, closed);
  }

  lemma SessionAppends(matcher: Matcher, strategy: Strategy, session: MarketSession, run: Run)
    requires SessionStep(matcher, strategy, session, run).Ok?
    ensures OpenStep(matcher, session, run).Ok?
    ensures var next, matched := SessionStep(matcher, strategy, session, run).value,
      OpenStep(matcher, session, run).value;
      var marked := matched.ledger.Snapshot(session.closeAt, ClosePrices(session.bars));
      && marked.Ok? && next.ledger == matched.ledger && next.equity == run.equity + [marked.value]
      && next.contexts == run.contexts + [StrategyContext(session, marked.value)]
  {
    FillAllKeeps(matcher, session, run.book.Eligible(session.openAt), Started(session, run));
    CloseAppends(strategy, session, OpenStep(matcher, session, run).value);
  }

  /** The ledger once the k-th open has been matched. */
  ghost function LedgerAtOpen(
    initialCash: NonNeg, matcher: Matcher, strategy: Strategy, sessions: seq<MarketSession>, k: nat): Option<Ledger>
    requires k < |sessions|
  {
    var before := After(initialCash, matcher, strategy, sessions, k);
    if before.Ok? && OpenStep(matcher, sessions[k], before.value).Ok?
    then Some(OpenStep(matcher, sessions[k], before.value).value.ledger) else None
  }

  lemma LastSession(
    initialCash: NonNeg, matcher: Matcher, strategy: Strategy, sessions: seq<MarketSession>, n: nat)
    returns (before: Run)
    requires 0 < n <= |sessions| && After(initialCash, matcher, strategy, sessions, n).Ok?
    ensures After(initialCash, matcher, strategy, sessions, n - 1) == Ok(before)
    ensures After(initialCash, matcher, strategy, sessions, n)
      == SessionStep(matcher, strategy, sessions[n - 1], before)
  {
    AfterNext(initialCash, matcher, strategy, sessions, n - 1);
    before := After(initialCash, matcher, strategy, sessions, n - 1).value;
  }

  /** One snapshot and one context a session. */
  lemma {:induction false} RecordsCount(
    initialCash: NonNeg, matcher: Matcher, strategy: Strategy, sessions: seq<MarketSession>, n: nat)
    requires n <= |sessions| && After(initialCash, matcher, strategy, sessions, n).Ok?
    ensures var run := After(initialCash, matcher, strategy, sessions, n).value;
      |run.equity| == n && |run.contexts| == n
    decreases n
  {
    if n > 0 {
      var before := LastSession(initialCash, matcher, strategy, sessions, n);
      RecordsCount(initialCash, matcher, strategy, sessions, n - 1);
      SessionAppends(matcher, strategy, sessions[n - 1], before);
    }
  }

  /** The i-th snapshot of a run marks the ledger at the session's close, and is what the strategy was shown. */
  ghost predicate Recorded(session: MarketSession, l: Ledger, run: Run, i: nat) {
    && i < |run.equity| && i < |run.contexts|
    && l.Snapshot(session.closeAt, ClosePrices(session.bars)) == Ok(run.equity[i])
    && run.contexts[i] == StrategyContext(session, run.equity[i])
  }

  /** A later session leaves it as it was. */
  lemma RecordedKept(
    matcher: Matcher, strategy: Strategy, later: MarketSession, session: MarketSession, l: Ledger, run: Run,
    next: Run, i: nat)
    requires Recorded(session, l, run, i) && SessionStep(matcher, strategy, later, run) == Ok(next)
    ensures Recorded(session, l, next, i)
  {
    SessionAppends(matcher, strategy, later, run);
  }

  /** The snapshot and the context of the session before the n-th. */
  lemma LastSnapshot(
    initialCash: NonNeg, matcher: Matcher, strategy: Strategy, sessions: seq<MarketSession>, n: nat)
    returns (run: Run, l: Ledger)
    requires 0 < n <= |sessions| && After(initialCash, matcher, strategy, sessions, n).Ok?
    ensures After(initialCash, matcher, strategy, sessions, n) == Ok(run)
    ensures LedgerAtOpen(initialCash, matcher, strategy, sessions, n - 1) == Some(l)
    ensures Recorded(sessions[n - 1], l, run, n - 1)
  {
    var before := LastSession(initialCash, matcher, strategy, sessions, n);
    RecordsCount(initialCash, matcher, strategy, sessions, n - 1);
    SessionAppends(matcher, strategy, sessions[n - 1], before);
    run := After(initialCash, matcher, strategy, sessions, n).value;
    l := OpenStep(matcher, sessions[n - 1], before).value.ledger;
  }

  lemma {:induction false} SnapshotAt(
    initialCash: NonNeg, matcher: Matcher, strategy: Strategy, sessions: seq<MarketSession>, k: nat, n: nat)
    returns (run: Run, l: Ledger)
    requires k < n <= |sessions| && After(initialCash, matcher, strategy, sessions, n).Ok?
    ensures After(initialCash, matcher, strategy, sessions, n) == Ok(run)
    ensures LedgerAtOpen(initialCash, matcher, strategy, sessions, k) == Some(l)
    ensures Recorded(sessions[k], l, run, k)
    decreases n
  {
    if n == k + 1 {
      run, l := LastSnapshot(initialCash, matcher, strategy, sessions, n);
    } else {
      var before := LastSession(initialCash, matcher, strategy, sessions, n);
      run := After(initialCash, matcher, strategy, sessions, n).value;
      var previous;
      previous, l := SnapshotAt(initialCash, matcher, strategy, sessions, k, n - 1);
      RecordedKept(matcher, strategy, sessions[n - 1], sessions[k], l, before, run, k);
    }
  }

  // Marks at the close.

  /** `marks` values every held symbol at the close of its bar. */
  ghost predicate ClosingMarks(marks: map<Symbol, real>, l: Ledger, bars: seq<DailyBar>) {
    && (forall s :: s in marks <==> s in l.positions && l.positions[s].quantity != 0)
    && (forall s :: s in marks ==> exists bar :: bar in bars && bar.symbol == s)
    && (forall bar :: bar in bars && bar.symbol in marks ==>
          marks[bar.symbol] == Worth(bar.close, l.positions[bar.symbol].quantity))
  }

  lemma MarksAreCloses(l: Ledger, session: MarketSession)
    requires session.Valid() && Markable(l.Held(), ClosePrices(session.bars))
    ensures ClosingMarks(Marks(l, l.Held(), ClosePrices(session.bars)), l, session.bars)
  {
    var prices := ClosePrices(session.bars);
    var marks := Marks(l, l.Held(), prices);
    forall s | s in marks
      ensures exists bar :: bar in session.bars && bar.symbol == s
    {
      assert BarBySymbol(session.bars)[s] in session.bars;
    }
    forall bar | bar in session.bars && bar.symbol in marks
      ensures marks[bar.symbol] == Worth(bar.close, l.positions[bar.symbol].quantity)
    {
      BarFound(session.bars, bar);
    }
  }

  lemma {:induction false} PositionsListed(l: Ledger, symbols: seq<Symbol>)
    requires forall i :: 0 <= i < |symbols| ==> symbols[i] in l.positions
    ensures |l.PositionsAt(symbols)| == |symbols|
    ensures forall i :: 0 <= i < |symbols| ==> l.PositionsAt(symbols)[i] == l.positions[symbols[i]]
    decreases |symbols|
  {
    if symbols != [] {
      PositionsListed(l, symbols[1..]);
    }
  }

  /** The snapshot reports the ledger, its held positions in ascending order of symbol. */
  ghost predicate Reports(snapshot: PortfolioSnapshot, l: Ledger, at: Time) {
    && snapshot.asofTime == at && snapshot.cash == l.cash && snapshot.realizedPnl == l.realizedPnl
    && snapshot.equity == l.cash + snapshot.marketValue
    && |snapshot.positions| == |Ordering.Ascending(l.Held())|
    && forall i :: 0 <= i < |snapshot.positions| ==>
         Ordering.Ascending(l.Held())[i] in l.positions
         && snapshot.positions[i] == l.positions[Ordering.Ascending(l.Held())[i]]
  }

  lemma SnapshotReports(l: Ledger, at: Time, prices: map<Symbol, real>)
    requires l.Snapshot(at, prices).Ok?
    ensures Reports(l.Snapshot(at, prices).value, l, at)
  {
    Ordering.AscendingFacts(l.Held());
    PositionsListed(l, Ordering.Ascending(l.Held()));
  }

  lemma RecordedMarks(session: MarketSession, l: Ledger, run: Run, i: nat) returns (marks: map<Symbol, real>)
    requires session.Valid() && Recorded(session, l, run, i)
    ensures ClosingMarks(marks, l, session.bars) && run.equity[i].marketValue == Total(marks)
    ensures Reports(run.equity[i], l, session.closeAt)
  {
    var prices := ClosePrices(session.bars);
    SnapshotMarks(l, session.closeAt, prices);
    SnapshotReports(l, session.closeAt, prices);
    MarksAreCloses(l, session);
    marks := Marks(l, l.Held(), prices);
  }

  /** The k-th equity snapshot of a run reports the ledger as the k-th open left it, values each held symbol at
      the close of its bar in the k-th session, and is what the strategy was shown at that close. */
  lemma MarkedAtCloses(
    initialCash: NonNeg, matcher: Matcher, strategy: Strategy, sessions: seq<MarketSession>, k: nat, n: nat)
    returns (marks: map<Symbol, real>)
    requires ValidSessions(sessions) && k < n <= |sessions|
    requires After(initialCash, matcher, strategy, sessions, n).Ok?
    ensures var run, l := After(initialCash, matcher, strategy, sessions, n).value,
        LedgerAtOpen(initialCash, matcher, strategy, sessions, k);
      && |run.equity| == n == |run.contexts| && l.Some?
      && ClosingMarks(marks, l.value, sessions[k].bars) && run.equity[k].marketValue == Total(marks)
      && Reports(run.equity[k], l.value, sessions[k].closeAt)
      && run.contexts[k] == StrategyContext(sessions[k], run.equity[k])
  {
    var run, l := SnapshotAt(initialCash, matcher, strategy, sessions, k, n);
    RecordsCount(initialCash, matcher, strategy, sessions, n);
    assert sessions[k].Valid();
    marks := RecordedMarks(sessions[k], l, run, k);
  }

  // Where fills come from.

  /** The matcher made the fill when an order of the session took its turn. */
  ghost predicate MadeAt(matcher: Matcher, session: MarketSession, i: MatchInput, fill: Fill) {
    && matcher(i) == Ok(Some(fill)) && i.occurredAt == session.openAt
    && i.order.symbol in BarBySymbol(session.bars) && i.bar == BarBySymbol(session.bars)[i.order.symbol]
    && var statuses := StatusBySymbol(session.statuses);
       i.status == if i.order.symbol in statuses then Some(statuses[i.order.symbol]) else None
  }

  ghost predicate Made(matcher: Matcher, session: MarketSession, fill: Fill) {
    exists i :: MadeAt(matcher, session, i, fill)
  }

  lemma FillOneMakes(matcher: Matcher, session: MarketSession, order: BacktestOrder, run: Run, fill: Fill)
    requires FillOne(matcher, session, order, run).Ok?
    requires fill in FillOne(matcher, session, order, run).value.ledger.fills && fill !in run.ledger.fills
    ensures Made(matcher, session, fill)
  {
    var i := TurnInput(session, order, run);
    RecordEffectOn(matcher(i).value.value, run.(fillSequence := run.fillSequence + 1));
    assert MadeAt(matcher, session, i, fill);
  }

  lemma RecordEffectOn(fill: Fill, run: Run)
    requires Record(fill, run).Ok?
    ensures Record(fill, run).value.ledger.fills == run.ledger.fills + [fill]
  {
  }

  lemma {:induction false} FillAllMakes(
    matcher: Matcher, session: MarketSession, orders: seq<BacktestOrder>, run: Run, fill: Fill)
    requires FillAll(matcher, session, orders, run).Ok?
    requires fill in FillAll(matcher, session, orders, run).value.ledger.fills && fill !in run.ledger.fills
    ensures Made(matcher, session, fill)
    decreases |orders|
  {
    if orders != [] {
      var next := FillOne(matcher, session, orders[0], run).value;
      if fill in next.ledger.fills {
        FillOneMakes(matcher, session, orders[0], run, fill);
      } else {
        FillAllMakes(matcher, session, orders[1..], next, fill);
      }
    }
  }

  lemma SessionMakes(
    matcher: Matcher, strategy: Strategy, session: MarketSession, run: Run, next: Run, fill: Fill)
    requires SessionStep(matcher, strategy, session, run) == Ok(next)
    requires fill in next.ledger.fills && fill !in run.ledger.fills
    ensures Made(matcher, session, fill)
  {
    SessionAppends(matcher, strategy, session, run);
    FillAllMakes(matcher, session, run.book.Eligible(session.openAt), Started(session, run), fill);
  }

  lemma NoFillsAtFirst(initialCash: NonNeg, matcher: Matcher, strategy: Strategy, sessions: seq<MarketSession>)
    ensures After(initialCash, matcher, strategy, sessions, 0) == Ok(FirstRun(initialCash))
    ensures FirstRun(initialCash).ledger.fills == []
  {
  }

  lemma {:induction false} FillOrigin(
    initialCash: NonNeg, matcher: Matcher, strategy: Strategy, sessions: seq<MarketSession>, n: nat,
    run: Run, fill: Fill)
    returns (k: nat)
    requires n <= |sessions| && After(initialCash, matcher, strategy, sessions, n) == Ok(run)
    requires fill in run.ledger.fills
    ensures k < n && Made(matcher, sessions[k], fill)
    decreases n
  {
    NoFillsAtFirst(initialCash, matcher, strategy, sessions);
    var before := LastSession(initialCash, matcher, strategy, sessions, n);
    if fill in before.ledger.fills {
      k := FillOrigin(initialCash, matcher, strategy, sessions, n - 1, before, fill);
    } else {
      SessionMakes(matcher, strategy, sessions[n - 1], before, run, fill);
      k := n - 1;
    }
  }

  /** The bar of the fill's symbol gives its price, the volume cap and the lot its size, and the schedule its fee. */
  ghost predicate PricedBy(m: AshareOpenMatcher, bar: DailyBar, fill: Fill) {
    && bar.symbol == fill.symbol
    && fill.price == m.ExecutionPrice(fill.side, bar.open)
    && fill.quantity % m.rules.lotSize == 0
    && fill.quantity as real <= bar.volume * m.rules.maxVolumeParticipation
    && 0.0 < fill.Notional() && fill.fee == m.fees.Charge(fill.side, fill.Notional())
  }

  lemma MatchPriced(m: AshareOpenMatcher, i: MatchInput)
    requires m.Match(i).Ok? && m.Match(i).value.Some?
    ensures PricedBy(m, i.bar, m.Match(i).value.value)
    ensures var fill := m.Match(i).value.value;
      fill.symbol == i.order.symbol && fill.side == i.order.side && fill.occurredAt == i.occurredAt
  {
    m.FilledFacts(i);
  }

  /** Every fill of a run with the A-share matcher was made at the open of a session in which its security could
      trade: it was not suspended, not limit-up for a buy or limit-down for a sell, and had a status if the rules
      ask for one; and the session's bar of the symbol gives price, size and fee. */
  lemma FillsWereTradable(
    initialCash: NonNeg, m: AshareOpenMatcher, strategy: Strategy, sessions: seq<MarketSession>, n: nat, fill: Fill)
    returns (k: nat)
    requires ValidSessions(sessions) && n <= |sessions| && After(initialCash, m.AsMatcher(), strategy, sessions, n).Ok?
    requires fill in After(initialCash, m.AsMatcher(), strategy, sessions, n).value.ledger.fills
    ensures k < n && fill.occurredAt == sessions[k].openAt
    ensures exists bar :: bar in sessions[k].bars && PricedBy(m, bar, fill)
    ensures m.rules.requireSecurityStatus ==>
      exists status :: status in sessions[k].statuses && status.symbol == fill.symbol
    ensures forall status :: status in sessions[k].statuses && status.symbol == fill.symbol ==>
      && !status.suspended
      && (fill.side == Buy ==> status.limit != LimitUp)
      && (fill.side == Sell ==> status.limit != LimitDown)
  {
    var run := After(initialCash, m.AsMatcher(), strategy, sessions, n).value;
    k := FillOrigin(initialCash, m.AsMatcher(), strategy, sessions, n, run, fill);
    var session := sessions[k];
    assert session.Valid();
    var i :| MadeAt(m.AsMatcher(), session, i, fill);
    assert m.Match(i) == Ok(Some(fill));
    MatchPriced(m, i);
    m.FilledWasTradable(i);
    assert i.bar in session.bars && PricedBy(m, i.bar, fill);
    if i.status.Some? {
      assert i.status.value in session.statuses && i.status.value.symbol == fill.symbol;
    }
    forall status | status in session.statuses && status.symbol == fill.symbol
      ensures i.status == Some(status)
    {
      StatusFound(session.statuses, status);
    }
  }

  /** With the baseline matcher every fill was made at an open, at the bar's open price and free of fees. */
  lemma BaselineFillsAtOpen(
    initialCash: NonNeg, strategy: Strategy, sessions: seq<MarketSession>, n: nat, fill: Fill) returns (k: nat)
    requires ValidSessions(sessions) && n <= |sessions| && After(initialCash, NextOpenMatch, strategy, sessions, n).Ok?
    requires fill in After(initialCash, NextOpenMatch, strategy, sessions, n).value.ledger.fills
    ensures k < n && fill.occurredAt == sessions[k].openAt && fill.fee == 0.0
    ensures exists bar :: bar in sessions[k].bars && bar.symbol == fill.symbol && bar.open == fill.price
  {
    var run := After(initialCash, NextOpenMatch, strategy, sessions, n).value;
    k := FillOrigin(initialCash, NextOpenMatch, strategy, sessions, n, run, fill);
    var i :| MadeAt(NextOpenMatch, sessions[k], i, fill);
    NextOpenFill(i);
    assert i.bar in sessions[k].bars && i.bar.symbol == fill.symbol && i.bar.open == fill.price;
  }
}
