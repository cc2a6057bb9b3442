/** When the engine's guards fire during a run: with a sound matcher, whose sells cover their fees, only
    marking a held symbol without a bar can fail. */
module RunSafety {
  import opened Wrappers
  import opened Market
  import opened Orders
  import opened Ledger
  import Ordering
  import opened Matching
  import opened Accounting
  import opened Backtest
  import opened Folding
  import opened StoreAgreement

  /** What the engine hands to a matcher. */
  ghost predicate Posed(i: MatchInput) {
    && i.bar.symbol == i.order.symbol
    && (i.status.Some? ==> i.status.value.symbol == i.order.symbol)
    && i.order.submittedAt < i.occurredAt
    && i.cash.Some? && i.maximum.Some?
    && (i.order.side == Buy ==> i.maximum.value == (i.cash.value / i.bar.open).Floor)
    && (i.order.side == Sell ==> 0 <= i.maximum.value)
  }

  /** A matcher's answer that stays inside the order, the position and the cash a buy may spend. */
  ghost predicate Respectful(i: MatchInput, outcome: MatchOutcome)
    requires Posed(i)
  {
    && outcome.Ok?
    && (outcome.value.Some? ==>
         var fill := outcome.value.value;
         && fill.fillId == i.fillId && fill.orderId == i.order.orderId
         && fill.symbol == i.order.symbol && fill.side == i.order.side
         && fill.occurredAt == i.occurredAt
         && fill.quantity <= i.order.Remaining() && fill.quantity <= i.maximum.value
         && (fill.side == Buy ==> fill.Notional() + fill.fee <= i.cash.value))
  }

  /** As long as cash is not negative, the matcher stays inside its limits. */
  ghost predicate SoundOn(matcher: Matcher, sessions: seq<MarketSession>) {
    forall k :: 0 <= k < |sessions| ==> SoundAt(matcher, sessions[k])
  }

  ghost predicate SoundAt(matcher: Matcher, session: MarketSession) {
    forall i :: Posed(i) && 0.0 <= i.cash.value && i.bar in session.bars ==> Respectful(i, matcher(i))
  }

  /** Every sell the matcher makes brings in its own fee. */
  ghost predicate SelfCoveringAt(matcher: Matcher, session: MarketSession) {
    forall i :: Posed(i) && 0.0 <= i.cash.value && i.bar in session.bars ==> SelfCovering(matcher(i))
  }

  predicate SelfCovering(outcome: MatchOutcome) {
    outcome.Ok? && outcome.value.Some? && outcome.value.value.side == Sell ==>
      outcome.value.value.fee <= outcome.value.value.Notional()
  }

  ghost predicate IdsIssued(run: Run) {
    forall id :: id in run.ledger.fillIds ==> id.kind == FillId && id.sequence <= run.fillSequence
  }

  /** Book and ledger agree and hold nothing from the future. */
  ghost predicate Sane(initialCash: NonNeg, run: Run, now: Time) {
    && Agreement(initialCash, run)
    && IdsIssued(run)
    && (run.ledger.lastFillAt.Some? ==> run.ledger.lastFillAt.value <= now)
  }

  ghost predicate Healthy(initialCash: NonNeg, run: Run, now: Time) {
    Sane(initialCash, run, now) && 0.0 <= run.ledger.cash
  }

  /** The order is still exactly what the book holds, and may fill now. */
  ghost predicate Current(order: BacktestOrder, run: Run, now: Time) {
    && order.orderId in run.book.orders && run.book.orders[order.orderId] == order
    && order.Active() && order.submittedAt < now
  }

  // One order's turn at an open.

  predicate Quoted(session: MarketSession, order: BacktestOrder) {
    order.symbol in BarBySymbol(session.bars)
  }

  function TurnInput(session: MarketSession, order: BacktestOrder, run: Run): MatchInput
    requires Quoted(session, order)
  {
    InputFor(session, order, BarBySymbol(session.bars)[order.symbol], run)
  }

  ghost predicate TurnRespectful(matcher: Matcher, session: MarketSession, order: BacktestOrder, run: Run) {
    Quoted(session, order) ==>
      var i := TurnInput(session, order, run);
      Posed(i) && Respectful(i, matcher(i))
  }

  /** If this turn is a sell, its fee is within the cash at its turn and what it brings in. */
  predicate FeeCovered(matcher: Matcher, session: MarketSession, order: BacktestOrder, run: Run) {
    Quoted(session, order) ==>
      var outcome := matcher(TurnInput(session, order, run));
      outcome.Ok? && outcome.value.Some? && outcome.value.value.side == Sell ==>
        outcome.value.value.fee <= run.ledger.cash + outcome.value.value.Notional()
  }

  lemma TurnPosed(session: MarketSession, order: BacktestOrder, run: Run)
    requires Current(order, run, session.openAt) && Quoted(session, order)
    ensures Posed(TurnInput(session, order, run)) && TurnInput(session, order, run).bar in session.bars
  {
  }

  lemma TurnSound(initialCash: NonNeg, matcher: Matcher, session: MarketSession, order: BacktestOrder, run: Run)
    requires SoundAt(matcher, session)
    requires Healthy(initialCash, run, session.openAt) && Current(order, run, session.openAt)
    ensures TurnRespectful(matcher, session, order, run)
  {
    if Quoted(session, order) {
      TurnPosed(session, order, run);
      assert Respectful(TurnInput(session, order, run), matcher(TurnInput(session, order, run)));
    }
  }

  /** Fill ids are the book's and the ledger's alike, already issued, and no fill lies ahead. */
  ghost predicate Ready(run: Run, now: Time) {
    && run.book.fillIds == run.ledger.fillIds && IdsIssued(run)
    && (run.ledger.lastFillAt.Some? ==> run.ledger.lastFillAt.value <= now)
  }

  lemma RecordAccepted(i: MatchInput, fill: Fill, run: Run)
    requires Ready(run, i.occurredAt) && Current(i.order, run, i.occurredAt)
    requires Posed(i) && Respectful(i, Ok(Some(fill)))
    requires i.cash == Some(run.ledger.cash)
    requires i.order.side == Sell ==> i.maximum == Some(run.ledger.PositionOf(i.order.symbol).quantity)
    requires i.fillId == Uuid(FillId, run.fillSequence)
    requires i.fillId !in run.ledger.fillIds
    ensures Record(fill, run).Ok?
    ensures Ready(Record(fill, run).value, i.occurredAt)
  {
    assert run.book.ValidateFill(fill).Ok?;
    assert run.ledger.ValidateFill(fill).Ok?;
  }

  lemma RecordSucceeds(initialCash: NonNeg, i: MatchInput, fill: Fill, run: Run)
    requires Sane(initialCash, run, i.occurredAt) && Current(i.order, run, i.occurredAt)
    requires Posed(i) && Respectful(i, Ok(Some(fill)))
    requires i.cash == Some(run.ledger.cash)
    requires i.order.side == Sell ==> i.maximum == Some(run.ledger.PositionOf(i.order.symbol).quantity)
    requires i.fillId == Uuid(FillId, run.fillSequence)
    requires i.fillId !in run.ledger.fillIds
    ensures Record(fill, run).Ok?
    ensures Sane(initialCash, Record(fill, run).value, i.occurredAt)
  {
    RecordAccepted(i, fill, run);
    RecordAgrees(initialCash, fill, run);
  }

  /** A turn inside its limits raises nothing, and cash survives it exactly when a sell's fee is covered. */
  lemma FillOneSane(
    initialCash: NonNeg, matcher: Matcher, session: MarketSession, order: BacktestOrder, run: Run)
    requires Sane(initialCash, run, session.openAt) && Current(order, run, session.openAt)
    requires TurnRespectful(matcher, session, order, run)
    ensures FillOne(matcher, session, order, run).Ok?
    ensures var next := FillOne(matcher, session, order, run).value;
      && Sane(initialCash, next, session.openAt)
      && (0.0 <= run.ledger.cash ==> (0.0 <= next.ledger.cash <==> FeeCovered(matcher, session, order, run)))
  {
    if Quoted(session, order) {
      var i := TurnInput(session, order, run);
      var counted := run.(fillSequence := run.fillSequence + 1);
      if matcher(i).value.Some? {
        var fill := matcher(i).value.value;
        RecordSucceeds(initialCash, i, fill, counted);
        RecordEffect(fill, counted);
        if 0.0 <= run.ledger.cash {
          CashAfterFill(run.ledger, fill);
        }
      }
    }
  }

  lemma FillOneTouchesOneOrder(
    matcher: Matcher, session: MarketSession, order: BacktestOrder, run: Run, other: BacktestOrder)
    requires TurnRespectful(matcher, session, order, run)
    requires Current(other, run, session.openAt) && other.orderId != order.orderId
    requires FillOne(matcher, session, order, run).Ok?
    ensures Current(other, FillOne(matcher, session, order, run).value, session.openAt)
  {
    if Quoted(session, order) {
      var outcome := matcher(TurnInput(session, order, run));
      if outcome.value.Some? {
        assert run.book.ApplyFill(outcome.value.value).Ok?;
      }
    }
  }

  // All turns of an open.

  /** Every order is current, and none appears twice. */
  ghost predicate Waiting(orders: seq<BacktestOrder>, run: Run, now: Time) {
    && (forall i :: 0 <= i < |orders| ==> Current(orders[i], run, now))
    && forall i, j :: 0 <= i < j < |orders| ==> orders[i].orderId != orders[j].orderId
  }

  lemma StillWaiting(
    matcher: Matcher, session: MarketSession, orders: seq<BacktestOrder>, run: Run)
    requires orders != [] && Waiting(orders, run, session.openAt)
    requires TurnRespectful(matcher, session, orders[0], run) && FillOne(matcher, session, orders[0], run).Ok?
    ensures Waiting(orders[1..], FillOne(matcher, session, orders[0], run).value, session.openAt)
  {
    forall i | 0 <= i < |orders[1..]|
      ensures Current(orders[1..][i], FillOne(matcher, session, orders[0], run).value, session.openAt)
    {
      assert orders[1..][i] == orders[i + 1];
      FillOneTouchesOneOrder(matcher, session, orders[0], run, orders[i + 1]);
    }
  }

  lemma EligibleWaiting(initialCash: NonNeg, session: MarketSession, run: Run)
    requires Sane(initialCash, run, session.openAt)
    ensures Waiting(run.book.Eligible(session.openAt), Started(session, run), session.openAt)
  {
    var orders := run.book.Eligible(session.openAt);
    EligibleMeaning(run.book, |run.book.ids|, session.openAt);
    forall i | 0 <= i < |orders|
      ensures Current(orders[i], Started(session, run), session.openAt)
    {
      assert orders[i] in orders;
    }
  }

  /** At its turn, every sell's fee is covered. */
  predicate FeesCovered(matcher: Matcher, session: MarketSession, orders: seq<BacktestOrder>, run: Run)
    decreases |orders|
  {
    orders != [] ==>
      && FeeCovered(matcher, session, orders[0], run)
      && var next := FillOne(matcher, session, orders[0], run);
         next.Ok? ==> FeesCovered(matcher, session, orders[1..], next.value)
  }

  /** Cash is not negative before, between and after the turns. */
  predicate CashKept(matcher: Matcher, session: MarketSession, orders: seq<BacktestOrder>, run: Run)
    decreases |orders|
  {
    && 0.0 <= run.ledger.cash
    && (orders != [] ==>
         var next := FillOne(matcher, session, orders[0], run);
         next.Ok? ==> CashKept(matcher, session, orders[1..], next.value))
  }

  lemma {:induction false} FillAllSafe(
    initialCash: NonNeg, matcher: Matcher, session: MarketSession, orders: seq<BacktestOrder>, run: Run)
    requires SoundAt(matcher, session) && Healthy(initialCash, run, session.openAt)
    requires Waiting(orders, run, session.openAt)
    ensures FeesCovered(matcher, session, orders, run) <==> CashKept(matcher, session, orders, run)
    ensures FeesCovered(matcher, session, orders, run) ==>
      && FillAll(matcher, session, orders, run).Ok?
      && Healthy(initialCash, FillAll(matcher, session, orders, run).value, session.openAt)
    decreases |orders|
  {
    if orders != [] {
      TurnSound(initialCash, matcher, session, orders[0], run);
      FillOneSane(initialCash, matcher, session, orders[0], run);
      StillWaiting(matcher, session, orders, run);
      if FeeCovered(matcher, session, orders[0], run) {
        FillAllSafe(initialCash, matcher, session, orders[1..], FillOne(matcher, session, orders[0], run).value);
      }
    }
  }

  lemma {:induction false} FillAllSelfCovering(
    initialCash: NonNeg, matcher: Matcher, session: MarketSession, orders: seq<BacktestOrder>, run: Run)
    requires SoundAt(matcher, session) && SelfCoveringAt(matcher, session)
    requires Healthy(initialCash, run, session.openAt) && Waiting(orders, run, session.openAt)
    ensures FeesCovered(matcher, session, orders, run)
    decreases |orders|
  {
    if orders != [] {
      if Quoted(session, orders[0]) {
        TurnPosed(session, orders[0], run);
        assert SelfCovering(matcher(TurnInput(session, orders[0], run)));
      }
      TurnSound(initialCash, matcher, session, orders[0], run);
      FillOneSane(initialCash, matcher, session, orders[0], run);
      StillWaiting(matcher, session, orders, run);
      FillAllSelfCovering(initialCash, matcher, session, orders[1..], FillOne(matcher, session, orders[0], run).value);
    }
  }

  ghost predicate OpenCovered(matcher: Matcher, session: MarketSession, run: Run) {
    FeesCovered(matcher, session, run.book.Eligible(session.openAt), Started(session, run))
  }

  ghost predicate OpenKeepsCash(matcher: Matcher, session: MarketSession, run: Run) {
    CashKept(matcher, session, run.book.Eligible(session.openAt), Started(session, run))
  }

  lemma OpenStepSafe(initialCash: NonNeg, matcher: Matcher, session: MarketSession, run: Run)
    requires SoundAt(matcher, session) && Healthy(initialCash, run, session.openAt)
    ensures OpenCovered(matcher, session, run) <==> OpenKeepsCash(matcher, session, run)
    ensures OpenCovered(matcher, session, run) ==>
      OpenStep(matcher, session, run).Ok? && Healthy(initialCash, OpenStep(matcher, session, run).value, session.openAt)
    ensures SelfCoveringAt(matcher, session) ==> OpenCovered(matcher, session, run)
  {
    var orders := run.book.Eligible(session.openAt);
    EligibleWaiting(initialCash, session, run);
    FillAllSafe(initialCash, matcher, session, orders, Started(session, run));
    if SelfCoveringAt(matcher, session) {
      FillAllSelfCovering(initialCash, matcher, session, orders, Started(session, run));
    }
  }

  ghost predicate HeldHaveBars(run: Run, session: MarketSession) {
    forall s :: s in run.ledger.Held() ==> s in BarBySymbol(session.bars)
  }

  lemma CloseStepSane(initialCash: NonNeg, strategy: Strategy, session: MarketSession, run: Run)
    requires Sane(initialCash, run, session.openAt) && session.openAt < session.closeAt
    ensures var closed := CloseStep(strategy, session, run);
      if HeldHaveBars(run, session)
      then closed.Ok? && Sane(initialCash, closed.value, session.closeAt) && closed.value.ledger == run.ledger
      else closed == Err(MissingMark)
  {
    var prices := ClosePrices(session.bars);
    SnapshotMarks(run.ledger, session.closeAt, prices);
    assert HeldHaveBars(run, session) <==> Markable(run.ledger.Held(), prices);
    CloseStepAgrees(initialCash, strategy, session, run);
    if HeldHaveBars(run, session) {
      CloseStepKeepsFills(strategy, session, run);
    } else {
      OnlyMissingMarks(run.ledger, session);
    }
  }

  lemma CloseStepKeepsFills(strategy: Strategy, session: MarketSession, run: Run)
    requires CloseStep(strategy, session, run).Ok?
    ensures CloseStep(strategy, session, run).value.fillSequence == run.fillSequence
  {
    var marked := run.ledger.Snapshot(session.closeAt, ClosePrices(session.bars));
    var closed := Closed(session, marked.value, run);
    SubmitAllKeepsSequence(strategy(closed.contexts), session.closeAt, closed);
  }

  lemma {:induction false} SubmitAllKeepsSequence(requests: seq<OrderRequest>, at: Time, run: Run)
    ensures var last := SubmitAll(requests, at, run); last.Ok? ==> last.value.fillSequence == run.fillSequence
    decreases |requests|
  {
    if requests != [] && SubmitOne(requests[0], at, run).Ok? {
      SubmitAllKeepsSequence(requests[1..], at, SubmitOne(requests[0], at, run).value);
    }
  }

  lemma {:induction false} MarkErrors(l: Ledger, symbols: seq<Symbol>, prices: map<Symbol, real>)
    requires forall i :: 0 <= i < |symbols| ==> symbols[i] in l.positions
    requires forall s :: s in prices ==> 0.0 < prices[s]
    ensures var marked := l.MarkedValue(symbols, prices); marked.Err? ==> marked.error == MissingMark
    decreases |symbols|
  {
    if symbols != [] {
      MarkErrors(l, symbols[1..], prices);
    }
  }

  lemma OnlyMissingMarks(l: Ledger, session: MarketSession)
    ensures var marked := l.Snapshot(session.closeAt, ClosePrices(session.bars));
      marked.Err? ==> marked.error == MissingMark
  {
    Ordering.AscendingFacts(l.Held());
    MarkErrors(l, Ordering.Ascending(l.Held()), ClosePrices(session.bars));
  }

  // Whole runs.

  /** The stores are sane before the k-th session. */
  ghost predicate SaneBefore(initialCash: NonNeg, sessions: seq<MarketSession>, k: nat, run: Run) {
    && k <= |sessions|
    && if k == 0 then run == FirstRun(initialCash) else Sane(initialCash, run, sessions[k - 1].closeAt)
  }

  ghost predicate SafeBefore(initialCash: NonNeg, sessions: seq<MarketSession>, k: nat, run: Run) {
    SaneBefore(initialCash, sessions, k, run) && 0.0 <= run.ledger.cash
  }

  lemma SaneAtOpen(initialCash: NonNeg, sessions: seq<MarketSession>, k: nat, run: Run)
    requires ValidSessions(sessions) && k < |sessions| && SaneBefore(initialCash, sessions, k, run)
    ensures Sane(initialCash, run, sessions[k].openAt) && sessions[k].openAt < sessions[k].closeAt
  {
    assert sessions[k].Valid();
    if k == 0 {
      FirstAgrees(initialCash);
    } else {
      EarlierCloses(sessions, k - 1, k);
    }
  }

  /** The session has a bar for every symbol held once its open has been matched. */
  ghost predicate MarkedAfterOpen(matcher: Matcher, session: MarketSession, run: Run) {
    OpenStep(matcher, session, run).Ok? && HeldHaveBars(OpenStep(matcher, session, run).value, session)
  }

  // The predicates above as properties of a fold, and what applying them means.

  ghost function SafeState(initialCash: NonNeg, sessions: seq<MarketSession>): (nat, Run) -> bool {
    (k: nat, run: Run) => SafeBefore(initialCash, sessions, k, run)
  }

  ghost function Marked(matcher: Matcher, sessions: seq<MarketSession>): (nat, Run) -> bool {
    (k: nat, run: Run) => k < |sessions| && MarkedAfterOpen(matcher, sessions[k], run)
  }

  ghost function Covered(matcher: Matcher, sessions: seq<MarketSession>): (nat, Run) -> bool {
    (k: nat, run: Run) => k < |sessions| && OpenCovered(matcher, sessions[k], run)
  }

  ghost function KeepsCash(matcher: Matcher, sessions: seq<MarketSession>): (nat, Run) -> bool {
    (k: nat, run: Run) => k < |sessions| && OpenKeepsCash(matcher, sessions[k], run)
  }

  ghost function MarkError(): (nat, Run) -> BacktestError {
    (k: nat, run: Run) => MissingMark
  }

  /** At each of the first n closes reached, every held symbol has a bar. */
  ghost predicate AlwaysMarked(
    initialCash: NonNeg, matcher: Matcher, strategy: Strategy, sessions: seq<MarketSession>, n: nat)
    requires n <= |sessions|
  {
    Always(SessionFold(matcher, strategy), FirstRun(initialCash), sessions, Marked(matcher, sessions), n)
  }

  /** At each of the first n opens reached, every sell's fee is covered at its turn. */
  ghost predicate AlwaysCovered(
    initialCash: NonNeg, matcher: Matcher, strategy: Strategy, sessions: seq<MarketSession>, n: nat)
    requires n <= |sessions|
  {
    Always(SessionFold(matcher, strategy), FirstRun(initialCash), sessions, Covered(matcher, sessions), n)
  }

  /** Through the first n opens reached, cash is never negative, not even between two turns. */
  ghost predicate NeverOverdrawn(
    initialCash: NonNeg, matcher: Matcher, strategy: Strategy, sessions: seq<MarketSession>, n: nat)
    requires n <= |sessions|
  {
    Always(SessionFold(matcher, strategy), FirstRun(initialCash), sessions, KeepsCash(matcher, sessions), n)
  }

  lemma OpenOfSession(
    initialCash: NonNeg, matcher: Matcher, sessions: seq<MarketSession>, k: nat, run: Run)
    requires ValidSessions(sessions) && SoundOn(matcher, sessions) && k < |sessions|
    ensures AgreeAt(SafeState(initialCash, sessions), Covered(matcher, sessions), KeepsCash(matcher, sessions), k, run)
    ensures SelfCoveringAt(matcher, sessions[k]) ==>
      AgreeAt(SafeState(initialCash, sessions), Covered(matcher, sessions), Anything(), k, run)
  {
    if SafeBefore(initialCash, sessions, k, run) {
      SaneAtOpen(initialCash, sessions, k, run);
      OpenStepSafe(initialCash, matcher, sessions[k], run);
    }
  }

  lemma SessionSafe(
    initialCash: NonNeg, matcher: Matcher, strategy: Strategy, sessions: seq<MarketSession>, k: nat, run: Run)
    requires ValidSessions(sessions) && SoundOn(matcher, sessions) && k < |sessions|
    requires SafeBefore(initialCash, sessions, k, run) && OpenCovered(matcher, sessions[k], run)
    ensures var last := SessionStep(matcher, strategy, sessions[k], run);
      if MarkedAfterOpen(matcher, sessions[k], run)
      then last.Ok? && SafeBefore(initialCash, sessions, k + 1, last.value)
      else last == Err(MissingMark)
  {
    SaneAtOpen(initialCash, sessions, k, run);
    OpenStepSafe(initialCash, matcher, sessions[k], run);
    CloseStepSane(initialCash, strategy, sessions[k], OpenStep(matcher, sessions[k], run).value);
  }

  lemma StateIs(initialCash: NonNeg, sessions: seq<MarketSession>, k: nat, run: Run)
    ensures SafeState(initialCash, sessions)(k, run) == SafeBefore(initialCash, sessions, k, run)
  {
  }

  lemma MarkedIs(matcher: Matcher, sessions: seq<MarketSession>, k: nat, run: Run)
    requires k < |sessions|
    ensures Marked(matcher, sessions)(k, run) == MarkedAfterOpen(matcher, sessions[k], run)
    ensures Covered(matcher, sessions)(k, run) == OpenCovered(matcher, sessions[k], run)
    ensures MarkError()(k, run) == MissingMark
  {
  }

  lemma StepIs(initialCash: NonNeg, matcher: Matcher, strategy: Strategy, sessions: seq<MarketSession>, k: nat,
      run: Run)
    requires k < |sessions|
    ensures var last := SessionFold(matcher, strategy)(sessions[k], run);
      && last == SessionStep(matcher, strategy, sessions[k], run)
      && (last.Ok? ==>
           SafeState(initialCash, sessions)(k + 1, last.value) == SafeBefore(initialCash, sessions, k + 1, last.value))
  {
    var last := SessionStep(matcher, strategy, sessions[k], run);
    if last.Ok? {
      StateIs(initialCash, sessions, k + 1, last.value);
    }
  }

  lemma SessionApplied(
    initialCash: NonNeg, matcher: Matcher, strategy: Strategy, sessions: seq<MarketSession>, k: nat, run: Run)
    requires ValidSessions(sessions) && SoundOn(matcher, sessions) && k < |sessions|
    requires SafeState(initialCash, sessions)(k, run) && Covered(matcher, sessions)(k, run)
    ensures var last := SessionFold(matcher, strategy)(sessions[k], run);
      if Marked(matcher, sessions)(k, run) then last.Ok? && SafeState(initialCash, sessions)(k + 1, last.value)
      else last == Err(MarkError()(k, run))
  {
    StateIs(initialCash, sessions, k, run);
    MarkedIs(matcher, sessions, k, run);
    SessionSafe(initialCash, matcher, strategy, sessions, k, run);
    StepIs(initialCash, matcher, strategy, sessions, k, run);
  }

  lemma SessionStates(
    initialCash: NonNeg, matcher: Matcher, strategy: Strategy, sessions: seq<MarketSession>, k: nat, run: Run)
    requires ValidSessions(sessions) && SoundOn(matcher, sessions) && k < |sessions|
    requires Covered(matcher, sessions)(k, run)
    ensures FailsWhenBad(SessionFold(matcher, strategy), sessions, SafeState(initialCash, sessions),
                         Marked(matcher, sessions), MarkError(), k, run)
  {
    if SafeState(initialCash, sessions)(k, run) {
      SessionApplied(initialCash, matcher, strategy, sessions, k, run);
    }
  }

  /** Cash stays non-negative throughout a run exactly when every sell's fee is covered at its turn.
      Then a run raises exactly when, at some close, a held symbol has no bar, and no other check fires. */
  lemma GuardsNeverFire(
    initialCash: NonNeg, matcher: Matcher, strategy: Strategy, sessions: seq<MarketSession>, n: nat)
    requires ValidSessions(sessions) && SoundOn(matcher, sessions) && n <= |sessions|
    ensures AlwaysCovered(initialCash, matcher, strategy, sessions, n)
       <==> NeverOverdrawn(initialCash, matcher, strategy, sessions, n)
    ensures AlwaysCovered(initialCash, matcher, strategy, sessions, n) ==>
      var last := After(initialCash, matcher, strategy, sessions, n);
      if AlwaysMarked(initialCash, matcher, strategy, sessions, n)
      then last.Ok? && SafeBefore(initialCash, sessions, n, last.value)
      else last == Err(MissingMark)
  {
    var step, first, inv := SessionFold(matcher, strategy), FirstRun(initialCash), SafeState(initialCash, sessions);
    var covered, kept, marked := Covered(matcher, sessions), KeepsCash(matcher, sessions), Marked(matcher, sessions);
    forall k, run | 0 <= k < n
      ensures AgreeAt(inv, covered, kept, k, run)
    {
      OpenOfSession(initialCash, matcher, sessions, k, run);
    }
    forall k, run | 0 <= k < n && covered(k, run)
      ensures FailsWhenBad(step, sessions, inv, marked, MarkError(), k, run)
    {
      SessionStates(initialCash, matcher, strategy, sessions, k, run);
    }
    FoldAlwaysAgrees(step, first, sessions, inv, marked, MarkError(), covered, kept, n);
    if Always(step, first, sessions, covered, n) {
      FoldFailsExactly(step, first, sessions, inv, marked, MarkError(), n);
    }
  }

  ghost function Anything(): (nat, Run) -> bool {
    (k: nat, run: Run) => true
  }

  /** If every sell a sound matcher can make brings in its own fee, no fee is ever uncovered. */
  lemma SelfCoveringCovers(
    initialCash: NonNeg, matcher: Matcher, strategy: Strategy, sessions: seq<MarketSession>, n: nat)
    requires ValidSessions(sessions) && SoundOn(matcher, sessions) && n <= |sessions|
    requires forall k :: 0 <= k < |sessions| ==> SelfCoveringAt(matcher, sessions[k])
    ensures AlwaysCovered(initialCash, matcher, strategy, sessions, n)
  {
    var step, first, inv := SessionFold(matcher, strategy), FirstRun(initialCash), SafeState(initialCash, sessions);
    var covered, marked := Covered(matcher, sessions), Marked(matcher, sessions);
    forall k, run | 0 <= k < n
      ensures AgreeAt(inv, covered, Anything(), k, run)
    {
      OpenOfSession(initialCash, matcher, sessions, k, run);
    }
    forall k, run | 0 <= k < n && covered(k, run)
      ensures FailsWhenBad(step, sessions, inv, marked, MarkError(), k, run)
    {
      SessionStates(initialCash, matcher, strategy, sessions, k, run);
    }
    FoldAlwaysAgrees(step, first, sessions, inv, marked, MarkError(), covered, Anything(), n);
  }

  lemma NextOpenRespectful(i: MatchInput)
    requires Posed(i) && 0.0 <= i.cash.value
    ensures Respectful(i, NextOpenMatch(i)) && SelfCovering(NextOpenMatch(i))
  {
    FloorOfQuotient(i.cash.value, i.bar.open, 0);
    if NextOpenMatch(i).value.Some? {
      var fill := NextOpenMatch(i).value.value;
      FloorOfQuotient(i.cash.value, i.bar.open, fill.quantity);
      WorthPositive(i.bar.open, fill.quantity);
    }
  }

  /** The baseline matcher is sound on every market. */
  lemma NextOpenSound(sessions: seq<MarketSession>)
    ensures SoundOn(NextOpenMatch, sessions)
    ensures forall k :: 0 <= k < |sessions| ==> SelfCoveringAt(NextOpenMatch, sessions[k])
  {
    forall k, i | 0 <= k < |sessions| && Posed(i) && 0.0 <= i.cash.value && i.bar in sessions[k].bars
      ensures Respectful(i, NextOpenMatch(i)) && SelfCovering(NextOpenMatch(i))
    {
      NextOpenRespectful(i);
    }
  }

  /** With the baseline matcher a run over valid sessions raises only at an unmarked close, and cash
      is never negative: it charges no fees. */
  lemma NextOpenGuards(initialCash: NonNeg, strategy: Strategy, sessions: seq<MarketSession>, n: nat)
    requires ValidSessions(sessions) && n <= |sessions|
    ensures NeverOverdrawn(initialCash, NextOpenMatch, strategy, sessions, n)
    ensures var last := After(initialCash, NextOpenMatch, strategy, sessions, n);
      if AlwaysMarked(initialCash, NextOpenMatch, strategy, sessions, n)
      then last.Ok? && SafeBefore(initialCash, sessions, n, last.value)
      else last == Err(MissingMark)
  {
    NextOpenSound(sessions);
    SelfCoveringCovers(initialCash, NextOpenMatch, strategy, sessions, n);
    GuardsNeverFire(initialCash, NextOpenMatch, strategy, sessions, n);
  }
}
