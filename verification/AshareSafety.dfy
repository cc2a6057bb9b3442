/** When a run with the A-share matcher raises, and when its sells can overdraw the cash. */
module AshareSafety {
  import opened Wrappers
  import opened Market
  import opened Orders
  import opened Fees
  import opened Matching
  import opened Backtest
  import opened Folding
  import opened RunSafety

  /** The error, if any, that an order's turn raises: a buy while cash is negative, or a whole lot to sell
      at a slippage that leaves no positive price. */
  function Refusal(m: AshareOpenMatcher, i: MatchInput): Option<BacktestError>
    requires i.cash.Some?
  {
    if !m.StatusPermits(i) then None
    else if i.order.side == Buy && i.cash.value < 0.0 then Some(NegativeMaximum)
    else if i.order.side == Sell && 10000.0 <= m.rules.slippageBps && m.CappedLots(i) != 0 then Some(NonPositivePrice)
    else None
  }

  lemma SellPrice(m: AshareOpenMatcher, open: Price)
    ensures 0.0 < m.ExecutionPrice(Sell, open) <==> m.rules.slippageBps < 10000.0
  {
    var kept := 1.0 - m.rules.slippageBps / 10000.0;
    if m.rules.slippageBps < 10000.0 {
      assert 0.0 < kept;
    } else {
      Scale(kept, 0.0, open);
    }
  }

  /** The matcher raises exactly what it refuses, and otherwise stays inside its limits. */
  lemma RefusalExact(m: AshareOpenMatcher, i: MatchInput)
    requires Posed(i)
    ensures match Refusal(m, i)
      case Some(error) => m.Match(i) == Err(error)
      case None => Respectful(i, m.Match(i))
  {
    SellPrice(m, i.bar.open);
    m.BuyNeverCheaper(i.bar.open);
    FloorOfQuotient(i.cash.value, i.bar.open, 0);
    if m.Permitted(i) {
      m.OptimalFill(i);
    }
  }

  /** A buy the status permits raises exactly when cash is negative. */
  lemma NegativeCashRaises(m: AshareOpenMatcher, session: MarketSession, order: BacktestOrder, run: Run)
    requires order.side == Buy && order.submittedAt < session.openAt && Quoted(session, order)
    requires m.StatusPermits(TurnInput(session, order, run))
    ensures FillOne(m.AsMatcher(), session, order, run) == Err(NegativeMaximum) <==> run.ledger.cash < 0.0
  {
    var i := TurnInput(session, order, run);
    assert m.AsMatcher()(i) == m.Match(i);
    RefusalExact(m, i);
    if m.Match(i).Ok? && m.Match(i).value.Some? {
      RecordNeverRefusesSize(m.Match(i).value.value, run.(fillSequence := run.fillSequence + 1));
    }
  }

  lemma RecordNeverRefusesSize(fill: Fill, run: Run)
    ensures Record(fill, run) != Err(NegativeMaximum)
  {
  }

  /** With slippage below the whole price the matcher is sound on every market. */
  lemma AshareSound(m: AshareOpenMatcher, sessions: seq<MarketSession>)
    requires m.rules.slippageBps < 10000.0
    ensures SoundOn(m.AsMatcher(), sessions)
  {
    forall k, i | 0 <= k < |sessions| && Posed(i) && 0.0 <= i.cash.value && i.bar in sessions[k].bars
      ensures Respectful(i, m.AsMatcher()(i))
    {
      RefusalExact(m, i);
    }
  }

  /** Cash never goes negative in a run exactly when every sell's fee is within the cash and the proceeds
      at its turn; then only an unmarked close can raise. */
  lemma AshareGuards(initialCash: NonNeg, m: AshareOpenMatcher, strategy: Strategy, sessions: seq<MarketSession>,
      n: nat)
    requires ValidSessions(sessions) && n <= |sessions| && m.rules.slippageBps < 10000.0
    ensures AlwaysCovered(initialCash, m.AsMatcher(), strategy, sessions, n)
       <==> NeverOverdrawn(initialCash, m.AsMatcher(), strategy, sessions, n)
    ensures AlwaysCovered(initialCash, m.AsMatcher(), strategy, sessions, n) ==>
      var last := After(initialCash, m.AsMatcher(), strategy, sessions, n);
      if AlwaysMarked(initialCash, m.AsMatcher(), strategy, sessions, n)
      then last.Ok? && SafeBefore(initialCash, sessions, n, last.value)
      else last == Err(MissingMark)
  {
    AshareSound(m, sessions);
    GuardsNeverFire(initialCash, m.AsMatcher(), strategy, sessions, n);
  }

  /** One lot sold at the slipped open brings in at least its own fee. */
  predicate LotCoversSellFee(m: AshareOpenMatcher, bar: DailyBar) {
    var price := m.ExecutionPrice(Sell, bar.open);
    var lot := Worth(price, m.rules.lotSize);
    0.0 < price && 0.0 < lot && m.fees.Charge(Sell, lot) <= lot
  }

  lemma LotIsLeast(quantity: Pos, lot: Pos)
    requires quantity % lot == 0
    ensures lot <= quantity
  {
  }

  lemma LotCoversSells(m: AshareOpenMatcher, i: MatchInput)
    requires Posed(i) && 0.0 <= i.cash.value && LotCoversSellFee(m, i.bar)
    ensures SelfCovering(m.Match(i))
  {
    FloorOfQuotient(i.cash.value, i.bar.open, 0);
    m.BuyNeverCheaper(i.bar.open);
    if m.Permitted(i) {
      m.OptimalFill(i);
      if m.Match(i).value.Some? && i.order.side == Sell {
        var fill, lot := m.Match(i).value.value, m.rules.lotSize;
        LotIsLeast(fill.quantity, lot);
        WorthMonotone(fill.price, fill.price, lot, fill.quantity);
        m.fees.CoverageUpwardClosed(Sell, Worth(fill.price, lot), fill.Notional());
      }
    }
  }

  /** Wherever one lot covers its own sell fee, every sell's fee is covered in every run. */
  lemma LotsCoverFees(initialCash: NonNeg, m: AshareOpenMatcher, strategy: Strategy, sessions: seq<MarketSession>,
      n: nat)
    requires ValidSessions(sessions) && n <= |sessions| && m.rules.slippageBps < 10000.0
    requires forall k, bar :: 0 <= k < |sessions| && bar in sessions[k].bars ==> LotCoversSellFee(m, bar)
    ensures AlwaysCovered(initialCash, m.AsMatcher(), strategy, sessions, n)
  {
    AshareSound(m, sessions);
    forall k, i | 0 <= k < |sessions| && Posed(i) && 0.0 <= i.cash.value && i.bar in sessions[k].bars
      ensures SelfCovering(m.AsMatcher()(i))
    {
      LotCoversSells(m, i);
    }
    SelfCoveringCovers(initialCash, m.AsMatcher(), strategy, sessions, n);
  }

  // What a run raises, with no condition on fees or slippage.

  function TurnError(m: AshareOpenMatcher, session: MarketSession, order: BacktestOrder,
      run: Run): Option<BacktestError> {
    if Quoted(session, order) then Refusal(m, TurnInput(session, order, run)) else None
  }

  /** The first error raised as the orders take their turns. */
  function FirstError(m: AshareOpenMatcher, session: MarketSession, orders: seq<BacktestOrder>,
      run: Run): Option<BacktestError>
    decreases |orders|
  {
    if orders == [] then None
    else
      var raised := TurnError(m, session, orders[0], run);
      var next := FillOne(m.AsMatcher(), session, orders[0], run);
      if raised.Some? || next.Err? then raised else FirstError(m, session, orders[1..], next.value)
  }

  lemma TurnExact(initialCash: NonNeg, m: AshareOpenMatcher, session: MarketSession, order: BacktestOrder, run: Run)
    requires Sane(initialCash, run, session.openAt) && Current(order, run, session.openAt)
    ensures match TurnError(m, session, order, run)
      case Some(error) => FillOne(m.AsMatcher(), session, order, run) == Err(error)
      case None => TurnRespectful(m.AsMatcher(), session, order, run)
  {
    if Quoted(session, order) {
      TurnPosed(session, order, run);
      assert m.AsMatcher()(TurnInput(session, order, run)) == m.Match(TurnInput(session, order, run));
      RefusalExact(m, TurnInput(session, order, run));
    }
  }

  lemma {:induction false} FillAllExact(
    initialCash: NonNeg, m: AshareOpenMatcher, session: MarketSession, orders: seq<BacktestOrder>, run: Run)
    requires Sane(initialCash, run, session.openAt) && Waiting(orders, run, session.openAt)
    ensures var last := FillAll(m.AsMatcher(), session, orders, run);
      match FirstError(m, session, orders, run)
      case Some(error) => last == Err(error)
      case None => last.Ok? && Sane(initialCash, last.value, session.openAt)
    decreases |orders|
  {
    if orders != [] {
      TurnExact(initialCash, m, session, orders[0], run);
      if TurnError(m, session, orders[0], run).None? {
        FillOneSane(initialCash, m.AsMatcher(), session, orders[0], run);
        StillWaiting(m.AsMatcher(), session, orders, run);
        FillAllExact(initialCash, m, session, orders[1..], FillOne(m.AsMatcher(), session, orders[0], run).value);
      }
    }
  }

  /** The first error raised while an open is matched. */
  ghost function OpenError(m: AshareOpenMatcher, session: MarketSession, run: Run): Option<BacktestError> {
    FirstError(m, session, run.book.Eligible(session.openAt), Started(session, run))
  }

  lemma OpenExact(initialCash: NonNeg, m: AshareOpenMatcher, session: MarketSession, run: Run)
    requires Sane(initialCash, run, session.openAt)
    ensures var last := OpenStep(m.AsMatcher(), session, run);
      match OpenError(m, session, run)
      case Some(error) => last == Err(error)
      case None => last.Ok? && Sane(initialCash, last.value, session.openAt)
  {
    EligibleWaiting(initialCash, session, run);
    FillAllExact(initialCash, m, session, run.book.Eligible(session.openAt), Started(session, run));
  }

  /** No turn of the session's open raises, and its close can mark everything held. */
  ghost predicate Unobstructed(m: AshareOpenMatcher, session: MarketSession, run: Run) {
    OpenError(m, session, run).None? && MarkedAfterOpen(m.AsMatcher(), session, run)
  }

  /** What an obstructed session raises. */
  ghost function Obstruction(m: AshareOpenMatcher, session: MarketSession, run: Run): BacktestError {
    OpenError(m, session, run).GetOr(MissingMark)
  }

  lemma SessionExact(
    initialCash: NonNeg, m: AshareOpenMatcher, strategy: Strategy, sessions: seq<MarketSession>, k: nat, run: Run)
    requires ValidSessions(sessions) && k < |sessions| && SaneBefore(initialCash, sessions, k, run)
    ensures var last := SessionStep(m.AsMatcher(), strategy, sessions[k], run);
      if Unobstructed(m, sessions[k], run) then last.Ok? && SaneBefore(initialCash, sessions, k + 1, last.value)
      else last == Err(Obstruction(m, sessions[k], run))
  {
    SaneAtOpen(initialCash, sessions, k, run);
    OpenExact(initialCash, m, sessions[k], run);
    var matched := OpenStep(m.AsMatcher(), sessions[k], run);
    if matched.Ok? {
      CloseStepSane(initialCash, strategy, sessions[k], matched.value);
    }
  }

  ghost function SaneState(initialCash: NonNeg, sessions: seq<MarketSession>): (nat, Run) -> bool {
    (k: nat, run: Run) => SaneBefore(initialCash, sessions, k, run)
  }

  ghost function Clear(m: AshareOpenMatcher, sessions: seq<MarketSession>): (nat, Run) -> bool {
    (k: nat, run: Run) => k < |sessions| && Unobstructed(m, sessions[k], run)
  }

  ghost function Raised(m: AshareOpenMatcher, sessions: seq<MarketSession>): (nat, Run) -> BacktestError {
    (k: nat, run: Run) => if k < |sessions| then Obstruction(m, sessions[k], run) else MissingMark
  }

  lemma SaneStateIs(initialCash: NonNeg, sessions: seq<MarketSession>, k: nat, run: Run)
    ensures SaneState(initialCash, sessions)(k, run) == SaneBefore(initialCash, sessions, k, run)
  {
  }

  lemma ClearIs(m: AshareOpenMatcher, sessions: seq<MarketSession>, k: nat, run: Run)
    requires k < |sessions|
    ensures Clear(m, sessions)(k, run) == Unobstructed(m, sessions[k], run)
    ensures Raised(m, sessions)(k, run) == Obstruction(m, sessions[k], run)
  {
  }

  lemma ExactStepIs(
    initialCash: NonNeg, m: AshareOpenMatcher, strategy: Strategy, sessions: seq<MarketSession>, k: nat, run: Run)
    requires k < |sessions|
    ensures var last := SessionFold(m.AsMatcher(), strategy)(sessions[k], run);
      && last == SessionStep(m.AsMatcher(), strategy, sessions[k], run)
      && (last.Ok? ==>
           SaneState(initialCash, sessions)(k + 1, last.value) == SaneBefore(initialCash, sessions, k + 1, last.value))
  {
    var last := SessionStep(m.AsMatcher(), strategy, sessions[k], run);
    if last.Ok? {
      SaneStateIs(initialCash, sessions, k + 1, last.value);
    }
  }

  lemma ExactApplied(
    initialCash: NonNeg, m: AshareOpenMatcher, strategy: Strategy, sessions: seq<MarketSession>, k: nat, run: Run)
    requires ValidSessions(sessions) && k < |sessions| && SaneState(initialCash, sessions)(k, run)
    ensures var last := SessionFold(m.AsMatcher(), strategy)(sessions[k], run);
      if Clear(m, sessions)(k, run) then last.Ok? && SaneState(initialCash, sessions)(k + 1, last.value)
      else last == Err(Raised(m, sessions)(k, run))
  {
    SaneStateIs(initialCash, sessions, k, run);
    ClearIs(m, sessions, k, run);
    SessionExact(initialCash, m, strategy, sessions, k, run);
    ExactStepIs(initialCash, m, strategy, sessions, k, run);
  }

  lemma ExactStates(
    initialCash: NonNeg, m: AshareOpenMatcher, strategy: Strategy, sessions: seq<MarketSession>, k: nat, run: Run)
    requires ValidSessions(sessions) && k < |sessions|
    ensures FailsWhenBad(SessionFold(m.AsMatcher(), strategy), sessions, SaneState(initialCash, sessions),
                         Clear(m, sessions), Raised(m, sessions), k, run)
  {
    if SaneState(initialCash, sessions)(k, run) {
      ExactApplied(initialCash, m, strategy, sessions, k, run);
    }
  }

  /** The run reached the k-th session, which raised. */
  ghost predicate RaisedAt(
    initialCash: NonNeg, m: AshareOpenMatcher, strategy: Strategy, sessions: seq<MarketSession>, n: nat, k: nat)
    requires k < n <= |sessions|
  {
    FailedAt(SessionFold(m.AsMatcher(), strategy), FirstRun(initialCash), sessions, Clear(m, sessions),
      Raised(m, sessions), n, k)
  }

  /** No session reached raises. */
  ghost predicate AlwaysClear(
    initialCash: NonNeg, m: AshareOpenMatcher, strategy: Strategy, sessions: seq<MarketSession>, n: nat)
    requires n <= |sessions|
  {
    Always(SessionFold(m.AsMatcher(), strategy), FirstRun(initialCash), sessions, Clear(m, sessions), n)
  }

  /** For every fee schedule, slippage and market: a run raises exactly when it reaches a session where a
      permitted buy takes its turn while cash is negative, a whole lot is for sale at no positive price, or
      a held symbol has no bar at the close; and it raises the error of the first of these. */
  lemma AshareRaisesExactly(
    initialCash: NonNeg, m: AshareOpenMatcher, strategy: Strategy, sessions: seq<MarketSession>, n: nat)
    requires ValidSessions(sessions) && n <= |sessions|
    ensures var last := After(initialCash, m.AsMatcher(), strategy, sessions, n);
      if AlwaysClear(initialCash, m, strategy, sessions, n)
      then last.Ok? && SaneBefore(initialCash, sessions, n, last.value)
      else exists k :: 0 <= k < n && RaisedAt(initialCash, m, strategy, sessions, n, k)
  {
    var step, first := SessionFold(m.AsMatcher(), strategy), FirstRun(initialCash);
    forall k | 0 <= k < n && Fold(step, first, sessions, k).Ok?
      ensures FailsWhenBad(step, sessions, SaneState(initialCash, sessions), Clear(m, sessions), Raised(m, sessions),
                           k, Fold(step, first, sessions, k).value)
    {
      ExactStates(initialCash, m, strategy, sessions, k, Fold(step, first, sessions, k).value);
    }
    FoldFailsExactly(step, first, sessions, SaneState(initialCash, sessions), Clear(m, sessions), Raised(m, sessions),
      n);
    if k :| 0 <= k < n && FailedAt(step, first, sessions, Clear(m, sessions), Raised(m, sessions), n, k) {
      assert RaisedAt(initialCash, m, strategy, sessions, n, k);
    }
  }

  // Cash, whatever the slippage.

  lemma {:induction false} FillAllCovered(
    initialCash: NonNeg, m: AshareOpenMatcher, session: MarketSession, orders: seq<BacktestOrder>, run: Run)
    requires Healthy(initialCash, run, session.openAt) && Waiting(orders, run, session.openAt)
    ensures FeesCovered(m.AsMatcher(), session, orders, run) <==> CashKept(m.AsMatcher(), session, orders, run)
    ensures var last := FillAll(m.AsMatcher(), session, orders, run);
      FeesCovered(m.AsMatcher(), session, orders, run) && last.Ok? ==> 0.0 <= last.value.ledger.cash
    decreases |orders|
  {
    if orders != [] {
      TurnExact(initialCash, m, session, orders[0], run);
      if TurnError(m, session, orders[0], run).None? {
        FillOneSane(initialCash, m.AsMatcher(), session, orders[0], run);
        StillWaiting(m.AsMatcher(), session, orders, run);
        if FeeCovered(m.AsMatcher(), session, orders[0], run) {
          FillAllCovered(initialCash, m, session, orders[1..], FillOne(m.AsMatcher(), session, orders[0], run).value);
        }
      } else {
        RefusedCovered(m, session, orders[0], run);
      }
    }
  }

  lemma RefusedCovered(m: AshareOpenMatcher, session: MarketSession, order: BacktestOrder, run: Run)
    requires TurnError(m, session, order, run).Some? && Posed(TurnInput(session, order, run))
    ensures FeeCovered(m.AsMatcher(), session, order, run)
  {
    assert m.AsMatcher()(TurnInput(session, order, run)) == m.Match(TurnInput(session, order, run));
    RefusalExact(m, TurnInput(session, order, run));
  }

  lemma OpenOfDay(initialCash: NonNeg, m: AshareOpenMatcher, sessions: seq<MarketSession>, k: nat, run: Run)
    requires ValidSessions(sessions) && k < |sessions| && SafeBefore(initialCash, sessions, k, run)
    ensures OpenCovered(m.AsMatcher(), sessions[k], run) <==> OpenKeepsCash(m.AsMatcher(), sessions[k], run)
    ensures var last := OpenStep(m.AsMatcher(), sessions[k], run);
      OpenCovered(m.AsMatcher(), sessions[k], run) && last.Ok? ==> 0.0 <= last.value.ledger.cash
  {
    SaneAtOpen(initialCash, sessions, k, run);
    EligibleWaiting(initialCash, sessions[k], run);
    FillAllCovered(initialCash, m, sessions[k], run.book.Eligible(sessions[k].openAt), Started(sessions[k], run));
  }

  lemma CoverageAgrees(initialCash: NonNeg, m: AshareOpenMatcher, sessions: seq<MarketSession>, k: nat, run: Run)
    requires ValidSessions(sessions) && k < |sessions|
    ensures AgreeAt(SafeState(initialCash, sessions), Covered(m.AsMatcher(), sessions),
                    KeepsCash(m.AsMatcher(), sessions), k, run)
  {
    if SafeBefore(initialCash, sessions, k, run) {
      OpenOfDay(initialCash, m, sessions, k, run);
    }
  }

  lemma SessionCovered(
    initialCash: NonNeg, m: AshareOpenMatcher, strategy: Strategy, sessions: seq<MarketSession>, k: nat, run: Run)
    requires ValidSessions(sessions) && k < |sessions| && SafeBefore(initialCash, sessions, k, run)
    requires OpenCovered(m.AsMatcher(), sessions[k], run)
    ensures var last := SessionStep(m.AsMatcher(), strategy, sessions[k], run);
      if Unobstructed(m, sessions[k], run) then last.Ok? && SafeBefore(initialCash, sessions, k + 1, last.value)
      else last == Err(Obstruction(m, sessions[k], run))
  {
    SessionExact(initialCash, m, strategy, sessions, k, run);
    OpenOfDay(initialCash, m, sessions, k, run);
    SaneAtOpen(initialCash, sessions, k, run);
    OpenExact(initialCash, m, sessions[k], run);
    var matched := OpenStep(m.AsMatcher(), sessions[k], run);
    if matched.Ok? {
      CloseStepSane(initialCash, strategy, sessions[k], matched.value);
    }
  }

  lemma CoveredApplied(
    initialCash: NonNeg, m: AshareOpenMatcher, strategy: Strategy, sessions: seq<MarketSession>, k: nat, run: Run)
    requires ValidSessions(sessions) && k < |sessions|
    requires SafeState(initialCash, sessions)(k, run) && Covered(m.AsMatcher(), sessions)(k, run)
    ensures var last := SessionFold(m.AsMatcher(), strategy)(sessions[k], run);
      if Clear(m, sessions)(k, run) then last.Ok? && SafeState(initialCash, sessions)(k + 1, last.value)
      else last == Err(Raised(m, sessions)(k, run))
  {
    StateIs(initialCash, sessions, k, run);
    MarkedIs(m.AsMatcher(), sessions, k, run);
    ClearIs(m, sessions, k, run);
    SessionCovered(initialCash, m, strategy, sessions, k, run);
    StepIs(initialCash, m.AsMatcher(), strategy, sessions, k, run);
  }

  lemma CoveredStates(
    initialCash: NonNeg, m: AshareOpenMatcher, strategy: Strategy, sessions: seq<MarketSession>, k: nat, run: Run)
    requires ValidSessions(sessions) && k < |sessions| && Covered(m.AsMatcher(), sessions)(k, run)
    ensures FailsWhenBad(SessionFold(m.AsMatcher(), strategy), sessions, SafeState(initialCash, sessions),
                         Clear(m, sessions), Raised(m, sessions), k, run)
  {
    if SafeState(initialCash, sessions)(k, run) {
      CoveredApplied(initialCash, m, strategy, sessions, k, run);
    }
  }

  /** For every fee schedule, slippage and market, cash is never negative in a run, not even between two
      turns, exactly when every sell's fee is within cash plus proceeds at its turn. */
  lemma AshareCoverage(
    initialCash: NonNeg, m: AshareOpenMatcher, strategy: Strategy, sessions: seq<MarketSession>, n: nat)
    requires ValidSessions(sessions) && n <= |sessions|
    ensures AlwaysCovered(initialCash, m.AsMatcher(), strategy, sessions, n)
       <==> NeverOverdrawn(initialCash, m.AsMatcher(), strategy, sessions, n)
  {
    var step, first, inv := SessionFold(m.AsMatcher(), strategy), FirstRun(initialCash),
      SafeState(initialCash, sessions);
    var covered, kept := Covered(m.AsMatcher(), sessions), KeepsCash(m.AsMatcher(), sessions);
    forall k, run | 0 <= k < n
      ensures AgreeAt(inv, covered, kept, k, run)
    {
      CoverageAgrees(initialCash, m, sessions, k, run);
    }
    forall k, run | 0 <= k < n && covered(k, run)
      ensures FailsWhenBad(step, sessions, inv, Clear(m, sessions), Raised(m, sessions), k, run)
    {
      CoveredStates(initialCash, m, strategy, sessions, k, run);
    }
    FoldAlwaysAgrees(step, first, sessions, inv, Clear(m, sessions), Raised(m, sessions), covered, kept, n);
  }
}
