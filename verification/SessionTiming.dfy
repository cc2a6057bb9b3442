/** Every fill happens at the open of a session strictly after the one that submitted its order. */
module SessionTiming {
  import opened Wrappers
  import opened Market
  import opened Orders
  import opened Matching
  import opened Backtest
  import opened Folding
  import opened StoreAgreement
  import opened NoLookAhead

  ghost predicate OpensAt(sessions: seq<MarketSession>, n: nat, t: Time)
    requires n <= |sessions|
  {
    exists i :: 0 <= i < n && sessions[i].openAt == t
  }

  ghost predicate ClosesAt(sessions: seq<MarketSession>, n: nat, t: Time)
    requires n <= |sessions|
  {
    exists i :: 0 <= i < n && sessions[i].closeAt == t
  }

  /** Orders were submitted at closes, and fills happened at opens, of the first sessions. */
  ghost predicate Timed(run: Run, sessions: seq<MarketSession>, opens: nat, closes: nat)
    requires opens <= |sessions| && closes <= |sessions|
  {
    && (forall id :: id in run.book.orders ==> ClosesAt(sessions, closes, run.book.orders[id].submittedAt))
    && (forall f :: f in run.ledger.fills ==> OpensAt(sessions, opens, f.occurredAt))
  }

  lemma {:induction false} FillAllTimed(
    initialCash: NonNeg, matcher: Matcher, sessions: seq<MarketSession>, n: nat, orders: seq<BacktestOrder>, run: Run)
    requires n < |sessions| && StampsFills(matcher) && Agreement(initialCash, run)
    requires Timed(run, sessions, n + 1, n) && FillAll(matcher, sessions[n], orders, run).Ok?
    ensures Timed(FillAll(matcher, sessions[n], orders, run).value, sessions, n + 1, n)
    decreases |orders|
  {
    if orders != [] {
      var next := FillOne(matcher, sessions[n], orders[0], run).value;
      FillOneTimed(initialCash, matcher, sessions, n, orders[0], run);
      FillOneAgrees(initialCash, matcher, sessions[n], orders[0], run);
      FillAllTimed(initialCash, matcher, sessions, n, orders[1..], next);
    }
  }

  lemma FillOneTimed(
    initialCash: NonNeg, matcher: Matcher, sessions: seq<MarketSession>, n: nat, order: BacktestOrder, run: Run)
    requires n < |sessions| && StampsFills(matcher) && Agreement(initialCash, run)
    requires Timed(run, sessions, n + 1, n) && FillOne(matcher, sessions[n], order, run).Ok?
    ensures Timed(FillOne(matcher, sessions[n], order, run).value, sessions, n + 1, n)
  {
    var counted := run.(fillSequence := run.fillSequence + 1);
    var next := FillOne(matcher, sessions[n], order, run).value;
    if next != run && next != counted {
      var fill := matcher(InputFor(sessions[n], order, BarBySymbol(sessions[n].bars)[order.symbol], run)).value.value;
      assert OpensAt(sessions, n + 1, fill.occurredAt);
      RecordTimed(initialCash, sessions, n + 1, n, fill, counted);
    }
  }

  lemma RecordTimed(
    initialCash: NonNeg, sessions: seq<MarketSession>, opens: nat, closes: nat, fill: Fill, run: Run)
    requires opens <= |sessions| && closes <= |sessions| && Agreement(initialCash, run)
    requires Timed(run, sessions, opens, closes) && OpensAt(sessions, opens, fill.occurredAt)
    requires Record(fill, run).Ok?
    ensures Timed(Record(fill, run).value, sessions, opens, closes)
  {
    RecordEffect(fill, run);
    BookKeepsIdentity(run.book, fill);
  }

  lemma {:induction false} SubmitAllTimed(
    sessions: seq<MarketSession>, n: nat, requests: seq<OrderRequest>, run: Run)
    requires n < |sessions| && Timed(run, sessions, n + 1, n + 1)
    requires SubmitAll(requests, sessions[n].closeAt, run).Ok?
    ensures Timed(SubmitAll(requests, sessions[n].closeAt, run).value, sessions, n + 1, n + 1)
    decreases |requests|
  {
    if requests != [] {
      assert ClosesAt(sessions, n + 1, sessions[n].closeAt);
      SubmitAllTimed(sessions, n, requests[1..], SubmitOne(requests[0], sessions[n].closeAt, run).value);
    }
  }

  lemma TimedGrows(run: Run, sessions: seq<MarketSession>, opens: nat, closes: nat, opens': nat, closes': nat)
    requires opens <= opens' <= |sessions| && closes <= closes' <= |sessions|
    requires Timed(run, sessions, opens, closes)
    ensures Timed(run, sessions, opens', closes')
  {
    forall id | id in run.book.orders
      ensures ClosesAt(sessions, closes', run.book.orders[id].submittedAt)
    {
      assert ClosesAt(sessions, closes, run.book.orders[id].submittedAt);
    }
    forall f | f in run.ledger.fills
      ensures OpensAt(sessions, opens', f.occurredAt)
    {
      assert OpensAt(sessions, opens, f.occurredAt);
    }
  }

  lemma SessionTimed(
    initialCash: NonNeg, matcher: Matcher, strategy: Strategy, sessions: seq<MarketSession>, n: nat, run: Run)
    requires n < |sessions| && StampsFills(matcher) && Agreement(initialCash, run)
    requires Timed(run, sessions, n, n) && SessionStep(matcher, strategy, sessions[n], run).Ok?
    ensures Timed(SessionStep(matcher, strategy, sessions[n], run).value, sessions, n + 1, n + 1)
  {
    var session := sessions[n];
    TimedGrows(run, sessions, n, n, n + 1, n);
    FillAllTimed(initialCash, matcher, sessions, n, run.book.Eligible(session.openAt), Started(session, run));
    var matched := OpenStep(matcher, session, run).value;
    TimedGrows(matched, sessions, n + 1, n, n + 1, n + 1);
    var snapshot := matched.ledger.Snapshot(session.closeAt, ClosePrices(session.bars)).value;
    var closed := Closed(session, snapshot, matched);
    SubmitAllTimed(sessions, n, strategy(closed.contexts), closed);
  }

  ghost predicate TimedBefore(initialCash: NonNeg, sessions: seq<MarketSession>, k: nat, run: Run) {
    k <= |sessions| && Agreement(initialCash, run) && Timed(run, sessions, k, k)
  }

  lemma RunTimed(
    initialCash: NonNeg, matcher: Matcher, strategy: Strategy, sessions: seq<MarketSession>, n: nat)
    requires StampsFills(matcher) && n <= |sessions|
    requires After(initialCash, matcher, strategy, sessions, n).Ok?
    ensures TimedBefore(initialCash, sessions, n, After(initialCash, matcher, strategy, sessions, n).value)
  {
    var step := SessionFold(matcher, strategy);
    FirstAgrees(initialCash);
    forall k, run | 0 <= k < n && TimedBefore(initialCash, sessions, k, run) && step(sessions[k], run).Ok?
      ensures TimedBefore(initialCash, sessions, k + 1, step(sessions[k], run).value)
    {
      SessionTimed(initialCash, matcher, strategy, sessions, k, run);
      SessionAgrees(initialCash, matcher, strategy, sessions[k], run);
    }
    FoldInvariant(step, FirstRun(initialCash), sessions, (k, run) => TimedBefore(initialCash, sessions, k, run), n);
  }

  /** A signal of one session can only trade at the open of a later session. */
  lemma FillsInLaterSessions(
    initialCash: NonNeg, matcher: Matcher, strategy: Strategy, sessions: seq<MarketSession>, run: Run, fill: Fill)
    returns (submitted: nat, filled: nat)
    requires ValidSessions(sessions) && StampsFills(matcher)
    requires After(initialCash, matcher, strategy, sessions, |sessions|) == Ok(run) && fill in run.ledger.fills
    ensures submitted < filled < |sessions| && fill.orderId in run.book.orders
    ensures run.book.orders[fill.orderId].submittedAt == sessions[submitted].closeAt
    ensures fill.occurredAt == sessions[filled].openAt
  {
    RunTimed(initialCash, matcher, strategy, sessions, |sessions|);
    assert FillMatchesOrder(fill, run.book);
    submitted, filled := OpenAfterClose(sessions, run.book.orders[fill.orderId].submittedAt, fill.occurredAt);
  }

  lemma OpenAfterClose(sessions: seq<MarketSession>, close: Time, open: Time) returns (closed: nat, open': nat)
    requires ValidSessions(sessions) && close < open
    requires ClosesAt(sessions, |sessions|, close) && OpensAt(sessions, |sessions|, open)
    ensures closed < open' < |sessions| && sessions[closed].closeAt == close && sessions[open'].openAt == open
  {
    closed :| closed < |sessions| && sessions[closed].closeAt == close;
    open' :| open' < |sessions| && sessions[open'].openAt == open;
    assert sessions[open'].Valid() && sessions[closed].Valid();
    if open' < closed {
      EarlierCloses(sessions, open', closed);
    }
  }
}
