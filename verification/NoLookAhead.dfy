/** What a run shows up to a session's close depends only on the sessions up to that close. */
module NoLookAhead {
  import opened Wrappers
  import opened Market
  import opened Orders
  import opened Matching
  import opened Backtest
  import opened Folding
  import opened Sequences

  function EventBy(t: Time): BacktestEvent -> bool {
    (event: BacktestEvent) => event.OccurredAt() <= t
  }

  function FillBy(t: Time): Fill -> bool {
    (fill: Fill) => fill.occurredAt <= t
  }

  /** The events stamped no later than `t`. */
  function EventsUpTo(events: seq<BacktestEvent>, t: Time): seq<BacktestEvent> {
    Kept(EventBy(t), events)
  }

  function FillsUpTo(fills: seq<Fill>, t: Time): seq<Fill> {
    Kept(FillBy(t), fills)
  }

  function FillsIn(events: seq<BacktestEvent>): seq<Fill> {
    if events == [] then []
    else
      var last := events[|events| - 1];
      FillsIn(events[..|events| - 1]) + if last.FillEvent? then [last.fill] else []
  }

  lemma {:induction false} FillsOfEventsUpTo(events: seq<BacktestEvent>, t: Time)
    ensures FillsUpTo(FillsIn(events), t) == FillsIn(EventsUpTo(events, t))
  {
    if events != [] {
      var front, last := events[..|events| - 1], events[|events| - 1];
      FillsOfEventsUpTo(front, t);
      FillsInAppend(EventsUpTo(front, t), last);
      if last.FillEvent? {
        KeptNext(FillBy(t), FillsIn(front), last.fill);
        assert FillsIn(events) == FillsIn(front) + [last.fill];
      } else {
        assert FillsIn(events) == FillsIn(front);
      }
      if last.OccurredAt() <= t {
        assert EventsUpTo(events, t) == EventsUpTo(front, t) + [last];
      } else {
        assert EventsUpTo(events, t) == EventsUpTo(front, t);
      }
    }
  }

  lemma FillsInAppend(events: seq<BacktestEvent>, event: BacktestEvent)
    ensures FillsIn(events + [event]) == FillsIn(events) + if event.FillEvent? then [event.fill] else []
  {
    assert (events + [event])[..|events|] == events;
  }

  lemma {:induction false} EventsUpToCuts(earlier: seq<BacktestEvent>, later: seq<BacktestEvent>, t: Time)
    requires earlier <= later
    requires forall i :: 0 <= i < |later| ==> (later[i].OccurredAt() <= t <==> i < |earlier|)
    ensures EventsUpTo(later, t) == earlier
    decreases |later|
  {
    if later != [] {
      var front := later[..|later| - 1];
      EventsUpToCuts(if |later| == |earlier| then earlier[..|earlier| - 1] else earlier, front, t);
    }
  }

  /** A matcher stamps its fills with the open it was asked to match at. */
  ghost predicate StampsFills(matcher: Matcher) {
    forall i: MatchInput :: matcher(i).Ok? && matcher(i).value.Some? ==>
      matcher(i).value.value.occurredAt == i.occurredAt
  }

  lemma NextOpenStamps()
    ensures StampsFills(NextOpenMatch)
  {
  }

  lemma AshareStamps(m: AshareOpenMatcher)
    ensures StampsFills(m.AsMatcher())
  {
  }

  /** `b` adds to `a` only events stamped in `[lo, hi]`, and keeps what `a` recorded. */
  ghost predicate Adds(a: Run, b: Run, lo: Time, hi: Time) {
    && a.events <= b.events
    && (forall i :: |a.events| <= i < |b.events| ==> lo <= b.events[i].OccurredAt() <= hi)
    && a.equity <= b.equity
    && (a.ledger.fills == FillsIn(a.events) ==> b.ledger.fills == FillsIn(b.events))
  }

  lemma AddsChain(a: Run, b: Run, c: Run, lo: Time, upTo: Time, from: Time, hi: Time)
    requires lo <= from && upTo <= hi && Adds(a, b, lo, upTo) && Adds(b, c, from, hi)
    ensures Adds(a, c, lo, hi)
  {
  }

  lemma AddsOne(a: Run, event: BacktestEvent, b: Run, at: Time)
    requires b.events == a.events + [event] && event.OccurredAt() == at
    requires a.equity <= b.equity
    requires b.ledger.fills == a.ledger.fills + if event.FillEvent? then [event.fill] else []
    ensures Adds(a, b, at, at)
  {
    FillsInAppend(a.events, event);
  }

  lemma FillOneAdds(matcher: Matcher, session: MarketSession, order: BacktestOrder, run: Run)
    requires StampsFills(matcher) && FillOne(matcher, session, order, run).Ok?
    ensures var next := FillOne(matcher, session, order, run).value;
      Adds(run, next, session.openAt, session.openAt) && next.contexts == run.contexts && next.equity == run.equity
  {
    var next := FillOne(matcher, session, order, run).value;
    if next.events != run.events {
      AddsOne(run, next.events[|run.events|], next, session.openAt);
    }
  }

  lemma {:induction false} FillAllAdds(matcher: Matcher, session: MarketSession, orders: seq<BacktestOrder>, run: Run)
    requires StampsFills(matcher) && FillAll(matcher, session, orders, run).Ok?
    ensures var next := FillAll(matcher, session, orders, run).value;
      Adds(run, next, session.openAt, session.openAt) && next.contexts == run.contexts && next.equity == run.equity
    decreases |orders|
  {
    if orders != [] {
      var middle := FillOne(matcher, session, orders[0], run).value;
      FillOneAdds(matcher, session, orders[0], run);
      FillAllAdds(matcher, session, orders[1..], middle);
      AddsChain(run, middle, FillAll(matcher, session, orders, run).value,
        session.openAt, session.openAt, session.openAt, session.openAt);
    }
  }

  lemma {:induction false} SubmitAllAdds(requests: seq<OrderRequest>, at: Time, run: Run)
    requires SubmitAll(requests, at, run).Ok?
    ensures var next := SubmitAll(requests, at, run).value;
      Adds(run, next, at, at) && next.contexts == run.contexts && next.equity == run.equity
    decreases |requests|
  {
    if requests != [] {
      var middle := SubmitOne(requests[0], at, run).value;
      AddsOne(run, middle.events[|run.events|], middle, at);
      SubmitAllAdds(requests[1..], at, middle);
      AddsChain(run, middle, SubmitAll(requests, at, run).value, at, at, at, at);
    }
  }

  lemma OpenStepAdds(matcher: Matcher, session: MarketSession, run: Run)
    requires StampsFills(matcher) && OpenStep(matcher, session, run).Ok?
    ensures var next := OpenStep(matcher, session, run).value;
      Adds(run, next, session.openAt, session.openAt) && next.contexts == run.contexts && next.equity == run.equity
  {
    var started := Started(session, run);
    AddsOne(run, started.events[|run.events|], started, session.openAt);
    FillAllAdds(matcher, session, run.book.Eligible(session.openAt), started);
    AddsChain(run, started, OpenStep(matcher, session, run).value, session.openAt, session.openAt, session.openAt,
      session.openAt);
  }

  lemma CloseStepAdds(strategy: Strategy, session: MarketSession, run: Run)
    requires CloseStep(strategy, session, run).Ok?
    ensures var next := CloseStep(strategy, session, run).value;
      && Adds(run, next, session.closeAt, session.closeAt)
      && |next.contexts| == |run.contexts| + 1 && |next.equity| == |run.equity| + 1
  {
    var snapshot := run.ledger.Snapshot(session.closeAt, ClosePrices(session.bars)).value;
    var closed := Closed(session, snapshot, run);
    AddsOne(run, closed.events[|run.events|], closed, session.closeAt);
    SubmitAllAdds(strategy(closed.contexts), session.closeAt, closed);
    AddsChain(run, closed, CloseStep(strategy, session, run).value, session.closeAt, session.closeAt, session.closeAt,
      session.closeAt);
  }

  /** What one session adds to a run. */
  ghost predicate SessionAdded(a: Run, b: Run, session: MarketSession) {
    && Adds(a, b, session.openAt, session.closeAt)
    && |b.contexts| == |a.contexts| + 1 && |b.equity| == |a.equity| + 1
  }

  lemma SessionAdds(matcher: Matcher, strategy: Strategy, session: MarketSession, run: Run)
    requires StampsFills(matcher) && session.openAt < session.closeAt
    requires SessionStep(matcher, strategy, session, run).Ok?
    ensures SessionAdded(run, SessionStep(matcher, strategy, session, run).value, session)
  {
    var matched := OpenStep(matcher, session, run).value;
    OpenStepAdds(matcher, session, run);
    CloseStepAdds(strategy, session, matched);
    AddsChain(run, matched, CloseStep(strategy, session, matched).value,
      session.openAt, session.openAt, session.closeAt, session.closeAt);
  }

  /** The states between the first n sessions. */
  ghost predicate Linked(states: seq<Run>, sessions: seq<MarketSession>, n: nat) {
    && n <= |sessions| && |states| == n + 1
    && states[0].events == [] && states[0].contexts == [] && states[0].equity == [] && states[0].ledger.fills == []
    && forall k :: 0 <= k < n ==> LinkAt(states, sessions, k)
  }

  ghost predicate LinkAt(states: seq<Run>, sessions: seq<MarketSession>, k: nat)
    requires k + 1 < |states| && k < |sessions|
  {
    SessionAdded(states[k], states[k + 1], sessions[k])
  }

  /** A step that only ever adds events of its own session. */
  ghost predicate AddsPerSession(step: FoldStep<MarketSession, Run, BacktestError>) {
    forall session: MarketSession, run: Run ::
      session.Valid() && step(session, run).Ok? ==> SessionAdded(run, step(session, run).value, session)
  }

  lemma StatesLinked(
    step: FoldStep<MarketSession, Run, BacktestError>, first: Run, sessions: seq<MarketSession>, n: nat,
    states: seq<Run>)
    requires ValidSessions(sessions) && AddsPerSession(step)
    requires first.events == [] && first.contexts == [] && first.equity == [] && first.ledger.fills == []
    requires StepsThrough(step, first, sessions, n, states)
    ensures Linked(states, sessions, n)
  {
    assert Fold(step, first, sessions, 0) == Ok(states[0]);
    forall k | 0 <= k < n
      ensures LinkAt(states, sessions, k)
    {
      assert Fold(step, first, sessions, k + 1) == Ok(states[k + 1]) && sessions[k].Valid();
      assert Fold(step, first, sessions, k) == Ok(states[k]);
      assert step(sessions[k], states[k]) == Ok(states[k + 1]);
    }
  }

  /** Sessions after the k-th only add events stamped after its close. */
  lemma {:induction false} LaterSessionsAdd(states: seq<Run>, sessions: seq<MarketSession>, k: nat, n: nat)
    requires ValidSessions(sessions) && Linked(states, sessions, |sessions|) && 0 < k < n <= |sessions|
    ensures Adds(states[k], states[n], sessions[k - 1].closeAt + 1, sessions[n - 1].closeAt)
    decreases n
  {
    EarlierCloses(sessions, k - 1, n - 1);
    assert LinkAt(states, sessions, n - 1) && sessions[n - 1].Valid();
    if k + 1 < n {
      LaterSessionsAdd(states, sessions, k, n - 1);
      EarlierCloses(sessions, n - 2, n - 1);
      AddsChain(states[k], states[n - 1], states[n],
        sessions[k - 1].closeAt + 1, sessions[n - 2].closeAt, sessions[n - 1].openAt, sessions[n - 1].closeAt);
    }
  }

  /** Everything up to a close is stamped by then, the fills are exactly the fill events, and
      there is one context and one snapshot per session. */
  lemma {:induction false} StateStamped(states: seq<Run>, sessions: seq<MarketSession>, n: nat)
    requires ValidSessions(sessions) && n < |states| && Linked(states, sessions, |states| - 1)
    ensures |states[n].contexts| == n == |states[n].equity|
    ensures states[n].ledger.fills == FillsIn(states[n].events)
    ensures 0 < n ==> forall i :: 0 <= i < |states[n].events| ==>
      states[n].events[i].OccurredAt() <= sessions[n - 1].closeAt
    decreases n
  {
    if n > 0 {
      StateStamped(states, sessions, n - 1);
      assert LinkAt(states, sessions, n - 1) && sessions[n - 1].Valid();
      if n > 1 {
        EarlierCloses(sessions, n - 2, n - 1);
      }
    }
  }

  /** Two strategies that decide alike on every history of at most `k` contexts. */
  ghost predicate AgreeFor(a: Strategy, b: Strategy, k: nat) {
    forall history: seq<StrategyContext> :: |history| <= k ==> a(history) == b(history)
  }

  lemma SameSession(matcher: Matcher, a: Strategy, b: Strategy, session: MarketSession, run: Run, k: nat)
    requires AgreeFor(a, b, k) && |run.contexts| < k && StampsFills(matcher)
    ensures SessionStep(matcher, a, session, run) == SessionStep(matcher, b, session, run)
  {
    if OpenStep(matcher, session, run).Ok? {
      OpenStepAdds(matcher, session, run);
    }
  }

  lemma SamePrefixSameState(
    initialCash: NonNeg, matcher: Matcher, a: Strategy, b: Strategy,
    left: seq<MarketSession>, right: seq<MarketSession>, k: nat)
    requires ValidSessions(left) && StampsFills(matcher) && AgreeFor(a, b, k)
    requires k <= |left| && k <= |right| && left[..k] == right[..k]
    ensures After(initialCash, matcher, a, left, k) == After(initialCash, matcher, b, right, k)
  {
    var stepA, stepB := SessionFold(matcher, a), SessionFold(matcher, b);
    forall n, run: Run | 0 <= n < k && |run.contexts| == n
      ensures stepA(left[n], run) == stepB(right[n], run)
      ensures stepA(left[n], run).Ok? ==> |stepA(left[n], run).value.contexts| == n + 1
    {
      assert left[..k][n] == left[n] && right[..k][n] == right[n] && left[n].Valid();
      SameSession(matcher, a, b, left[n], run, k);
      if stepA(left[n], run).Ok? {
        SessionAdds(matcher, a, left[n], run);
      }
    }
    FoldAgrees(stepA, stepB, FirstRun(initialCash), left, right, (n, run: Run) => |run.contexts| == n, k);
  }

  /** What the whole run shows up to the k-th close is what the first k sessions produced. */
  lemma CutAt(
    step: FoldStep<MarketSession, Run, BacktestError>, first: Run, sessions: seq<MarketSession>, k: nat)
    requires ValidSessions(sessions) && AddsPerSession(step) && 0 < k <= |sessions|
    requires first.events == [] && first.contexts == [] && first.equity == [] && first.ledger.fills == []
    requires Fold(step, first, sessions, |sessions|).Ok?
    ensures Fold(step, first, sessions, k).Ok?
    ensures ShowsUpTo(Fold(step, first, sessions, |sessions|).value, Fold(step, first, sessions, k).value,
                      sessions[k - 1].closeAt)
    ensures |Fold(step, first, sessions, k).value.equity| == k
  {
    var states := FoldStates(step, first, sessions, |sessions|);
    StatesLinked(step, first, sessions, |sessions|, states);
    CutStates(states, sessions, k);
    assert Fold(step, first, sessions, k) == Ok(states[k]);
  }

  /** Everything `whole` holds up to `t` is exactly what `cut` holds. */
  ghost predicate ShowsUpTo(whole: Run, cut: Run, t: Time) {
    && EventsUpTo(whole.events, t) == cut.events
    && FillsUpTo(whole.ledger.fills, t) == cut.ledger.fills
    && cut.equity <= whole.equity
  }

  lemma CutStates(states: seq<Run>, sessions: seq<MarketSession>, k: nat)
    requires ValidSessions(sessions) && Linked(states, sessions, |sessions|) && 0 < k <= |sessions|
    ensures ShowsUpTo(states[|sessions|], states[k], sessions[k - 1].closeAt)
    ensures |states[k].equity| == k
  {
    var cut, whole, t := states[k], states[|sessions|], sessions[k - 1].closeAt;
    StateStamped(states, sessions, k);
    StateStamped(states, sessions, |sessions|);
    if k < |sessions| {
      LaterSessionsAdd(states, sessions, k, |sessions|);
    }
    EventsUpToCuts(cut.events, whole.events, t);
    FillsOfEventsUpTo(whole.events, t);
  }

  ghost predicate SameUpTo(a: BacktestResult, b: BacktestResult, t: Time, k: nat) {
    && EventsUpTo(a.events, t) == EventsUpTo(b.events, t)
    && FillsUpTo(a.fills, t) == FillsUpTo(b.fills, t)
    && k <= |a.equityCurve| && k <= |b.equityCurve| && a.equityCurve[..k] == b.equityCurve[..k]
  }

  /** Both runs raise the error of the first k sessions, or show the same up to the k-th close. */
  ghost predicate ShownAlike(
    initialCash: NonNeg, matcher: Matcher, a: Strategy, b: Strategy,
    left: seq<MarketSession>, right: seq<MarketSession>, k: nat)
    requires 0 < k <= |left|
  {
    var first := After(initialCash, matcher, a, left, k);
    var l, r := Outcome(initialCash, matcher, a, left), Outcome(initialCash, matcher, b, right);
    && (first.Err? ==> l == Err(first.error) && r == Err(first.error))
    && (l.Ok? && r.Ok? ==> SameUpTo(l.value, r.value, left[k - 1].closeAt, k))
  }

  /** No look-ahead. Let two markets share their first k sessions and two strategies decide alike
      on histories of at most k contexts. Whatever follows, the two runs show the same session
      events, submitted orders, fills and equity snapshots up to the k-th close; and if a check
      fails by then, both raise the same error. */
  lemma NothingLooksAhead(
    initialCash: NonNeg, matcher: Matcher, a: Strategy, b: Strategy,
    left: seq<MarketSession>, right: seq<MarketSession>, k: nat)
    requires ValidSessions(left) && ValidSessions(right) && StampsFills(matcher)
    requires 0 < k <= |left| && k <= |right| && left[..k] == right[..k]
    requires AgreeFor(a, b, k)
    ensures ShownAlike(initialCash, matcher, a, b, left, right, k)
  {
    assert left[..k][k - 1] == left[k - 1] && right[..k][k - 1] == right[k - 1];
    var first := After(initialCash, matcher, a, left, k);
    assert first == After(initialCash, matcher, b, right, k) by {
      SamePrefixSameState(initialCash, matcher, a, b, left, right, k);
    }
    var l := After(initialCash, matcher, a, left, |left|);
    var r := After(initialCash, matcher, b, right, |right|);
    CutRun(initialCash, matcher, a, left, k);
    CutRun(initialCash, matcher, b, right, k);
    if l.Ok? && r.Ok? {
      SameCutSameShown(l.value, r.value, first.value, left[k - 1].closeAt, k);
    }
  }

  /** No look-ahead with the baseline matcher and with every A-share matcher. */
  lemma MatchersNeverLookAhead(
    initialCash: NonNeg, m: AshareOpenMatcher, a: Strategy, b: Strategy,
    left: seq<MarketSession>, right: seq<MarketSession>, k: nat)
    requires ValidSessions(left) && ValidSessions(right)
    requires 0 < k <= |left| && k <= |right| && left[..k] == right[..k]
    requires AgreeFor(a, b, k)
    ensures ShownAlike(initialCash, NextOpenMatch, a, b, left, right, k)
    ensures ShownAlike(initialCash, m.AsMatcher(), a, b, left, right, k)
  {
    NextOpenStamps();
    AshareStamps(m);
    NothingLooksAhead(initialCash, NextOpenMatch, a, b, left, right, k);
    NothingLooksAhead(initialCash, m.AsMatcher(), a, b, left, right, k);
  }

  lemma SameCutSameShown(l: Run, r: Run, cut: Run, t: Time, k: nat)
    requires ShowsUpTo(l, cut, t) && ShowsUpTo(r, cut, t) && |cut.equity| == k
    ensures SameUpTo(ResultOf(l), ResultOf(r), t, k)
  {
  }

  lemma CutRun(initialCash: NonNeg, matcher: Matcher, strategy: Strategy, sessions: seq<MarketSession>, k: nat)
    requires ValidSessions(sessions) && StampsFills(matcher) && 0 < k <= |sessions|
    ensures var cut := After(initialCash, matcher, strategy, sessions, k);
      var whole := After(initialCash, matcher, strategy, sessions, |sessions|);
      && (cut.Err? ==> whole == cut)
      && (whole.Ok? ==>
           && cut.Ok? && ShowsUpTo(whole.value, cut.value, sessions[k - 1].closeAt)
           && |cut.value.equity| == k)
  {
    var step, first := SessionFold(matcher, strategy), FirstRun(initialCash);
    forall session: MarketSession, run | session.Valid() && step(session, run).Ok?
      ensures SessionAdded(run, step(session, run).value, session)
    {
      SessionAdds(matcher, strategy, session, run);
    }
    if Fold(step, first, sessions, k).Err? {
      FoldErrorPersists(step, first, sessions, k, |sessions|);
    } else if Fold(step, first, sessions, |sessions|).Ok? {
      CutAt(step, first, sessions, k);
    }
  }
}
