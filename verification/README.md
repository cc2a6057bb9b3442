# Verified model of the decision pipeline

This project models the deterministic decision pipeline of the repository in Dafny and proves what it
promises. Five parts are covered.

1. **Event-driven backtest.** A priority queue of session events drives matching at the open and
   marking, deciding and submitting at the close. Every fill enters an order book and a ledger.
   `Engine.EventDrivenBacktest.Run` is the imperative engine; `Backtest.Outcome` is what it computes, a
   left fold over the sessions. No look-ahead, agreement of the two stores, the accounting identity,
   replay, optimal A-share fills and the exact condition under which a run raises are proved on the fold;
   `RunRecords` says of every run what its snapshots and fills record.
2. **Rebalance, agent and paper broker.** The planner floors targets to lots and sorts sells first. A
   funded plan fills completely and ends at its targets. The agent's passes over the order store are
   events of a system that may crash before or after the broker call; every run of events keeps at most
   one order and one fill per idempotency key. The callback journal converges exactly when no order has
   two different endings.
3. **Factor language.** The whitelisting converter accepts exactly the well-formed expressions, the
   canonical text identifies an expression even as a prefix of a longer text, and evaluation is causal,
   has a bounded look-back and reads only the required fields. `EvaluatorLaws` and `CrossSectionLaws` say
   what each operator computes, cell by cell. Ranks, quantile groups and Benjamini-Hochberg selection are
   proved against counting definitions.
4. **Discretionary beliefs and sizing.** Which evidence counts only grows with time, so the research
   stage never falls without a falsifier; dependent evidence cannot amplify the odds; a held weight never
   rises without an evidence upgrade, over any history of reviews. `BeliefLaws` and `SizingLaws` say what
   the assessment and the proposed weight are.
5. **Point-in-time table.** The visible record of greatest precedence wins, later records do not matter,
   and insertion order is irrelevant exactly when the greatest visible records are not tied.

## Form

Objects whose methods update fields are classes whose methods state their whole new state through a value
function (`State()`), and the lemmas are about the value functions. Loops of the source are loops of
methods, proved equal to a function of their inputs. Pure code is functions.

Conventions: `Decimal` is `real` and rounding of the 28-digit context is not modelled; timestamps, dates
and symbols are integers, of which only equality and order matter; `uuid5`, SHA-256 and idempotency keys
are datatype constructors, hence injective; NaN is `None`; `ln`, `power`, standard deviation, covariance,
correlation and least-squares residuals are function parameters of the cells they are given; a strategy is
a function of the contexts seen so far; exceptions are `Result` errors. Invariants that the frozen
dataclasses check in their constructors (positive quantities, consistent order status, text fields) are
subset types or well-formedness predicates.

## Findings

Where a guarantee does not hold on all inputs the model keeps the code, says exactly when it holds, and
gives an input where it does not.

- A sell is accepted whatever its fee. For every fee schedule, slippage and market, cash stays non-negative at
  every turn of a run exactly when every sell's fee is within cash plus proceeds at its turn
  (`AshareSafety.AshareCoverage`). That holds of every run exactly when the matcher's fees have no floor and add
  up to at most the whole, or its slippage leaves sells no price (`FeeCoverage.NeverOverdrawsExactly`). A run
  raises exactly when a permitted buy's turn comes while cash is negative, a whole lot is for sale at no positive
  price, or a close lacks a bar for a held symbol (`AshareSafety.AshareRaisesExactly`); buying, selling at too
  high a fee and buying again is such a run (`Overdraft.OverdraftRaises`), also with the default rules and fees
  (`Overdraft.DefaultsOverdraw`).
- The volume participation cap bounds each order. A session's total in a symbol stays within it on every market
  exactly when at most one order of the symbol can fill (`SessionVolume.CapsSessionExactly`), and for every
  matcher some run exceeds it (`SessionVolume.RunExceedsCap`).
- A record marked FAILED can conceal a filled order: the agent crashes after the broker took the order,
  and on the next pass the risk gate refuses. `Agent.FailedConceals` says exactly when, `Agent.FailedYetFilled` gives a run.
- Two different terminal callbacks for one order make the journal depend on delivery order
  (`Journal.ConfluentExactly`).
- Records of two sources can tie in precedence, and then the first inserted wins (`PointInTime.TwoSourcesTie`).
  Insertion order is irrelevant exactly when the greatest visible records are not tied
  (`PointInTime.OrderIrrelevantExactly`), which holds whenever a key has one source (`PointInTime.OneSourceUntied`).
- Evaluation of an accepted expression succeeds exactly when the required fields are there, every integer literal
  converts to a float and no Winsorize limit is an expression (`LookBack.EvaluatesExactly`). The converter lets
  both other kinds through (`LookBack.LargeIntegerRaises`, `LookBack.NestedLimitRaises`).
- An accepted expression has no canonical text exactly when some argument in it is a float literal too large for a
  float or an integer literal with more digits than the interpreter prints, which a hexadecimal literal can have
  (`Canonical.NoTextExactly`, `Canonical.UnprintableAccepted`).
- `RankTS` is 0, not NaN, exactly on a window that ends in NaN, because comparisons with NaN are false; a NaN
  anywhere in the window makes `Mean`, `Sum`, `Min` and `Max` NaN (`Evaluator.RollingNan`).
- Strength that dips and recovers unlocks an add: a review approved at a lower strength records it, and the old
  strength then counts as an upgrade (`Positioning.DipUnlocksAdd`). While every review stays short of an upgrade
  over the strength recorded last, the held weight never rises (`Positioning.NoAddShortOfUpgrade`).
- With a zero minimum evidence upgrade, unchanged evidence under a new hash counts as an upgrade
  (`Positioning.UnchangedIsNoUpgrade`). A blocked add holds the position only when the held weight is on
  the 0.0001 grid, and otherwise shaves it (`Positioning.BlockedAddHoldsExactlyOnGrid`).

## Model

| member | source | states |
|---|---|---|
| EventQueue.EventQueue.Push | src/aquant/backtest/event_engine/queue.py:27-36 | schedules at the end of the bag with the next sequence number; refuses a time before the clock and then changes nothing |
| EventQueue.EventQueue.Pop | src/aquant/backtest/event_engine/queue.py:38-45 | takes out an entry that precedes every remaining one by time, priority and sequence, and moves the clock forward to it |
| Engine.PopIsNext | src/aquant/backtest/event_engine/queue.py:11-45 | whatever entry a queue holding the rest of the schedule may pop, it is the next event of the schedule |
| Engine.EntriesInOrder | src/aquant/backtest/event_engine/engine.py:123-135 | the scheduled open and close events of valid sessions are strictly ordered: each open before its close, each close before the next open |
| Engine.EventDrivenBacktest.ScheduleSessions | src/aquant/backtest/event_engine/engine.py:123-135 | the fresh queue holds exactly the alternating open and close events of all sessions |
| Engine.EventDrivenBacktest.NextEvent | src/aquant/backtest/event_engine/engine.py:144-147 | the k-th pop yields the open or close of session k / 2, found by date |
| Engine.EventDrivenBacktest.MatchAtOpen | src/aquant/backtest/event_engine/engine.py:149-174 | the matching loop turns book, ledger, events and fill counter into what the open step of the session prescribes, or raises its error |
| Engine.EventDrivenBacktest.RecordFill | src/aquant/backtest/event_engine/engine.py:169-173 | a fill validated by both stores enters both |
| Engine.EventDrivenBacktest.DecideAtClose | src/aquant/backtest/event_engine/engine.py:176-190 | marking, deciding and submitting give the close step of the session, or its error |
| RunRecords.MarkedAtCloses | src/aquant/backtest/event_engine/engine.py:176-180 | in every run the k-th equity snapshot values each held symbol at the close of its bar in session k, reports the ledger as the k-th open left it, and is what the strategy was shown |
| Engine.EventDrivenBacktest.CheckSessions | src/aquant/backtest/event_engine/engine.py:211-219 | sessions are refused when empty or when some neighbours are not strictly chronological |
| Engine.EventDrivenBacktest.Drain | src/aquant/backtest/event_engine/engine.py:144-190 | the queue loop passes through a complete trace of alternating open and close steps, or stops at the first failing one with its error |
| Engine.EventDrivenBacktest.Run | src/aquant/backtest/event_engine/engine.py:117-200 | the event-driven engine returns exactly the left fold of the sessions: same events, orders, fills and equity curve, or the same error |
| Folding.TraceDecides | src/aquant/backtest/event_engine/engine.py:144-190 | a complete trace of half-steps ends where the fold over whole sessions does, and a failing half-step fails that fold with the same error |
| NoLookAhead.NothingLooksAhead | src/aquant/backtest/event_engine/engine.py:117-190 | two markets that share their first k sessions, under strategies that agree on histories of at most k contexts, show the same session events, orders, fills and equity up to the k-th close, or raise the same error by then |
| NoLookAhead.MatchersNeverLookAhead | src/aquant/backtest/matching/ashare.py:43-104 | both matchers stamp their fills with the open, so no look-ahead holds with either of them |
| NoLookAhead.SamePrefixSameState | src/aquant/backtest/event_engine/engine.py:144-190 | the state after k sessions depends only on those sessions and on decisions over at most k contexts |
| NoLookAhead.CutAt | src/aquant/backtest/event_engine/engine.py:144-190 | what a whole run holds up to the k-th close is exactly what its first k sessions produced |
| SessionTiming.FillsInLaterSessions | src/aquant/backtest/event_engine/engine.py:152-173 | every fill happens at the open of a session strictly later than the session at whose close its order was submitted |
| StoreAgreement.StoresAgree | src/aquant/backtest/event_engine/engine.py:169-190 | after any number of sessions each order's filled quantity is the sum of its ledger fills and within its quantity, its status matches, positions are buys minus sells, and fills carry their order's symbol and side |
| StoreAgreement.RecordAgrees | src/aquant/backtest/event_engine/engine.py:169-172 | recording one fill in both stores keeps them in agreement |
| RunSafety.GuardsNeverFire | src/aquant/backtest/event_engine/engine.py:149-178 | with a sound matcher cash is never negative, even between turns, exactly when every sell's fee is covered at its turn; then the run succeeds if every held symbol has a bar at each close, and otherwise raises the missing-mark error and no other |
| RunSafety.NextOpenSound | src/aquant/backtest/matching/next_open.py:13-46 | the baseline matcher stays within order, position and cash on every market |
| RunSafety.NextOpenGuards | src/aquant/backtest/matching/next_open.py:13-46 | with the baseline matcher cash is never negative and only an unmarked close raises, on every market |
| RunSafety.FillOneSane | src/aquant/backtest/event_engine/engine.py:157-173 | a turn inside its limits raises nothing, and non-negative cash survives it exactly when a sell's fee is within cash plus proceeds |
| AshareSafety.AshareSound | src/aquant/backtest/matching/ashare.py:43-104 | with slippage below the whole price the A-share matcher stays within order, position and cash on every market |
| AshareSafety.AshareGuards | src/aquant/backtest/accounting/ledger.py:59-66 | with slippage below the whole price cash is never negative in a run exactly when every sell's fee is covered at its turn; then only an unmarked close raises |
| AshareSafety.AshareCoverage | src/aquant/backtest/accounting/ledger.py:59-66 | for every fee schedule, slippage and market, cash is never negative in a run, not even between turns, exactly when every sell's fee is covered at its turn |
| FeeCoverage.NeverOverdrawsExactly | src/aquant/backtest/costs/fees.py:35-42 | cash is never negative for every initial cash, strategy and market exactly when the fees have no floor and commission, stamp duty and transfer fee add up to at most the whole, or no sell can fill |
| AshareSafety.AshareRaisesExactly | src/aquant/backtest/event_engine/engine.py:149-178 | for every fee schedule, slippage and market, a run raises exactly when it reaches a permitted buy while cash is negative, a whole lot for sale at no positive price, or an unmarked close, and raises the first of these |
| AshareSafety.RefusalExact | src/aquant/backtest/matching/ashare.py:54-92 | the matcher raises exactly on a permitted buy with negative cash or a whole lot sold at no positive price, and otherwise stays inside its limits |
| AshareSafety.LotsCoverFees | src/aquant/backtest/matching/ashare.py:81-92 | where one lot sold covers its own fee, every sell's fee is covered in every run |
| AshareSafety.NegativeCashRaises | src/aquant/backtest/event_engine/engine.py:206-209 | a buy with a bar, permitted by its status, raises the negative-maximum error exactly when cash is negative |
| Overdraft.OverdraftRaises | src/aquant/backtest/accounting/ledger.py:63-66 | whenever a lot that can be bought and sold again leaves negative cash, a run over four valid sessions with every held symbol quoted raises the negative-maximum error at the next buy |
| Overdraft.DefaultsOverdraw | src/aquant/backtest/costs/fees.py:20-23 | the default rules and fees have such a run: a hundred shares at a hundredth, bought with cash 7 |
| SessionVolume.TradesPerCandidate | src/aquant/backtest/matching/ashare.py:73-79 | in any session the orders trade at most the volume cap once for each order of the symbol that can fill |
| SessionVolume.CapsSessionExactly | src/aquant/backtest/matching/ashare.py:73-79 | an open with these orders trades at most the volume cap in a symbol, in every valid session, whatever cash and holdings, exactly when at most one of them can fill in it |
| SessionVolume.RunExceedsCap | src/aquant/backtest/matching/ashare.py:73-79 | for every A-share matcher there is a run over valid sessions in which two buys of a symbol trade twice its cap at one open |
| Orders.OrderBook.Submit | src/aquant/backtest/matching/orders.py:124-127 | appends a new order, or refuses a known id and changes nothing |
| Orders.OrderBook.EligibleOrders | src/aquant/backtest/matching/orders.py:129-136 | lists working orders submitted strictly before the time, in submission order |
| Orders.OrderBook.ValidateFill | src/aquant/backtest/matching/orders.py:138-153 | the first failing check decides the error; a valid fill finds its order |
| Orders.OrderBook.ApplyFill | src/aquant/backtest/matching/orders.py:155-166 | the new book after a valid fill, the old one after a refused fill |
| Orders.OrderBook.Cancel | src/aquant/backtest/matching/orders.py:168-177 | cancels a working order and refuses others |
| Orders.FillAdvancesOneOrder | src/aquant/backtest/matching/orders.py:155-166 | an accepted fill raises one order's filled quantity within its quantity and touches no other order |
| Ledger.PortfolioLedger.ValidateFill | src/aquant/backtest/accounting/ledger.py:54-66 | refuses duplicate, out-of-order, unaffordable and uncovered fills, in that order, and nothing else |
| Ledger.PortfolioLedger.ApplyFill | src/aquant/backtest/accounting/ledger.py:68-89 | the whole new ledger after an accepted fill; a refused fill changes nothing |
| Ledger.PortfolioLedger.Snapshot | src/aquant/backtest/accounting/ledger.py:91-115 | marks held symbols in ascending order and raises at the first missing or non-positive mark |
| Ledger.PortfolioLedger.Rebuilt | src/aquant/backtest/accounting/ledger.py:117-122 | replays fills one by one into a fresh ledger, or raises the first error |
| Accounting.FillMovesCostBasis | src/aquant/backtest/accounting/ledger.py:68-89 | an accepted fill preserves cash plus cost basis minus realized profit; a buy realizes nothing, a sell keeps the average cost |
| Accounting.AccountingIdentity | src/aquant/backtest/accounting/ledger.py:68-89 | after any accepted fills, cash is initial cash plus cash flows, positions are buys minus sells, and cash plus cost basis is initial cash plus realized profit |
| Accounting.EquityIdentity | src/aquant/backtest/accounting/ledger.py:91-115 | the snapshot exists exactly when every held symbol has a positive mark, and its equity is initial cash plus realized plus unrealized profit |
| Accounting.ReplayReproduces | src/aquant/backtest/accounting/ledger.py:117-122 | rebuilding from the recorded fills succeeds and gives the same ledger |
| Accounting.CashAfterFill | src/aquant/backtest/accounting/ledger.py:59-66 | an accepted fill leaves cash non-negative exactly when it is a buy or its fee is within cash plus proceeds |
| Accounting.SellFeeCanOverdraw | src/aquant/backtest/accounting/ledger.py:63-66 | some accepted fills leave negative cash |
| Fees.AshareFeeModel.ChargeMonotone | src/aquant/backtest/costs/fees.py:35-42 | the fee is at least the minimum commission and never falls as the notional grows |
| Fees.AshareFeeModel.CoverageUpwardClosed | src/aquant/backtest/costs/fees.py:35-42 | once a notional covers its own fee, every larger notional does |
| Matching.AshareOpenMatcher.AffordableQuantity | src/aquant/backtest/matching/ashare.py:105-114 | the decrementing loop finds the first of requested, requested minus a lot, ... that cash covers, else zero |
| Matching.AshareOpenMatcher.MatchOrder | src/aquant/backtest/matching/ashare.py:43-104 | the sequence of narrowings gives the specified outcome on every input, errors included |
| Matching.AshareOpenMatcher.StatusDecides | src/aquant/backtest/matching/ashare.py:59-66 | an order that could fill is held back exactly by a suspension, a limit-up on a buy, a limit-down on a sell, or a missing status where one is required |
| Matching.AshareOpenMatcher.FilledWasTradable | src/aquant/backtest/matching/ashare.py:59-66 | no fill ever comes of such a status |
| Matching.AshareOpenMatcher.MatchRefuses | src/aquant/backtest/matching/ashare.py:55-58 | another symbol's bar or status and a time no later than the submission raise, whatever the status says |
| RunRecords.FillsWereTradable | src/aquant/backtest/event_engine/engine.py:152-173 | every fill of a run was made at an open in which its security could trade, at the price, size and fee of its bar in that session |
| Matching.NextOpenFill | src/aquant/backtest/matching/next_open.py:25-46 | the baseline fills the greatest size within order and maximum, at the open and without a fee |
| Matching.NextOpenRefuses | src/aquant/backtest/matching/next_open.py:25-32 | the three errors of the baseline matcher, in order |
| RunRecords.BaselineFillsAtOpen | src/aquant/backtest/matching/next_open.py:37-46 | every fill of a run with the baseline matcher is at the open price of its bar |
| Matching.AshareOpenMatcher.CostMonotone | src/aquant/backtest/matching/ashare.py:105-114 | total cost including fees is monotone in quantity, so smaller lots are affordable too |
| Matching.AshareOpenMatcher.AffordableGreatest | src/aquant/backtest/matching/ashare.py:105-114 | the loop's result is the greatest affordable lot multiple within the request |
| Matching.AshareOpenMatcher.OptimalFill | src/aquant/backtest/matching/ashare.py:43-104 | when matching is permitted, the fill is the greatest quantity within remaining, maximum, volume and cash limits, at the slipped price with its fee, and there is no fill exactly when no quantity is feasible |
| Matching.AshareOpenMatcher.PreCapRedundant | src/aquant/backtest/event_engine/engine.py:206-209 | the engine's floor(cash / open) cap on buys never changes what the A-share matcher does |
| PaperBroker.PaperBroker.SubmitOrder | src/aquant/execution/paper/broker.py:41-91 | the whole new state after a submission; the returned order is the one filed under the request's key |
| PaperBroker.PaperBroker.CancelOrder | src/aquant/execution/paper/broker.py:106-112 | only a submitted order can be cancelled; otherwise an error and no change |
| PaperBroker.PaperBroker.SetPrice | src/aquant/execution/paper/broker.py:35-39 | sets a positive price, refuses others |
| PaperBroker.SubmitSound | src/aquant/execution/paper/broker.py:41-91 | any submission keeps index, orders, fills and balances in agreement: one order per key, filled orders and fills one to one, balances equal opening plus fills and non-negative |
| PaperBroker.CancelSound | src/aquant/execution/paper/broker.py:106-112 | a cancellation keeps that agreement |
| PaperBroker.AtMostOncePerKey | src/aquant/execution/paper/broker.py:41-50 | no key has two orders, and no two fills belong to orders of the same key |
| PaperBroker.SubmitExtends | src/aquant/execution/paper/broker.py:41-91 | a known key changes nothing; a new key adds one order for exactly that request and leaves every other order alone |
| ExecutionStore.ExecutionOrderStore.Approve | src/aquant/execution/order_manager/store.py:26-34 | files a new request as approved, returns the existing record for the same request, refuses a different request under the key |
| ExecutionStore.ExecutionOrderStore.Pending | src/aquant/execution/order_manager/store.py:36-41 | lists the approved records in order of approval |
| ExecutionStore.ExecutionOrderStore.MarkSubmitted | src/aquant/execution/order_manager/store.py:43-50 | overwrites status and broker order of the record under the key and nothing else |
| ExecutionStore.PendingComplete | src/aquant/execution/order_manager/store.py:36-41 | the listing holds every pending key once |
| Agent.ExecutionAgent.RunOnce | src/aquant/execution/agent.py:35-53 | an active kill switch changes nothing; otherwise one completed pass over each pending record, with the counts of allowed and refused records and no unknown ones |
| Agent.ServedSettles | src/aquant/execution/agent.py:35-53 | a run marks each pending record submitted or failed as the risk gate said at its turn, leaves none pending and no other record changed |
| Agent.ServedIsRun | src/aquant/execution/agent.py:35-53 | a run of the agent is a run of handling events, so all results on event runs apply |
| Agent.RunSafe | src/aquant/execution/agent.py:35-53 | after any interleaving of approvals, passes with any fate, price changes and cancellations the broker's books are sound and store and broker agree |
| Agent.AtMostOnce | src/aquant/execution/agent.py:38-52 | over every run each key has at most one order and one fill, and cash and positions are the opening balances plus the fills, never negative |
| Agent.NeverResubmitted | src/aquant/execution/order_manager/store.py:36-68 | a record that has left APPROVED never changes again, and neither does whether the broker holds an order for it |
| Agent.CrashInvisible | src/aquant/execution/agent.py:45-52 | after a crash between the broker call and the status write, whatever follows, the broker and all other records evolve as if there had been no crash |
| Agent.CrashThenRetry | src/aquant/execution/paper/broker.py:42-44 | an immediate retry after that crash gives exactly the state without the crash |
| Agent.FailedConceals | src/aquant/execution/agent.py:41-44 | a failed record has a broker order exactly when an earlier pass crashed after the broker took it |
| Agent.FailedYetFilled | src/aquant/execution/agent.py:41-52 | a run of four events that ends with a failed record whose order is filled |
| Journal.BrokerEventJournal.Record | src/aquant/execution/order_manager/events.py:45-56 | archives a new event and writes the status exactly when the order is unfinished and the rank does not fall; a known event changes nothing |
| Journal.DeliverySettles | src/aquant/execution/order_manager/events.py:45-56 | after any delivery each order's status is one of those reported that no other outranks |
| Journal.Confluent | src/aquant/execution/order_manager/events.py:45-56 | two deliveries of the same callbacks, in any order with any repetition, leave each order with the same status when no order has two endings |
| Journal.ConfluentExactly | src/aquant/execution/order_manager/events.py:45-56 | delivery order is irrelevant exactly when no order is reported finished in two different ways |
| Journal.RankNeverFalls | src/aquant/execution/order_manager/events.py:10-17 | no callback lowers an order's rank or changes a finished order |
| Journal.ArchivedOnce | src/aquant/execution/order_manager/events.py:45-50 | the archive holds every delivered event exactly once |
| Rebalance.PlanRebalance | src/aquant/portfolio/construction/rebalance.py:21-71 | the plan is the sorted list of the orders of symbols off target, or the first error in symbol order |
| Rebalance.Decide | src/aquant/portfolio/construction/rebalance.py:37-64 | one symbol's order, none when on target, an error when unpriced |
| RebalanceFunding.LotTargetGreatest | src/aquant/portfolio/construction/rebalance.py:43-47 | the target is the greatest lot multiple whose value is within the symbol's share of equity |
| RebalanceFunding.PlanExists | src/aquant/portfolio/construction/rebalance.py:31-42 | a plan exists exactly when the inputs are valid and every symbol of the universe has a positive price |
| RebalanceFunding.PlanAccepts | src/aquant/portfolio/construction/rebalance.py:26-50 | a plan exists exactly for a named account, positive equity and lot size, and a positive price of every symbol held or wanted |
| RebalanceFunding.PlanContents | src/aquant/portfolio/construction/rebalance.py:34-65 | the plan holds exactly one order for each symbol off target, sells before buys and by symbol |
| RebalanceFunding.PlanFlowIsDifference | src/aquant/portfolio/construction/rebalance.py:43-53 | the cash the plan brings in is the value held minus the value of the targets |
| RebalanceFunding.TargetsWithinEquity | src/aquant/portfolio/construction/rebalance.py:43-47 | the targets together never cost more than the equity |
| RebalanceFunding.FundedProgress | src/aquant/execution/paper/broker.py:51-91 | each order of a funded plan fills in turn at the planned price and cash is never negative on the way |
| RebalanceFunding.FundedRebalance | src/aquant/portfolio/construction/rebalance.py:36-65 | submitting a funded plan in its order fills every order, ends exactly at the floored targets, leaves other positions alone and conserves cash plus holdings |
| RebalanceFunding.ReplanEmpty | src/aquant/portfolio/construction/rebalance.py:36-65 | when equity equals cash plus holdings, planning again from the result is empty |
| RebalanceFunding.ResubmissionIgnored | src/aquant/execution/paper/broker.py:42-44 | submitting a plan a second time changes nothing |
| Sorting.SortedByFacts | src/aquant/portfolio/construction/rebalance.py:65 | the stable sort's result is sorted and a permutation |
| Sorting.SortedByIsStable | src/aquant/portfolio/construction/rebalance.py:65 | elements that tie keep their order |
| Dsl.ParsedWellFormed | src/aquant/factors/definitions/dsl.py:85-95 | every accepted expression has allowed fields and operators, declared arities and positive windows, and is within the complexity limit |
| Dsl.AcceptedExactly | src/aquant/factors/definitions/dsl.py:85-95 | a source is accepted exactly when it converts and its complexity is at most the limit |
| Dsl.ComplexityAdds | src/aquant/factors/definitions/dsl.py:63-68 | complexity counts the operator and the expressions it is applied to, literals not |
| Dsl.WindowAccepted | src/aquant/factors/definitions/dsl.py:115-138 | a window is accepted exactly from one row on |
| Dsl.WindowIsPositive | src/aquant/factors/definitions/dsl.py:115-138 | the last argument of every accepted window operator is an integer literal of at least one row |
| Dsl.EveryWellFormedParses | src/aquant/factors/definitions/dsl.py:98-133 | every well-formed expression, written as a syntax tree, converts to itself |
| Canonical.RoundTrip | src/aquant/factors/definitions/dsl.py:47-57 | decoding a canonical text followed by any text gives back the expression and that text |
| Canonical.Unambiguous | src/aquant/factors/definitions/dsl.py:47-61 | equal canonical texts, even as prefixes, come from equal expressions |
| Canonical.NumberParses | src/aquant/factors/definitions/dsl.py:55-57 | number tokens written for integers and finite floats read back as the same argument |
| Canonical.NoTextExactly | src/aquant/factors/definitions/dsl.py:55-57 | an accepted syntax tree has no canonical text exactly when some argument is a float literal too large for a float or an integer literal too long to print |
| Canonical.UnprintableAccepted | src/aquant/factors/definitions/dsl.py:55-57 | a field combined with such a literal is accepted and has no canonical text |
| Canonical.PrintableBelow | src/aquant/factors/definitions/dsl.py:57 | the integers that print are those of magnitude below ten to the digit limit |
| PanelLoops.Evaluate | src/aquant/factors/operators/evaluator.py:38-80 | the recursive evaluator computes the meaning of the expression, or raises its error |
| EvaluatorLaws.AddCells | src/aquant/factors/operators/evaluator.py:84-85 | a sum is the sum of two present cells, otherwise NaN |
| EvaluatorLaws.SubCells | src/aquant/factors/operators/evaluator.py:86-87 | a difference likewise |
| EvaluatorLaws.MulCells | src/aquant/factors/operators/evaluator.py:88-89 | a product likewise |
| EvaluatorLaws.DivCells | src/aquant/factors/operators/evaluator.py:90-92 | a quotient exists exactly for present cells and a divisor other than zero, and times the divisor gives the dividend back |
| EvaluatorLaws.ArithmeticCommutes | src/aquant/factors/operators/evaluator.py:82-94 | addition and multiplication commute, and a present cell less itself is zero |
| EvaluatorLaws.SubUndoesAdd | src/aquant/factors/operators/evaluator.py:84-87 | subtracting a present cell undoes adding it |
| EvaluatorLaws.DivUndoesMul | src/aquant/factors/operators/evaluator.py:88-92 | dividing by a present cell other than zero undoes multiplying by it |
| EvaluatorLaws.AbsCells | src/aquant/factors/operators/evaluator.py:60-61 | an absolute value is not negative and is the cell or its opposite |
| EvaluatorLaws.SignCells | src/aquant/factors/operators/evaluator.py:62-63 | a sign is -1, 0 or 1, and times the absolute value gives the cell back |
| EvaluatorLaws.LogCells | src/aquant/factors/operators/evaluator.py:57-59 | exactly the positive cells have a logarithm |
| EvaluatorLaws.RefCells | src/aquant/factors/operators/evaluator.py:64-67 | a reference is the cell n rows earlier, NaN before that |
| EvaluatorLaws.DeltaCells | src/aquant/factors/operators/evaluator.py:64-67 | a delta and the cell n rows earlier add up to the present cell |
| EvaluatorLaws.MinCells | src/aquant/factors/operators/evaluator.py:120-121 | the least of a window is one of its cells and at most each; NaN exactly on incomplete windows and windows with NaN |
| EvaluatorLaws.MaxCells | src/aquant/factors/operators/evaluator.py:122-123 | the greatest of a window likewise |
| EvaluatorLaws.SumCells | src/aquant/factors/operators/evaluator.py:116-117 | the sum of one cell is the cell; NaN exactly on incomplete windows and windows with NaN |
| EvaluatorLaws.SumExtends | src/aquant/factors/operators/evaluator.py:116-117 | a window longer by its last cell adds that cell to the sum |
| EvaluatorLaws.MeanCells | src/aquant/factors/operators/evaluator.py:114-115 | the window size times the mean is the sum |
| EvaluatorLaws.RankCells | src/aquant/factors/operators/evaluator.py:124-125 | the window size times the time-series rank is how many of its times hold at most the last cell |
| EvaluatorLaws.DeviationCells | src/aquant/factors/operators/evaluator.py:118-119 | a rolling deviation is the kernel's of exactly the window's cells |
| CrossSectionLaws.PairCells | src/aquant/factors/operators/evaluator.py:128-139 | a covariance is the kernel's of the two windows, a correlation too where both deviations are positive |
| CrossSectionLaws.RankCSCells | src/aquant/factors/operators/evaluator.py:149-151 | the number of present cells times the rank is one more than the present cells that are smaller, or equal and further left |
| CrossSectionLaws.ZScoreCells | src/aquant/factors/operators/evaluator.py:152-155 | a standard score times the deviation is the cell less the mean of the row's present cells; zero without deviation |
| CrossSectionLaws.WinsorizeCells | src/aquant/factors/operators/evaluator.py:156-157 | a winsorized cell is the standard score inside plus or minus 3 and the nearer limit outside |
| CrossSectionLaws.LimitedCells | src/aquant/factors/operators/evaluator.py:72-77 | the same with the limit written in the expression |
| CrossSectionLaws.NeutralizeCells | src/aquant/factors/operators/evaluator.py:161-171 | a neutralised cell is the kernel's residual of its column among the columns where both rows have numbers |
| CrossSectionLaws.EvalShaped | src/aquant/factors/operators/evaluator.py:38-80 | every value of an expression has the panel's rows and columns |
| PanelLoops.Shift | src/aquant/factors/operators/evaluator.py:102-107 | row t of the result is row t minus periods, NaN before that, also when the panel is shorter |
| PanelLoops.RollWindows | src/aquant/factors/operators/evaluator.py:109-126 | each complete window fills one row and the rows before the first window stay NaN |
| PanelLoops.RollPairs | src/aquant/factors/operators/evaluator.py:128-139 | covariance or correlation per column over each complete window, NaN where a deviation is not positive |
| PanelLoops.CrossSection | src/aquant/factors/operators/evaluator.py:141-159 | each row is ranked, standardised or clipped over its present cells, and the result goes back to the cells it came from |
| PanelLoops.TransformSample | src/aquant/factors/operators/evaluator.py:148-156 | the double argsort gives each value's counted rank, one-based, divided by the sample size |
| PanelLoops.Neutralise | src/aquant/factors/operators/evaluator.py:161-171 | cells present in both rows receive their residual when at least two are present, all others NaN |
| LookBack.BoundedLookBack | src/aquant/factors/operators/evaluator.py:41-80 | on rows a to b of a panel an expression computes what it computes on the whole panel from row a plus its look-back on, and from the first row when a is 0; it fails on both or neither |
| LookBack.LaterRowsNeverMatter | src/aquant/factors/operators/evaluator.py:103-171 | truncating the panel at b leaves exactly the rows before b |
| LookBack.WarmUpSuffices | src/aquant/factors/operators/evaluator.py:103-171 | dropping the first s rows leaves every row from s plus the look-back on unchanged |
| LookBack.WarmUpNecessary | src/aquant/factors/operators/evaluator.py:103-107 | no shorter warm-up would do: for every look-back n and number s of dropped rows some expression changes row s + n - 1 |
| LookBack.EvaluatesExactly | src/aquant/factors/operators/evaluator.py:43-76 | evaluation succeeds exactly when the required fields are present, every integer literal converts to a float and every Winsorize limit is a number |
| LookBack.LargeIntegerRaises | src/aquant/factors/operators/evaluator.py:49-54 | a field combined with an integer too large for a float is accepted and raises on every panel with the field |
| LookBack.NestedLimitRaises | src/aquant/factors/operators/evaluator.py:73-75 | a close winsorized at an open is accepted and fails to evaluate on every panel with both fields |
| Evaluator.RollingNan | src/aquant/factors/operators/evaluator.py:109-126 | a NaN in a window makes mean, sum, minimum and maximum NaN; the time-series rank is 0 exactly when the window ends in NaN |
| LookBack.ReadsRequiredFieldsOnly | src/aquant/factors/definitions/dsl.py:70-82 | panels that agree on the required fields give the same result |
| Ranking.ScatterRanks | src/aquant/factors/evaluation/analyzer.py:101-106 | scattering 0, 1, 2, ... through the argsort gives each position the number of positions ranked before it |
| Ranking.DoubleArgSortRanks | src/aquant/factors/operators/evaluator.py:149-151 | argsort of argsort is the same rank |
| Ranking.ArgSortPermutes | src/aquant/factors/evaluation/analyzer.py:103 | a stable argsort lists every position exactly once |
| Ranking.RanksPermute | src/aquant/factors/evaluation/analyzer.py:101-106 | ranks are distinct, below the sample size, and ordered by value and then position |
| Ranking.AssignGroups | src/aquant/factors/evaluation/analyzer.py:49-52 | the group of each position is its scaled rank, capped at the last group |
| Ranking.GroupInterval | src/aquant/factors/evaluation/analyzer.py:51 | a group is an interval of ranks and the cap never applies |
| Ranking.GroupsFollowValues | src/aquant/factors/evaluation/analyzer.py:50-51 | a greater factor value is never in a lower group |
| Ranking.GroupSizes | src/aquant/factors/evaluation/analyzer.py:50-51 | each group has the rounded-down share of the sample or one more |
| Selection.BenjaminiHochberg | src/aquant/factors/mining/selection.py:89-101 | refuses invalid inputs; otherwise accepts exactly the p-values at or below the threshold of the largest passing rank |
| Selection.ThresholdRank | src/aquant/factors/mining/selection.py:94-98 | the loop over sorted values ends with the largest rank k at whose threshold at least k values lie |
| Selection.ExactlyThatMany | src/aquant/factors/mining/selection.py:94-101 | exactly as many tests are accepted as the largest passing rank |
| Selection.AcceptancePermutes | src/aquant/factors/mining/selection.py:95-101 | the decision on a value depends only on the multiset of p-values, so permuting permutes and ties are never split |
| Selection.AcceptanceMonotone | src/aquant/factors/mining/selection.py:97-101 | lowering p-values or raising alpha never revokes an acceptance |
| Selection.CorrelationFilter | src/aquant/factors/mining/selection.py:57-75 | refuses thresholds outside [0, 1]; otherwise the greedy pass over candidates by descending score |
| Selection.WithinExactly | src/aquant/factors/mining/selection.py:77-86 | two candidates are within the limit exactly when their correlation lies between minus and plus the limit; too few common or constant observations count as fully correlated |
| Selection.AcceptedWithinLimit | src/aquant/factors/mining/selection.py:66-75 | accepted candidates are pairwise within the correlation limit |
| Selection.RefusedAreDominated | src/aquant/factors/mining/selection.py:66-75 | every refused candidate is over the limit with an accepted one that scores at least as high |
| Selection.FilterChoice | src/aquant/factors/mining/selection.py:65-75 | whatever the order given, the accepted candidates are pairwise within the limit and each refused one is over it with an accepted one that scores at least as high |
| Selection.CandidatesOrdered | src/aquant/factors/mining/selection.py:66-68 | candidates are taken from the highest score down, and in the order given where scores are equal |
| PointInTime.CheckIdentities | src/aquant/data/point_in_time/table.py:46-59 | the table is built exactly when no two records share an identity |
| PointInTime.LatestByKey | src/aquant/data/point_in_time/table.py:65-71 | the merge loop over visible records gives the specified dictionary |
| PointInTime.LatestIsGreatest | src/aquant/data/point_in_time/table.py:61-83 | a key has an answer exactly when some record of it is available, and no available record of the key outranks the answer |
| PointInTime.LatestOnFields | src/aquant/data/point_in_time/table.py:77-83 | no visible record of the key became available later than the answer; of those then available none has a higher revision, of those none was ingested later, and of those none has a greater source record id |
| PointInTime.FutureRecordsIgnored | src/aquant/data/point_in_time/table.py:61-63 | a record available after t can be inserted anywhere without changing the answer at t |
| PointInTime.AvailabilityMonotone | src/aquant/data/point_in_time/table.py:65-83 | a key's answer never goes back in availability as time passes |
| PointInTime.ChangesOnlyOnArrival | src/aquant/data/point_in_time/table.py:61-71 | a key's answer changes only when a record of the key becomes available |
| PointInTime.OrderIrrelevantExactly | src/aquant/data/point_in_time/table.py:68-70 | insertion order is irrelevant for a key exactly when its greatest visible records are not tied |
| PointInTime.TiesNeedTwoSources | src/aquant/data/point_in_time/table.py:46-59 | in a table that passed the identity check, tied greatest records of a key come from different sources |
| PointInTime.OneSourceUntied | src/aquant/data/point_in_time/table.py:46-83 | a key taken from one source gives the same answer in whatever order the table was filled |
| PointInTime.TwoSourcesTie | src/aquant/data/point_in_time/table.py:69 | any two records that differ only in source and value form a table that answers with the first inserted |
| Calibration.CalibrationLedger.Add | src/aquant/strategies/discretionary/calibration.py:79-82 | appends an outcome with a new id, refuses a known id and changes nothing |
| Calibration.SummaryInRange | src/aquant/strategies/discretionary/calibration.py:128-163 | mean error, Brier score, accuracy and reliability are within their ranges |
| Calibration.SkillOfError | src/aquant/strategies/discretionary/calibration.py:144-148 | skill is full at no error, none from an error of one half, and in between falls by the squared error's share of a quarter |
| Calibration.SummaryFigures | src/aquant/strategies/discretionary/calibration.py:128-142 | the sample size times each figure is the forecasts less the outcomes, the squared errors, and the outcomes on the forecast's side of one half |
| Calibration.ReliabilityBalances | src/aquant/strategies/discretionary/calibration.py:149-152 | reliability balances the skills shown against the default counted as the prior weight |
| Calibration.OutcomesOrdered | src/aquant/strategies/discretionary/calibration.py:84-95 | outcomes are taken by availability and then by id |
| Calibration.ShrunkIsProbability | src/aquant/strategies/discretionary/calibration.py:145-152 | the shrunk reliability is a probability, so clipping it never acts |
| Calibration.PositiveReliability | src/aquant/strategies/discretionary/calibration.py:165-180 | reliability is positive exactly when the default is or some measurement outcome available by then shows skill |
| Calibration.PositiveReliabilityKept | src/aquant/strategies/discretionary/calibration.py:165-180 | a positive reliability stays positive as time passes and outcomes are appended |
| Calibration.SampleElements | src/aquant/strategies/discretionary/calibration.py:84-114 | a sample holds exactly the matching outcomes available by the time |
| Calibration.FutureOutcomeIgnored | src/aquant/strategies/discretionary/calibration.py:84-95 | an outcome not yet available changes no summary |
| BeliefEngine.Update | src/aquant/strategies/discretionary/beliefs.py:39-146 | refuses exactly when a check fails, with the first failing check's error; otherwise gives each hypothesis its log score and the evidence its stage and strength |
| BeliefLaws.AcceptedExactly | src/aquant/strategies/discretionary/beliefs.py:148-169 | an update is accepted exactly when it does not predate the case, repeats no evidence, and every observation is of the case, about one of its variables and scores exactly its hypotheses |
| BeliefLaws.QualityIsProduct | src/aquant/strategies/discretionary/beliefs.py:176-190 | an observation weighs the product of its qualities, with calibrated reliability in place of the stated one |
| BeliefLaws.VisibleOrdered | src/aquant/strategies/discretionary/beliefs.py:53-62 | visible evidence is ordered by availability and then by id |
| BeliefLaws.PriorScore | src/aquant/strategies/discretionary/beliefs.py:74-77 | without evidence a hypothesis scores the logarithm of its prior |
| BeliefLaws.IndependentEvidenceAdds | src/aquant/strategies/discretionary/beliefs.py:82-108 | an observation in a cluster of its own adds its quality times the logarithm of its likelihood ratio |
| BeliefLaws.PairContribution | src/aquant/strategies/discretionary/beliefs.py:83-108 | two dependent observations add their quality-weighted mean times the better quality |
| BeliefLaws.LadderRungs | src/aquant/strategies/discretionary/beliefs.py:262-282 | each rung of the stage ladder in terms of the observations |
| BeliefLaws.StrengthsAreMaxima | src/aquant/strategies/discretionary/beliefs.py:245-253 | a non-price cluster is as strong as its best observation |
| BeliefLaws.StrengthIsShare | src/aquant/strategies/discretionary/beliefs.py:254-260 | strength is the sum of the cluster strengths over their number, but over four while there are fewer |
| BeliefLaws.AssessedFields | src/aquant/strategies/discretionary/beliefs.py:230-244 | clusters, domains and falsifier of an assessment are those of the evidence that counts |
| BeliefEngine.Validate | src/aquant/strategies/discretionary/beliefs.py:49-52 | the first failing check, in order |
| BeliefEngine.ScoreHypotheses | src/aquant/strategies/discretionary/beliefs.py:82-108 | the nested loops add one contribution per cluster to each prior log probability |
| BeliefEngine.StrengthIsProbability | src/aquant/strategies/discretionary/beliefs.py:245-260 | evidence strength lies between 0 and 1 |
| Beliefs.EffectiveElements | src/aquant/strategies/discretionary/beliefs.py:53-71 | the evidence that counts is exactly what is available by the review with positive effective quality |
| Beliefs.FutureEvidenceIgnored | src/aquant/strategies/discretionary/beliefs.py:53-62 | evidence not yet available changes nothing |
| Beliefs.EffectiveGrows | src/aquant/strategies/discretionary/beliefs.py:176-190 | with append-only evidence and ledger, evidence that counts keeps counting |
| Beliefs.StageNeverFalls | src/aquant/strategies/discretionary/beliefs.py:262-282 | between any two reviews of an append-only history the stage rank does not fall unless a falsifier is seen, and an invalidated case stays invalidated |
| Beliefs.PriceAloneEarnsNothing | src/aquant/strategies/discretionary/beliefs.py:230-270 | evidence about price alone gives zero strength and no stage above hypothesis |
| BeliefScores.ClusterCannotAmplify | src/aquant/strategies/discretionary/beliefs.py:83-108 | however many members a cluster has, it moves the odds of two hypotheses between its confidence times the least and the greatest member's difference |
| BeliefScores.DuplicationChangesNoScore | src/aquant/strategies/discretionary/beliefs.py:78-108 | adding n further copies of every member of a cluster under fresh ids changes no log score |
| BeliefScores.OrderChangesNoScore | src/aquant/strategies/discretionary/beliefs.py:53-62 | permuting the observations changes no log score |
| BeliefScores.SameEvidenceSameScores | src/aquant/strategies/discretionary/beliefs.py:78-108 | reviews that hold the same evidence in every cluster, each cluster any number of times over, give the same log scores |
| Positioning.Propose | src/aquant/strategies/discretionary/positioning.py:296-394 | the proposal with its weight, action, tier and reasons, or the error of the first failing check |
| SizingLaws.FavouredWeight | src/aquant/strategies/discretionary/positioning.py:341-359 | in favour and unblocked, the proposal is the lesser of the stage's cap and the weight that times loss and correlation equals multiplier times strength times expected return, rounded down by less than 0.0001 |
| SizingLaws.UnfavouredWeight | src/aquant/strategies/discretionary/positioning.py:329-340 | at a stage without a cap, short of the probability edge or with no positive expected return, the proposal is zero |
| SizingLaws.NoStrengthNoWeight | src/aquant/strategies/discretionary/positioning.py:345-350 | evidence of no strength earns no weight |
| SizingLaws.WeightMonotone | src/aquant/strategies/discretionary/positioning.py:320-351 | with nothing held the weight never falls as strength, posterior or upside grows and never rises as loss or correlation does |
| SizingLaws.ProposedExactly | src/aquant/strategies/discretionary/positioning.py:307-344 | a proposal is made exactly for a real-time estimate, belief and expectation of the case, matching evidence and hypothesis, an expectation available by then, and a divisor where a weight is earned |
| SizingLaws.ProposalStates | src/aquant/strategies/discretionary/positioning.py:320-394 | the proposal's case, time, tier, expected return and evidence; its reasons start with the stage, end with the pending approval, and tell whether a weight was earned and whether an add was held back |
| SizingLaws.ActionNames | src/aquant/strategies/discretionary/positioning.py:419-430 | each action exactly by how the proposed weight compares with the held one and zero |
| SizingLaws.UpgradeByStage | src/aquant/strategies/discretionary/positioning.py:405-417 | a higher stage upgrades, a lower never, and the same stage by strength or by a further validated domain |
| Positioning.ProposalWithinCap | src/aquant/strategies/discretionary/positioning.py:326-359 | every proposed weight is a multiple of 0.0001 between zero and its stage's cap |
| Positioning.PriceAloneGetsNoWeight | src/aquant/strategies/discretionary/positioning.py:329-334 | when all evidence is about price the proposed weight is zero |
| Positioning.DenominatorPositive | src/aquant/strategies/discretionary/positioning.py:342-344 | the sizing denominator is zero exactly when correlation and its floor both are |
| Positioning.RiseNeedsUpgrade | src/aquant/strategies/discretionary/positioning.py:354-358 | a proposed weight above the held weight implies an evidence upgrade |
| Positioning.NoAddWithoutEvidence | src/aquant/strategies/discretionary/positioning.py:354-417 | over any history of reviews and approvals with unchanged stage, strength and domains, and a positive minimum upgrade, the held weight never rises |
| Positioning.NoAddShortOfUpgrade | src/aquant/strategies/discretionary/positioning.py:405-417 | however strength moves at an unchanged stage with unchanged domains, the held weight never rises while each review stays short of an upgrade over the strength recorded last |
| Positioning.NoAddWithinBand | src/aquant/strategies/discretionary/positioning.py:405-417 | strength that moves within a band narrower than the minimum upgrade never raises the held weight |
| Positioning.DipUnlocksAdd | src/aquant/strategies/discretionary/positioning.py:354-417 | a blocked add passes once a weaker review has been recorded and strength is back where it was |
| Positioning.UnchangedIsNoUpgrade | src/aquant/strategies/discretionary/positioning.py:405-417 | unchanged stage, strength and domains count as an upgrade exactly when the minimum is zero and the hash is new |
| Positioning.BlockedAddHoldsExactlyOnGrid | src/aquant/strategies/discretionary/positioning.py:354-360 | a blocked add holds the position exactly when its weight is on the grid, and otherwise reduces it |
| Positioning.Approve | src/aquant/strategies/discretionary/positioning.py:274-289 | an approval never exceeds its proposal's weight and never predates it |

## Left out

- Data providers, HTTP, checkpoints, Parquet, release publishing and the scripts: input and output whose guarantees rest on the file system or a remote service.
- `Decimal` context rounding, float rounding, arithmetic overflow to infinity and time-zone normalisation: exact reals and integer timestamps stand in; a panel cell is a number or NaN, never infinite.
- Text validation of frozen dataclasses: assumed where a value is built. The calendar date of a session's timestamps and of its bars and statuses is not modelled.
- Float range and digit limit: the least integer too large for a float is a parameter of the kernels; the interpreter's digit limit is its default of 4300 digits.
- The state hash of the backtest result, policy and proposal hashes, evidence hashes: identifiers are injective constructors or opaque numbers.
- Posterior normalisation by `exp`: only log scores are modelled, and a posterior enters position sizing as an input.
- The numerical meaning of standard deviation, covariance, correlation, least squares and logarithms: parameters that depend only on the given window or row.
- JSON escaping: canonical texts are those of field and operator names, which need none; the sorted tuple of required fields is a set.
- Python's parser: the converter starts from a syntax tree, a blank source or a syntax error.
- The array heap of `heapq`: the queue is a bag from which the least entry is taken.
- QMT adapter, API, dashboards, settings, migrations, knowledge and factor lifecycles, reconciliation, trading calendar, factor cache, metrics: thin or shallow; the kill switch and the pre-trade check are a flag and a function.
- Exceptions of the agent's context provider, and several agents on one store at once.
- `build_approved_target_portfolio`: collects approvals into a portfolio without adding a history property.
- Remaining fields of the factor evaluation (information coefficients, turnover, coverage): means over foreign kernels.
- Orders.OrderBook.Cancel: the engine never cancels, so no result on runs involves it.
