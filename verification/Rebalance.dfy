/** The rebalance planner: floored lot targets, signed deltas, sells before buys. */
module Rebalance {
  import opened Wrappers
  import opened Market
  import opened PaperBroker
  import Ordering
  import Sorting
  import opened Totals

  datatype TargetFields = TargetFields(
    strategyId: string, tradeDate: Date, dataReleaseId: string, signalVersion: string, weights: map<Symbol, real>)

  /** Weights lie between 0 and 1 and sum to at most 1. */
  type TargetPortfolio = t: TargetFields |
    (forall s :: s in t.weights ==> 0.0 <= t.weights[s] <= 1.0) && Total(t.weights) <= 1.0
    witness TargetFields("", 0, "", "", map[])

  datatype PlanError = InvalidPlanInputs | MissingPrice(symbol: Symbol) | NonPositivePlanPrice(at: Symbol)

  datatype RebalancePlan = RebalancePlan(
    strategyId: string, dataReleaseId: string, signalVersion: string, orders: seq<BrokerOrderRequest>)

  const WHITESPACE: set<char> := {' ', '\t', '\n', '\r', '\U{0B}', '\U{0C}'}

  predicate Blank(text: string) {
    forall c :: c in text ==> c in WHITESPACE
  }

  function Share(equity: real, weight: real): real {
    equity * weight
  }

  /** The greatest lot multiple the target value pays for. */
  function LotTarget(value: real, price: Price, lot: Pos): int {
    (value / price / lot as real).Floor * lot
  }

  datatype PlanInputs = PlanInputs(
    target: TargetPortfolio, accountId: string, equity: real,
    current: map<Symbol, int>, prices: map<Symbol, real>, lotSize: int)
  {
    predicate Valid() {
      !Blank(accountId) && 0.0 < equity && 0 < lotSize
    }

    function Universe(): set<Symbol> {
      target.weights.Keys + current.Keys
    }

    function Weight(symbol: Symbol): real {
      if symbol in target.weights then target.weights[symbol] else 0.0
    }

    predicate Priced(symbol: Symbol) {
      symbol in prices && 0.0 < prices[symbol]
    }

    function TargetQuantity(symbol: Symbol): int
      requires Valid() && Priced(symbol)
    {
      LotTarget(Share(equity, Weight(symbol)), prices[symbol], lotSize)
    }

    function Delta(symbol: Symbol): int
      requires Valid() && Priced(symbol)
    {
      TargetQuantity(symbol) - Held(current, symbol)
    }

    function Order(symbol: Symbol): BrokerOrderRequest
      requires Valid() && Priced(symbol) && Delta(symbol) != 0
    {
      var side := if Delta(symbol) > 0 then Buy else Sell;
      var key := IdempotencyKey(accountId, target.strategyId, target.tradeDate, symbol, side, TargetQuantity(symbol));
      BrokerOrderRequest(ClientId(target.signalVersion, key), key, symbol, side, Absolute(Delta(symbol)))
    }

    function SymbolError(symbol: Symbol): PlanError {
      if symbol !in prices then MissingPrice(symbol) else NonPositivePlanPrice(symbol)
    }
  }

  /** The orders of the symbols that need one, in the order given; the first unpriced symbol raises. */
  function Deltas(p: PlanInputs, symbols: seq<Symbol>): Result<seq<BrokerOrderRequest>, PlanError>
    requires p.Valid()
  {
    if symbols == [] then Ok([])
    else
      var last := symbols[|symbols| - 1];
      var earlier :- Deltas(p, symbols[..|symbols| - 1]);
      if !p.Priced(last) then Err(p.SymbolError(last))
      else if p.Delta(last) == 0 then Ok(earlier)
      else Ok(earlier + [p.Order(last)])
  }

  /** Sells before buys, then by symbol. */
  predicate AtMost(a: BrokerOrderRequest, b: BrokerOrderRequest) {
    if a.side == b.side then a.symbol <= b.symbol else a.side == Sell
  }

  ghost function Plan(p: PlanInputs): Result<seq<BrokerOrderRequest>, PlanError> {
    if !p.Valid() then Err(InvalidPlanInputs)
    else
      var planned :- Deltas(p, Ordering.Ascending(p.Universe()));
      Ok(Sorting.SortedBy(planned, AtMost))
  }

  /** The loop body: one symbol's order, if it needs one. */
  method Decide(p: PlanInputs, symbol: Symbol) returns (r: Result<Option<BrokerOrderRequest>, PlanError>)
    requires p.Valid()
    ensures !p.Priced(symbol) ==> r == Err(p.SymbolError(symbol))
    ensures p.Priced(symbol) && p.Delta(symbol) == 0 ==> r == Ok(None)
    ensures p.Priced(symbol) && p.Delta(symbol) != 0 ==> r == Ok(Some(p.Order(symbol)))
  {
    if symbol !in p.prices {
      return Err(MissingPrice(symbol));
    }
    if p.prices[symbol] <= 0.0 {
      return Err(NonPositivePlanPrice(symbol));
    }
    var targetQuantity := p.TargetQuantity(symbol);
    var delta := targetQuantity - Held(p.current, symbol);
    if delta == 0 {
      return Ok(None);
    }
    var side := if delta > 0 then Buy else Sell;
    var key := IdempotencyKey(p.accountId, p.target.strategyId, p.target.tradeDate, symbol, side, targetQuantity);
    return Ok(Some(BrokerOrderRequest(ClientId(p.target.signalVersion, key), key, symbol, side, Absolute(delta))));
  }

  method PlanRebalance(p: PlanInputs) returns (r: Result<RebalancePlan, PlanError>)
    ensures r.Ok? <==> Plan(p).Ok?
    ensures r.Ok? ==>
      r.value == RebalancePlan(p.target.strategyId, p.target.dataReleaseId, p.target.signalVersion, Plan(p).value)
    ensures r.Err? ==> Plan(p) == Err(r.error)
  {
    if !p.Valid() {
      return Err(InvalidPlanInputs);
    }
    var universe := p.target.weights.Keys + p.current.Keys;
    var symbols := Ordering.Sorted(universe);
    var planned: seq<BrokerOrderRequest> := [];
    for i := 0 to |symbols|
      invariant Deltas(p, symbols[..i]) == Ok(planned)
    {
      var symbol := symbols[i];
      assert symbols[..i + 1][..i] == symbols[..i];
      var decision := Decide(p, symbol);
      if decision.Err? {
        DeltasFail(p, symbols, i + 1);
        return Err(decision.error);
      }
      if decision.value.Some? {
        planned := planned + [decision.value.value];
      }
    }
    assert symbols[..|symbols|] == symbols;
    planned := Sorting.Sort(planned, AtMost);
    return Ok(RebalancePlan(p.target.strategyId, p.target.dataReleaseId, p.target.signalVersion, planned));
  }

  lemma {:induction false} DeltasFail(p: PlanInputs, symbols: seq<Symbol>, n: nat)
    requires p.Valid() && n <= |symbols| && Deltas(p, symbols[..n]).Err?
    ensures Deltas(p, symbols) == Deltas(p, symbols[..n])
  {
    if n < |symbols| {
      var init := symbols[..|symbols| - 1];
      assert init[..n] == symbols[..n];
      DeltasFail(p, init, n);
    } else {
      assert symbols[..n] == symbols;
    }
  }
}
