/** A rebalance plan pays for itself: submitted in its order to a broker that agrees with the
    planner, every order fills, and the result is the floored target portfolio. */
module RebalanceFunding {
  import opened Wrappers
  import opened Market
  import opened PaperBroker
  import opened Rebalance
  import opened Totals
  import Ordering
  import opened Sequences
  import Sorting
  import Matching
  import Fees

  /** The floored target is the greatest lot multiple within its value. */
  lemma LotTargetGreatest(value: real, price: Price, lot: Pos, candidate: int)
    ensures LotTarget(value, price, lot) % lot == 0 && Worth(price, LotTarget(value, price, lot)) <= value
    ensures candidate % lot == 0 && Worth(price, candidate) <= value ==> candidate <= LotTarget(value, price, lot)
    ensures 0.0 <= value ==> 0 <= LotTarget(value, price, lot)
  {
    var shares := value / price;
    var lots := (shares / lot as real).Floor;
    Matching.FloorOfQuotient(shares, lot as real, lots);
    Matching.FloorOfQuotient(value, price, lots * lot);
    Matching.MultipleHasNoRemainder(lots, lot);
    if candidate % lot == 0 && Worth(price, candidate) <= value {
      Matching.FloorOfQuotient(value, price, candidate);
      var n := candidate / lot;
      assert candidate == n * lot;
      Matching.FloorOfQuotient(shares, lot as real, n);
      Matching.ProductMonotone(n, lots, lot);
    }
    if 0.0 <= value {
      Matching.FloorOfQuotient(value, price, 0);
      Matching.FloorOfQuotient(shares, lot as real, 0);
      Matching.ProductMonotone(0, lots, lot);
    }
  }

  ghost predicate AllPriced(p: PlanInputs) {
    forall s :: s in p.Universe() ==> p.Priced(s)
  }

  /** The plan exists exactly when the inputs are valid and the whole universe is priced. */
  lemma PlanExists(p: PlanInputs)
    ensures Plan(p).Ok? <==> p.Valid() && AllPriced(p)
  {
    if p.Valid() {
      Ordering.AscendingFacts(p.Universe());
      DeltasOk(p, Ordering.Ascending(p.Universe()));
    }
  }

  /** A plan exists exactly for an account with a name, positive equity and lot size, and a positive price for every
      symbol that is held or wanted. */
  lemma PlanAccepts(p: PlanInputs)
    ensures Plan(p).Ok? <==>
      && (exists c :: c in p.accountId && c !in WHITESPACE) && 0.0 < p.equity && 0 < p.lotSize
      && forall s :: s in p.target.weights || s in p.current ==> s in p.prices && 0.0 < p.prices[s]
  {
    PlanExists(p);
    assert forall s :: s in p.Universe() <==> s in p.target.weights || s in p.current;
  }

  lemma {:induction false} DeltasOk(p: PlanInputs, symbols: seq<Symbol>)
    requires p.Valid()
    ensures Deltas(p, symbols).Ok? <==> forall s :: s in symbols ==> p.Priced(s)
  {
    if symbols != [] {
      DeltasOk(p, symbols[..|symbols| - 1]);
      assert symbols == symbols[..|symbols| - 1] + [symbols[|symbols| - 1]];
    }
  }

  /** The cash an order brings in when it is filled at the plan's price. */
  function OrderFlow(p: PlanInputs, order: BrokerOrderRequest): real {
    var worth := if order.symbol in p.prices then Worth(p.prices[order.symbol], order.quantity) else 0.0;
    if order.side == Buy then -worth else worth
  }

  function Flow(p: PlanInputs, orders: seq<BrokerOrderRequest>): real {
    if orders == [] then 0.0
    else Flow(p, orders[..|orders| - 1]) + OrderFlow(p, orders[|orders| - 1])
  }

  lemma FlowAppended(p: PlanInputs, orders: seq<BrokerOrderRequest>, order: BrokerOrderRequest)
    ensures Flow(p, orders + [order]) == Flow(p, orders) + OrderFlow(p, order)
  {
    assert (orders + [order])[..|orders|] == orders;
  }

  lemma {:induction false} FlowInserted(p: PlanInputs, orders: seq<BrokerOrderRequest>, order: BrokerOrderRequest)
    ensures Flow(p, Sorting.Inserted(orders, order, AtMost)) == Flow(p, orders) + OrderFlow(p, order)
  {
    if orders == [] || AtMost(orders[|orders| - 1], order) {
      FlowAppended(p, orders, order);
    } else {
      FlowInserted(p, orders[..|orders| - 1], order);
      FlowAppended(p, Sorting.Inserted(orders[..|orders| - 1], order, AtMost), orders[|orders| - 1]);
    }
  }

  lemma {:induction false} FlowSorted(p: PlanInputs, orders: seq<BrokerOrderRequest>)
    ensures Flow(p, Sorting.SortedBy(orders, AtMost)) == Flow(p, orders)
  {
    if orders != [] {
      var init, last := orders[..|orders| - 1], orders[|orders| - 1];
      FlowSorted(p, init);
      FlowInserted(p, Sorting.SortedBy(init, AtMost), last);
    }
  }

  /** What trading one symbol to its target brings in. */
  ghost function Net(p: PlanInputs, s: Symbol): real {
    if p.Valid() && p.Priced(s) then
      Worth(p.prices[s], Held(p.current, s)) - Worth(p.prices[s], p.TargetQuantity(s))
    else 0.0
  }

  ghost function NetOf(p: PlanInputs, symbols: set<Symbol>): map<Symbol, real> {
    map s | s in symbols :: Net(p, s)
  }

  lemma OrderTradesDelta(p: PlanInputs, s: Symbol)
    requires p.Valid() && p.Priced(s)
    ensures p.Delta(s) != 0 ==> OrderFlow(p, p.Order(s)) == Net(p, s)
    ensures p.Delta(s) == 0 ==> Net(p, s) == 0.0
  {
    DifferenceOfWorths(p.prices[s], Held(p.current, s), p.TargetQuantity(s));
  }

  lemma DifferenceOfWorths(price: real, a: int, b: int)
    ensures Worth(price, a) - Worth(price, b) == Worth(price, a - b) == -Worth(price, b - a)
  {
  }

  /** One more symbol adds its net to the flow. */
  lemma DeltasFlowNext(p: PlanInputs, symbols: seq<Symbol>)
    requires p.Valid() && symbols != [] && Deltas(p, symbols).Ok?
    ensures Deltas(p, symbols[..|symbols| - 1]).Ok?
    ensures Flow(p, Deltas(p, symbols).value)
      == Flow(p, Deltas(p, symbols[..|symbols| - 1]).value) + Net(p, symbols[|symbols| - 1])
  {
    var init, last := symbols[..|symbols| - 1], symbols[|symbols| - 1];
    OrderTradesDelta(p, last);
    if p.Delta(last) != 0 {
      FlowAppended(p, Deltas(p, init).value, p.Order(last));
    }
  }

  lemma NetNext(p: PlanInputs, symbols: seq<Symbol>, next: Symbol)
    requires next !in symbols
    ensures Total(NetOf(p, set s | s in symbols + [next])) == Total(NetOf(p, set s | s in symbols)) + Net(p, next)
  {
    var m := NetOf(p, set s | s in symbols);
    assert NetOf(p, set s | s in symbols + [next]) == m[next := Net(p, next)];
    TotalUpdate(m, next, Net(p, next));
  }

  lemma {:induction false} DeltasFlow(p: PlanInputs, symbols: seq<Symbol>)
    requires p.Valid() && Deltas(p, symbols).Ok? && Unrepeated(symbols)
    ensures Flow(p, Deltas(p, symbols).value) == Total(NetOf(p, set s | s in symbols))
  {
    if symbols == [] {
      assert NetOf(p, set s | s in symbols) == map[];
    } else {
      var init, last := symbols[..|symbols| - 1], symbols[|symbols| - 1];
      DeltasFlowNext(p, symbols);
      DeltasFlow(p, init);
      NetNext(p, init, last);
      assert symbols == init + [last];
    }
  }

  lemma UniverseListed(p: PlanInputs)
    ensures Unrepeated(Ordering.Ascending(p.Universe()))
    ensures (set s | s in Ordering.Ascending(p.Universe())) == p.Universe()
  {
    var symbols := Ordering.Ascending(p.Universe());
    Ordering.AscendingFacts(p.Universe());
    assert forall s :: s in (set s | s in symbols) <==> s in p.Universe();
  }

  lemma SortedFlow(p: PlanInputs, symbols: seq<Symbol>, planned: seq<BrokerOrderRequest>)
    requires p.Valid() && Deltas(p, symbols) == Ok(planned) && Unrepeated(symbols)
    ensures Flow(p, Sorting.SortedBy(planned, AtMost)) == Total(NetOf(p, set s | s in symbols))
  {
    DeltasFlow(p, symbols);
    FlowSorted(p, planned);
  }

  /** The plan's orders bring in exactly the value the targets give up. */
  lemma PlanFlow(p: PlanInputs)
    requires Plan(p).Ok?
    ensures Flow(p, Plan(p).value) == Total(NetOf(p, p.Universe()))
  {
    UniverseListed(p);
    var symbols := Ordering.Ascending(p.Universe());
    SortedFlow(p, symbols, Deltas(p, symbols).value);
  }

  /** An order the plan contains is the order of its own symbol. */
  ghost predicate Belongs(p: PlanInputs, order: BrokerOrderRequest) {
    && p.Valid() && order.symbol in p.Universe() && p.Priced(order.symbol) && p.Delta(order.symbol) != 0
    && order == p.Order(order.symbol)
  }

  ghost predicate DistinctSymbols(orders: seq<BrokerOrderRequest>) {
    forall i, j :: 0 <= i < j < |orders| ==> orders[i].symbol != orders[j].symbol
  }

  /** What the unsorted orders hold after some of the symbols. */
  ghost predicate Covers(p: PlanInputs, symbols: seq<Symbol>, orders: seq<BrokerOrderRequest>) {
    && (forall o :: o in orders ==> Belongs(p, o) && o.symbol in symbols) && DistinctSymbols(orders)
    && (forall s :: s in symbols ==> p.Valid() && p.Priced(s) && (p.Delta(s) != 0 ==> p.Order(s) in orders))
  }

  lemma CoversNext(p: PlanInputs, symbols: seq<Symbol>, next: Symbol, orders: seq<BrokerOrderRequest>)
    requires Covers(p, symbols, orders) && next !in symbols && next in p.Universe() && p.Valid() && p.Priced(next)
    ensures Covers(p, symbols + [next], if p.Delta(next) == 0 then orders else orders + [p.Order(next)])
  {
  }

  lemma {:induction false} DeltasElements(p: PlanInputs, symbols: seq<Symbol>)
    requires p.Valid() && Deltas(p, symbols).Ok? && Unrepeated(symbols) && forall s :: s in symbols ==>
      s in p.Universe()
    ensures Covers(p, symbols, Deltas(p, symbols).value)
  {
    if symbols != [] {
      var init, last := symbols[..|symbols| - 1], symbols[|symbols| - 1];
      DeltasElements(p, init);
      CoversNext(p, init, last, Deltas(p, init).value);
      assert symbols == init + [last];
    }
  }

  lemma {:induction false} InsertedDistinct(orders: seq<BrokerOrderRequest>, order: BrokerOrderRequest)
    requires DistinctSymbols(orders) && forall o :: o in orders ==> o.symbol != order.symbol
    ensures DistinctSymbols(Sorting.Inserted(orders, order, AtMost))
  {
    if orders != [] && !AtMost(orders[|orders| - 1], order) {
      var init, last := orders[..|orders| - 1], orders[|orders| - 1];
      InsertedDistinct(init, order);
      Sorting.InsertedElements(init, order, AtMost);
      var r := Sorting.Inserted(init, order, AtMost);
      forall i | 0 <= i < |r|
        ensures r[i].symbol != last.symbol
      {
        assert r[i] in multiset(r);
        assert r[i] == order || r[i] in init;
      }
    }
  }

  lemma AtMostIsOrder()
    ensures Sorting.TotalPreorder(AtMost)
  {
  }

  lemma {:induction false} SortedDistinct(orders: seq<BrokerOrderRequest>)
    requires DistinctSymbols(orders)
    ensures DistinctSymbols(Sorting.SortedBy(orders, AtMost))
  {
    if orders != [] {
      var init, last := orders[..|orders| - 1], orders[|orders| - 1];
      SortedDistinct(init);
      AtMostIsOrder();
      Sorting.SortedByFacts(init, AtMost);
      forall o | o in Sorting.SortedBy(init, AtMost)
        ensures o.symbol != last.symbol
      {
        assert o in multiset(Sorting.SortedBy(init, AtMost));
        assert o in init;
      }
      InsertedDistinct(Sorting.SortedBy(init, AtMost), last);
    }
  }

  /** The plan holds exactly one order for each symbol off its target, sells before buys and each
      side by symbol. */
  lemma PlanContents(p: PlanInputs)
    requires Plan(p).Ok?
    ensures p.Valid() && AllPriced(p)
    ensures forall o :: o in Plan(p).value ==> Belongs(p, o)
    ensures forall s :: s in p.Universe() && p.Delta(s) != 0 ==> p.Order(s) in Plan(p).value
    ensures DistinctSymbols(Plan(p).value) && Sorting.IsSorted(Plan(p).value, AtMost)
  {
    PlanExists(p);
    var symbols := Ordering.Ascending(p.Universe());
    Ordering.AscendingFacts(p.Universe());
    DeltasElements(p, symbols);
    var planned, orders := Deltas(p, symbols).value, Plan(p).value;
    SortedDistinct(planned);
    AtMostIsOrder();
    Sorting.SortedByFacts(planned, AtMost);
    forall o
      ensures o in orders <==> o in planned
    {
      assert o in orders <==> o in multiset(orders);
      assert o in planned <==> o in multiset(planned);
    }
  }

  ghost predicate SamePrice(p: PlanInputs, b: Broker, s: Symbol) {
    s in p.prices && s in b.prices && b.prices[s] == p.prices[s]
  }

  /** Broker and planner agree on positions and prices, and the broker has not seen the plan. */
  ghost predicate Agrees(p: PlanInputs, b: Broker) {
    && b.Indexed() && b.positions == p.current && 0.0 <= b.cash && (forall s :: 0 <= b.Position(s))
    && (forall s :: s in p.Universe() ==> SamePrice(p, b, s))
    && (Plan(p).Ok? ==> forall o :: o in Plan(p).value ==> o.key !in b.index)
  }

  ghost function ValueAt(prices: map<Symbol, real>, positions: map<Symbol, int>, s: Symbol): real {
    if s in prices then Worth(prices[s], Held(positions, s)) else 0.0
  }

  /** Market value of all positions at the plan's prices. */
  ghost function Holdings(p: PlanInputs, positions: map<Symbol, int>): real {
    Total(map s | s in positions :: ValueAt(p.prices, positions, s))
  }

  ghost predicate Funded(p: PlanInputs, b: Broker) {
    p.equity <= b.cash + Holdings(p, b.positions)
  }

  ghost function Targets(p: PlanInputs): map<Symbol, real>
    requires p.Valid() && AllPriced(p)
  {
    map s | s in p.Universe() :: Worth(p.prices[s], p.TargetQuantity(s))
  }

  ghost function ScaledWeights(p: PlanInputs, scale: real -> real): map<Symbol, real> {
    map s | s in p.Universe() :: scale(p.Weight(s))
  }

  lemma WeightsScale(p: PlanInputs, scale: real -> real)
    requires Additive(scale)
    ensures Total(ScaledWeights(p, scale)) == scale(Total(p.target.weights))
  {
    var weights, all := p.target.weights, ScaledWeights(p, scale);
    assert weights.Keys <= p.Universe();
    TotalRestrict(all, weights.Keys);
    TotalScaled(weights, map s | s in all && s in weights.Keys :: all[s], scale);
  }

  /** The value each symbol may take up; together no more than the equity. */
  ghost function Budgets(p: PlanInputs): map<Symbol, real> {
    ScaledWeights(p, Times(p.equity))
  }

  lemma FullWeightWithin(equity: real, weight: real)
    requires 0.0 <= equity && weight <= 1.0
    ensures Times(equity)(weight) <= equity
  {
    Fees.Scale(weight, 1.0, equity);
  }

  lemma BudgetsWithinEquity(p: PlanInputs)
    requires p.Valid()
    ensures Total(Budgets(p)) <= p.equity
  {
    FactorAdditive(p.equity);
    WeightsScale(p, Times(p.equity));
    FullWeightWithin(p.equity, Total(p.target.weights));
  }

  lemma TargetWithinBudget(p: PlanInputs, s: Symbol)
    requires p.Valid() && p.Priced(s)
    ensures Worth(p.prices[s], p.TargetQuantity(s)) <= Times(p.equity)(p.Weight(s))
  {
    LotTargetGreatest(Share(p.equity, p.Weight(s)), p.prices[s], p.lotSize, 0);
  }

  /** The floored targets never cost more than the equity they divide. */
  lemma TargetsWithinEquity(p: PlanInputs)
    requires p.Valid() && AllPriced(p)
    ensures Total(Targets(p)) <= p.equity
  {
    forall s | s in p.Universe()
      ensures Targets(p)[s] <= Budgets(p)[s]
    {
      TargetWithinBudget(p, s);
    }
    TotalMonotone(Targets(p), Budgets(p));
    BudgetsWithinEquity(p);
  }

  lemma HoldingsOverUniverse(p: PlanInputs, positions: map<Symbol, int>)
    requires positions.Keys <= p.Universe()
    ensures Holdings(p, positions) == Total(map s | s in p.Universe() :: ValueAt(p.prices, positions, s))
  {
    var all := map s | s in p.Universe() :: ValueAt(p.prices, positions, s);
    TotalRestrict(all, positions.Keys);
    assert (map s | s in all && s in positions.Keys :: all[s])
      == map s | s in positions :: ValueAt(p.prices, positions, s);
  }

  /** What the whole plan brings in: holdings now less holdings wanted. */
  lemma PlanFlowIsDifference(p: PlanInputs)
    requires Plan(p).Ok?
    ensures p.Valid() && AllPriced(p)
    ensures Flow(p, Plan(p).value) == Holdings(p, p.current) - Total(Targets(p))
  {
    PlanExists(p);
    PlanFlow(p);
    HoldingsOverUniverse(p, p.current);
    TotalSum(NetOf(p, p.Universe()), Targets(p), map s | s in p.Universe() :: ValueAt(p.prices, p.current, s));
  }

  ghost predicate AllBuys(orders: seq<BrokerOrderRequest>, from: nat) {
    forall j :: from <= j < |orders| ==> orders[j].side == Buy
  }

  lemma BuyTakesCash(p: PlanInputs, order: BrokerOrderRequest)
    requires Belongs(p, order) && order.side == Buy
    ensures OrderFlow(p, order) <= 0.0
  {
    WorthPositive(p.prices[order.symbol], order.quantity);
  }

  /** Buys only take cash out, so the cash after the whole plan is the least along its buys. */
  lemma {:induction false} BuysDrain(p: PlanInputs, orders: seq<BrokerOrderRequest>, i: nat)
    requires i <= |orders| && AllBuys(orders, i) && forall o :: o in orders ==> Belongs(p, o)
    ensures Flow(p, orders) <= Flow(p, orders[..i])
    decreases |orders| - i
  {
    if i == |orders| {
      assert orders[..i] == orders;
    } else {
      BuysDrain(p, orders, i + 1);
      BuyTakesCash(p, orders[i]);
      FlowAppended(p, orders[..i], orders[i]);
      assert orders[..i + 1] == orders[..i] + [orders[i]];
    }
  }

  ghost function SubmitAll(b: Broker, orders: seq<BrokerOrderRequest>, now: Time, n: nat): Broker
    requires n <= |orders|
  {
    if n == 0 then b else SubmitAll(b, orders, now, n - 1).Submit(orders[n - 1], now)
  }

  ghost predicate FilledIn(b: Broker, order: BrokerOrderRequest) {
    b.Find(order.key).Some? && b.Find(order.key).value.request == order && b.Find(order.key).value.status == Filled
  }

  ghost predicate Traded(orders: seq<BrokerOrderRequest>, n: nat, s: Symbol)
    requires n <= |orders|
  {
    exists j :: 0 <= j < n && orders[j].symbol == s
  }

  ghost predicate PositionAfter(p: PlanInputs, b: Broker, orders: seq<BrokerOrderRequest>, n: nat, after: Broker,
      s: Symbol)
    requires n <= |orders| && p.Valid() && AllPriced(p)
  {
    if s in p.Universe() && Traded(orders, n, s) then after.Position(s) == p.TargetQuantity(s)
    else after.Position(s) == b.Position(s)
  }

  ghost predicate PositionsAfter(p: PlanInputs, b: Broker, orders: seq<BrokerOrderRequest>, n: nat, after: Broker)
    requires n <= |orders| && p.Valid() && AllPriced(p)
  {
    forall s :: PositionAfter(p, b, orders, n, after, s)
  }

  /** The first n orders filled, at the planned prices, and nothing else happened. */
  ghost predicate Progress(p: PlanInputs, b: Broker, orders: seq<BrokerOrderRequest>, n: nat, after: Broker)
    requires n <= |orders| && p.Valid() && AllPriced(p)
  {
    && after.Indexed() && after.prices == b.prices && after.positions.Keys <= p.Universe()
    && after.cash == b.cash + Flow(p, orders[..n])
    && (forall j :: 0 <= j < n ==> FilledIn(after, orders[j]))
    && (forall j :: n <= j < |orders| ==> orders[j].key !in after.index)
    && PositionsAfter(p, b, orders, n, after)
  }

  lemma ProgressStart(p: PlanInputs, b: Broker)
    requires Plan(p).Ok? && Agrees(p, b)
    ensures p.Valid() && AllPriced(p) && Progress(p, b, Plan(p).value, 0, b)
  {
    PlanExists(p);
  }

  /** What the next order does when the broker covers it. */
  lemma FillOne(b: Broker, order: BrokerOrderRequest, now: Time)
    requires b.Indexed() && order.key !in b.index && order.symbol in b.prices && b.Covers(order, b.prices[order.symbol])
    ensures var after := b.Submit(order, now);
      && after.Indexed() && FilledIn(after, order) && after.prices == b.prices
      && (forall other: BrokerOrderRequest :: FilledIn(b, other) ==> FilledIn(after, other))
      && (forall key :: key in after.index <==> key in b.index || key == order.key)
      && after.positions == b.positions[order.symbol := after.Position(order.symbol)]
      && (order.side == Buy ==> after.Position(order.symbol) == b.Position(order.symbol) + order.quantity)
      && (order.side == Sell ==> after.Position(order.symbol) == b.Position(order.symbol) - order.quantity)
  {
    SubmitIndexed(b, order, now);
    forall other: BrokerOrderRequest | FilledIn(b, other)
      ensures FilledIn(b.Submit(order, now), other)
    {
      assert b.KeyIndexed(other.key);
    }
  }

  lemma FillOneCash(p: PlanInputs, b: Broker, order: BrokerOrderRequest, now: Time)
    requires order.key !in b.index && order.symbol in b.prices && b.Covers(order, b.prices[order.symbol])
    requires order.symbol in p.prices && p.prices[order.symbol] == b.prices[order.symbol]
    ensures b.Submit(order, now).cash == b.cash + OrderFlow(p, order)
  {
  }

  /** The next planned order is covered: a sell by the position, a buy because the plan is funded. */
  lemma NextCovered(p: PlanInputs, b: Broker, orders: seq<BrokerOrderRequest>, n: nat, after: Broker)
    requires p.Valid() && AllPriced(p) && n < |orders| && Progress(p, b, orders, n, after) && b.positions == p.current
    requires DistinctSymbols(orders) && (forall o :: o in orders ==> Belongs(p, o))
    requires SamePrice(p, b, orders[n].symbol)
    requires orders[n].side == Buy ==> 0.0 <= b.cash + Flow(p, orders[..n + 1])
    ensures !Traded(orders, n, orders[n].symbol)
      && after.Position(orders[n].symbol) == Held(p.current, orders[n].symbol)
    ensures after.Covers(orders[n], after.prices[orders[n].symbol])
  {
    var order := orders[n];
    assert order in orders && Belongs(p, order);
    assert PositionAfter(p, b, orders, n, after, order.symbol);
    if order.side == Buy {
      FlowAppended(p, orders[..n], order);
      assert orders[..n + 1] == orders[..n] + [order];
    } else {
      WeightNonNegative(p, order.symbol);
      LotTargetGreatest(Share(p.equity, p.Weight(order.symbol)), p.prices[order.symbol], p.lotSize, 0);
    }
  }

  lemma WeightNonNegative(p: PlanInputs, s: Symbol)
    requires p.Valid()
    ensures 0.0 <= Share(p.equity, p.Weight(s))
  {
    Fees.Scale(0.0, p.Weight(s), p.equity);
  }

  lemma NextPositions(p: PlanInputs, b: Broker, orders: seq<BrokerOrderRequest>, n: nat, after: Broker, next: Broker)
    requires p.Valid() && AllPriced(p) && n < |orders| && orders[n].symbol in p.Universe()
    requires PositionsAfter(p, b, orders, n, after)
    requires next.positions == after.positions[orders[n].symbol := p.TargetQuantity(orders[n].symbol)]
    ensures PositionsAfter(p, b, orders, n + 1, next)
  {
    var m := n + 1;
    forall s
      ensures PositionAfter(p, b, orders, m, next, s)
    {
      assert PositionAfter(p, b, orders, n, after, s);
      assert Traded(orders, m, s) <==> Traded(orders, n, s) || orders[n].symbol == s;
    }
  }

  lemma ProgressNext(p: PlanInputs, b: Broker, orders: seq<BrokerOrderRequest>, n: nat, after: Broker, now: Time)
    requires p.Valid() && AllPriced(p) && n < |orders| && Progress(p, b, orders, n, after) && b.positions == p.current
    requires DistinctSymbols(orders) && (forall o :: o in orders ==> Belongs(p, o))
    requires SamePrice(p, b, orders[n].symbol)
    requires orders[n].side == Buy ==> 0.0 <= b.cash + Flow(p, orders[..n + 1])
    ensures Progress(p, b, orders, n + 1, after.Submit(orders[n], now))
  {
    var order, next := orders[n], after.Submit(orders[n], now);
    assert order in orders && Belongs(p, order);
    NextCovered(p, b, orders, n, after);
    FillOne(after, order, now);
    FillOneCash(p, after, order, now);
    NextPositions(p, b, orders, n, after, next);
    FlowAppended(p, orders[..n], order);
    assert orders[..n + 1] == orders[..n] + [order];
    forall j | n + 1 <= j < |orders|
      ensures orders[j].key !in next.index
    {
      assert orders[j] in orders && Belongs(p, orders[j]);
    }
  }

  lemma BuyFunded(p: PlanInputs, b: Broker, n: nat)
    requires Plan(p).Ok? && b.positions == p.current && Funded(p, b)
    requires n < |Plan(p).value| && Plan(p).value[n].side == Buy
    ensures 0.0 <= b.cash + Flow(p, Plan(p).value[..n + 1])
  {
    var orders := Plan(p).value;
    PlanContents(p);
    forall j | n < j < |orders|
      ensures orders[j].side == Buy
    {
      assert AtMost(orders[n], orders[j]);
    }
    BuysDrain(p, orders, n + 1);
    PlanFlowIsDifference(p);
    TargetsWithinEquity(p);
  }

  lemma SellRaisesCash(p: PlanInputs, orders: seq<BrokerOrderRequest>, n: nat)
    requires n < |orders| && Belongs(p, orders[n]) && orders[n].side == Sell
    ensures Flow(p, orders[..n]) <= Flow(p, orders[..n + 1])
  {
    FlowAppended(p, orders[..n], orders[n]);
    assert orders[..n + 1] == orders[..n] + [orders[n]];
    WorthPositive(p.prices[orders[n].symbol], orders[n].quantity);
  }

  lemma NextFunded(p: PlanInputs, b: Broker, n: nat)
    requires Plan(p).Ok? && b.positions == p.current && Funded(p, b) && n < |Plan(p).value|
    requires 0.0 <= b.cash + Flow(p, Plan(p).value[..n])
    ensures 0.0 <= b.cash + Flow(p, Plan(p).value[..n + 1])
  {
    var orders := Plan(p).value;
    if orders[n].side == Buy {
      BuyFunded(p, b, n);
    } else {
      PlanContents(p);
      assert orders[n] in orders;
      SellRaisesCash(p, orders, n);
    }
  }

  ghost predicate FundsAt(p: PlanInputs, b: Broker, orders: seq<BrokerOrderRequest>, n: nat)
    requires n <= |orders|
  {
    0.0 <= b.cash + Flow(p, orders[..n])
  }

  lemma {:induction false} FundsThroughout(p: PlanInputs, b: Broker, n: nat)
    requires Plan(p).Ok? && b.positions == p.current && 0.0 <= b.cash && Funded(p, b) && n <= |Plan(p).value|
    ensures FundsAt(p, b, Plan(p).value, n)
  {
    if n > 0 {
      FundsThroughout(p, b, n - 1);
      NextFunded(p, b, n - 1);
    }
  }

  /** Orders the planner could have written, at the broker's prices. */
  ghost predicate Tradable(p: PlanInputs, b: Broker, orders: seq<BrokerOrderRequest>) {
    && b.positions == p.current && DistinctSymbols(orders)
    && forall o :: o in orders ==> Belongs(p, o) && SamePrice(p, b, o.symbol)
  }

  lemma PlanTradable(p: PlanInputs, b: Broker)
    requires Plan(p).Ok? && Agrees(p, b)
    ensures Tradable(p, b, Plan(p).value)
  {
    PlanContents(p);
  }

  lemma {:induction false} OrdersFill(p: PlanInputs, b: Broker, orders: seq<BrokerOrderRequest>, now: Time, n: nat)
    requires p.Valid() && AllPriced(p) && n <= |orders| && Tradable(p, b, orders) && Progress(p, b, orders, 0, b)
    requires forall i {:trigger FundsAt(p, b, orders, i)} :: 0 <= i <= |orders| ==> FundsAt(p, b, orders, i)
    ensures Progress(p, b, orders, n, SubmitAll(b, orders, now, n))
  {
    if n > 0 {
      OrdersFill(p, b, orders, now, n - 1);
      assert orders[n - 1] in orders && FundsAt(p, b, orders, n);
      ProgressNext(p, b, orders, n - 1, SubmitAll(b, orders, now, n - 1), now);
    }
  }

  /** Every order of a funded plan fills in turn, and cash is never negative on the way. */
  lemma FundedProgress(p: PlanInputs, b: Broker, now: Time, n: nat)
    requires Plan(p).Ok? && Agrees(p, b) && Funded(p, b) && n <= |Plan(p).value|
    ensures p.Valid() && AllPriced(p) && Progress(p, b, Plan(p).value, n, SubmitAll(b, Plan(p).value, now, n))
    ensures 0.0 <= SubmitAll(b, Plan(p).value, now, n).cash
  {
    var orders := Plan(p).value;
    ProgressStart(p, b);
    PlanTradable(p, b);
    forall i | 0 <= i <= |orders|
      ensures FundsAt(p, b, orders, i)
    {
      FundsThroughout(p, b, i);
    }
    OrdersFill(p, b, orders, now, n);
    assert FundsAt(p, b, orders, n);
  }

  lemma AtTarget(p: PlanInputs, b: Broker, after: Broker, s: Symbol)
    requires Plan(p).Ok? && p.Valid() && AllPriced(p) && b.positions == p.current && s in p.Universe()
    requires Progress(p, b, Plan(p).value, |Plan(p).value|, after)
    ensures after.Position(s) == p.TargetQuantity(s)
  {
    var orders := Plan(p).value;
    PlanContents(p);
    assert PositionAfter(p, b, orders, |orders|, after, s);
    if p.Delta(s) != 0 {
      assert p.Order(s) in orders;
      var j :| 0 <= j < |orders| && orders[j] == p.Order(s);
      assert Traded(orders, |orders|, s);
    }
  }

  lemma TargetsAreHoldings(p: PlanInputs, after: Broker)
    requires p.Valid() && AllPriced(p) && after.positions.Keys <= p.Universe()
    requires forall s :: s in p.Universe() ==> after.Position(s) == p.TargetQuantity(s)
    ensures Holdings(p, after.positions) == Total(Targets(p))
  {
    HoldingsOverUniverse(p, after.positions);
    assert Targets(p) == map s | s in p.Universe() :: ValueAt(p.prices, after.positions, s);
  }

  /** A funded plan, submitted in its order, fills every order and ends exactly at the floored
      targets; cash stays non-negative and cash plus holdings is conserved. */
  lemma FundedRebalance(p: PlanInputs, b: Broker, now: Time)
    requires Plan(p).Ok? && Agrees(p, b) && Funded(p, b)
    ensures p.Valid() && AllPriced(p)
    ensures var orders := Plan(p).value;
      var after := SubmitAll(b, orders, now, |orders|);
      && (forall order :: order in orders ==> FilledIn(after, order))
      && (forall s :: s in p.Universe() ==> after.Position(s) == p.TargetQuantity(s))
      && (forall s :: s !in p.Universe() ==> after.Position(s) == b.Position(s))
      && 0.0 <= after.cash && after.cash + Holdings(p, after.positions) == b.cash + Holdings(p, b.positions)
  {
    var orders := Plan(p).value;
    var after := SubmitAll(b, orders, now, |orders|);
    FundedProgress(p, b, now, |orders|);
    forall s
      ensures s in p.Universe() ==> after.Position(s) == p.TargetQuantity(s)
      ensures s !in p.Universe() ==> after.Position(s) == b.Position(s)
    {
      if s in p.Universe() {
        AtTarget(p, b, after, s);
      } else {
        assert PositionAfter(p, b, orders, |orders|, after, s);
      }
    }
    PlanFlowIsDifference(p);
    TargetsAreHoldings(p, after);
    assert orders[..|orders|] == orders;
  }

  lemma {:induction false} NothingToDo(p: PlanInputs, symbols: seq<Symbol>)
    requires p.Valid() && forall s :: s in symbols ==> p.Priced(s) && p.Delta(s) == 0
    ensures Deltas(p, symbols) == Ok([])
  {
    if symbols != [] {
      NothingToDo(p, symbols[..|symbols| - 1]);
    }
  }

  lemma SettledPlanEmpty(p: PlanInputs)
    requires p.Valid() && AllPriced(p) && forall s :: s in p.Universe() ==> p.Delta(s) == 0
    ensures Plan(p) == Ok([])
  {
    Ordering.AscendingFacts(p.Universe());
    NothingToDo(p, Ordering.Ascending(p.Universe()));
  }

  ghost predicate HeldAtTarget(p: PlanInputs, positions: map<Symbol, int>, s: Symbol)
    requires p.Valid()
  {
    p.Priced(s) && Held(positions, s) == p.TargetQuantity(s)
  }

  lemma NoDeltaAtTarget(p: PlanInputs, positions: map<Symbol, int>, s: Symbol)
    requires p.Valid() && HeldAtTarget(p, positions, s)
    ensures p.(current := positions).Priced(s) && p.(current := positions).Delta(s) == 0
  {
    var again := p.(current := positions);
    assert again.Weight(s) == p.Weight(s);
  }

  lemma SettledElsewhere(p: PlanInputs, positions: map<Symbol, int>)
    requires p.Valid() && positions.Keys <= p.Universe()
    requires forall s {:trigger HeldAtTarget(p, positions, s)} :: s in p.Universe() ==> HeldAtTarget(p, positions, s)
    ensures Plan(p.(current := positions)) == Ok([])
  {
    var again := p.(current := positions);
    forall s | s in again.Universe()
      ensures again.Priced(s) && again.Delta(s) == 0
    {
      assert s in p.Universe() && HeldAtTarget(p, positions, s);
      NoDeltaAtTarget(p, positions, s);
    }
    SettledPlanEmpty(again);
  }

  /** Planning again from the result, with the equity revalued there, asks for nothing when the
      first plan divided exactly the account's value. */
  lemma ReplanEmpty(p: PlanInputs, b: Broker, now: Time)
    requires Plan(p).Ok? && Agrees(p, b) && p.equity == b.cash + Holdings(p, b.positions)
    ensures var after := SubmitAll(b, Plan(p).value, now, |Plan(p).value|);
      Plan(p.(current := after.positions, equity := after.cash + Holdings(p, after.positions))) == Ok([])
  {
    var after := SubmitAll(b, Plan(p).value, now, |Plan(p).value|);
    FundedRebalance(p, b, now);
    assert after.positions.Keys <= p.Universe() by { FundedProgress(p, b, now, |Plan(p).value|); }
    assert p.(current := after.positions, equity := after.cash + Holdings(p, after.positions))
      == p.(current := after.positions);
    forall s | s in p.Universe()
      ensures HeldAtTarget(p, after.positions, s)
    {
      assert after.Position(s) == p.TargetQuantity(s);
    }
    SettledElsewhere(p, after.positions);
  }

  /** Submitting a plan a second time changes nothing. */
  lemma {:induction false} ResubmissionIgnored(b: Broker, orders: seq<BrokerOrderRequest>, now: Time, n: nat)
    requires n <= |orders| && forall order :: order in orders ==> order.key in b.index
    ensures SubmitAll(b, orders, now, n) == b
  {
    if n > 0 {
      ResubmissionIgnored(b, orders, now, n - 1);
      assert orders[n - 1] in orders;
    }
  }
}